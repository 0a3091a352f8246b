# NFL confidence pool, modelled in Dafny

The pool is a Django site where users enter two contests each week of an
NFL season:

- **Confidence picks.** For each game of the week, a user picks a winner
  and a confidence weight. The weights of the week's N games must be
  exactly 1..N. A correct pick scores its weight.
- **Survivor picks.** A user picks one team in odd weeks and two in even
  weeks, and may never reuse a team within a season. A losing pick is a
  strike, and three strikes eliminate the user.
- **Must-pick team.** Every entry must pick the Chicago Bears ("CHI") to
  win their game.

A management command scores a week once its games are final. It does
five things in order:

1. Totals each user's points.
2. Stores them in a weekly result.
3. Ranks the week, by points and then by email.
4. Awards playoff points by rank: 20 for first, then 15 down to 1 for
   ranks 2 to 16.
5. Adds the points to the season totals, and decides the survivor picks.

The project models these parts:

- the entities and their methods;
- the scoring pass;
- the two pick forms;
- the view that saves a week's picks;
- the ordering of the season standings.

It proves what each of these computes.

## Modules

- **`wrappers.dfy` (`Wrappers`).** `Option` and `Outcome`.
- **`models.dfy` (`Models`).** Holds:
  - the entities as datatypes;
  - `Game.winner`, `ConfidencePick.is_correct`, `Week.survivor_picks_required` and `UserSeasonStats.add_survivor_strike`;
  - the `Database` class, whose fields are the tables, updated in place.
- **`ranking.dfy` (`Ranking`).** The weekly ranking order and the rank it gives each user.
- **`score_games.dfy` (`ScoreGames`).** The scoring pass. Each step is a method on the database, proved against a function that specifies it.
- **`scoring_properties.dfy` (`ScoringProperties`).** What one pass does to a user's season row, and what a second pass over the same week does.
- **`forms.dfy` (`Forms`).** Holds:
  - the fields each form builds;
  - the per-field checks;
  - the forms' `clean` checks and what an accepted submission means.
- **`views.dfy` (`Views`).** Holds:
  - `make_picks` as a method on the database;
  - the properties of a saved submission;
  - the leaderboard and the home page's top five.

## Behaviour modelled as written

**Re-scoring double counts.** The scoring pass keeps no record that a week
was scored. Running it again over the same week adds the week's confidence
points and playoff award to the season totals a second time.
`ScoringProperties.RescoringDoubleCounts` proves this exact doubling.
Survivor picks, already decided, are not counted again.

**The must-pick check in a bye week.** The weekly form demands the Bears
pick whenever the Bears team exists, including in a week where they have
no game. In such a week no submission can pass
(`Forms.ByeWeekRejectsEverything`, `Views.ByeWeekNothingAccepted`).

**Strikes have no upper bound.** The field validator caps strikes at
three, but it never runs on `save()`, so strikes keep counting past three.

**Resubmitted survivor picks.** The survivor form counts the user's picks
of the current week as used, even though saving would replace them.
Resubmitting the same survivor team for the week is therefore rejected
(`Views.ResubmittedSurvivorTeamRejected`).

## Modelling choices

**Identifiers and rows.**
- Ids are natural numbers.
- Times are integers.
- A user is an id and an email.
- A row updated and saved in place is modelled as the replacement of that row in its table.

**Submitted data.** A POST is a map from field name to integer. A field
that is left empty, or that holds something that is not an integer, is
absent from the map.

**Row order.** The order of rows that tie under a query's `order_by` is
not specified by the database:
- The weekly ranking compares emails by code point, character by character (`Ranking.EmailBefore`); a database collation may order some emails differently, for example by ignoring case. Equal emails are put in user id order.
- The standings keep tied rows in the order of the table scan. The scan is a parameter that lists every key of the stats table exactly once.

## Model

| member | source | states |
|---|---|---|
| Models.SurvivorPicksRequired | pool/models.py:31-33 | two survivor picks exactly when the week number is even, one otherwise |
| Models.SeasonSurvivorPicksTotal | pool/models.py:31-33 | over weeks 1..n a user names n + n/2 survivor teams (27 over 18 weeks, within 32 teams) |
| Models.Winner | pool/models.py:74-82 | a winner only for a final game with both scores; it is the side with the strictly higher score; a tie or missing score gives none |
| Models.IsCorrect | pool/models.py:101-106 | unknown iff the game is not final; correct iff final and the picked team is the winner; a final tie is a miss |
| Models.Struck | pool/models.py:138-143 | one more strike; eliminated iff already eliminated or strikes reach 3; points untouched |
| Models.StruckTimesEffect | pool/models.py:138-143 | k strikes add exactly k; eliminated iff already, or k > 0 and the count reaches 3 |
| Models.StruckTimesConsistent | pool/models.py:138-143 | a row whose elimination flag agrees with strikes >= 3 keeps agreeing after any number of strikes |
| Models.Database.GetOrCreateStats | pool/management/commands/score_games.py:162-165 | the row for the key exists afterwards; an existing row is kept, a missing one is created at its defaults |
| Models.Database.AddSurvivorStrike | pool/models.py:138-143 | the row under the key becomes its struck version; no other row changes |
| Ranking.RanksBeforeIrreflexive | pool/management/commands/score_games.py:109 | no user is listed before themself |
| Ranking.RanksBeforeTransitive | pool/management/commands/score_games.py:109 | the ranking order (points descending, then email) is transitive |
| Ranking.RanksBeforeTotal | pool/management/commands/score_games.py:109 | any two distinct users are ordered one way or the other |
| Ranking.RanksBeforeAsymmetric | pool/management/commands/score_games.py:109 | never both a before b and b before a |
| Ranking.FirstExists | pool/management/commands/score_games.py:109-114 | every non-empty set of users has a first user in ranking order |
| Ranking.RankRespectsOrder | pool/management/commands/score_games.py:113-130 | a user listed earlier gets a strictly smaller rank |
| Ranking.RanksDistinct | pool/management/commands/score_games.py:113-130 | two users of a week never share a rank, even on equal points |
| Ranking.RankInRange | pool/management/commands/score_games.py:113-130 | ranks lie in 1..n for the week's n users |
| Ranking.RanksAreConsecutive | pool/management/commands/score_games.py:113-130 | the week's ranks are exactly 1..n |
| ScoreGames.FinalGames | pool/management/commands/score_games.py:39 | exactly the week's final games, kept in game-time order |
| ScoreGames.TeamGame | pool/management/commands/score_games.py:145-147 | the first final game the team plays in, which in game-time order is its earliest, or none iff it plays in none |
| ScoreGames.TallyConfidence | pool/management/commands/score_games.py:46-64 | keys are the users with a pick on a final game; each user's total is the sum of their correct picks' weights |
| ScoreGames.NonParticipantScoresZero | pool/management/commands/score_games.py:50-57 | a user with no pick on a final game scores 0 |
| ScoreGames.SaveWeeklyResults | pool/management/commands/score_games.py:66-75 | each scored user's row for the week holds their points (created or overwritten); other rows unchanged |
| ScoreGames.PlayoffPoints | pool/management/commands/score_games.py:103-116 | rank 1 earns 20, ranks 2..16 earn 17 - rank, any other rank 0 |
| ScoreGames.PlayoffPointsMonotone | pool/management/commands/score_games.py:103-106 | a better rank never earns fewer playoff points |
| ScoreGames.WeekRanks | pool/management/commands/score_games.py:108-114 | ranks are given to exactly the week's users |
| ScoreGames.RankingOrder | pool/management/commands/score_games.py:109 | lists each of the week's users once, the i-th with rank i + 1 |
| ScoreGames.RecordRank | pool/management/commands/score_games.py:115-122 | the user's row for the week stores the rank and its award; their season row gains the award; nothing else changes |
| ScoreGames.CalculateWeeklyRankings | pool/management/commands/score_games.py:100-130 | every row of the week gets its rank and award; each user's season playoff points grow by the award |
| ScoreGames.RankWeekConsecutive | pool/management/commands/score_games.py:113-130 | after ranking, the week's stored ranks are exactly 1..n, each with its award; other weeks untouched |
| ScoreGames.RankWeekOrdered | pool/management/commands/score_games.py:109-121 | more weekly points means a smaller rank and at least as many playoff points |
| ScoreGames.AddUserConfidence | pool/management/commands/score_games.py:82-89 | the user's row, created if missing, gains the week's points |
| ScoreGames.AddConfidencePoints | pool/management/commands/score_games.py:80-95 | every scored user's season row gains their weekly points; other rows unchanged |
| ScoreGames.SurvivorVerdict | pool/management/commands/score_games.py:139-158 | undecided iff another week, already decided, or no final game for the team; correct only if the team won a final game |
| ScoreGames.SurvivorVerdictIsWinner | pool/management/commands/score_games.py:144-158 | a decided pick is correct iff its team is the winner of the first final game it played; a tie is a loss |
| ScoreGames.ScoredPick | pool/management/commands/score_games.py:139-159 | keeps user, week and team; the new correctness is the verdict when there is one; a pick of another week, already decided, or whose team has no final game is left as is; the result needs no further decision |
| ScoreGames.ScoredSurvivorPicks | pool/management/commands/score_games.py:135-159 | every pick is replaced by its scored version, in place |
| ScoreGames.LossesDecided | pool/management/commands/score_games.py:141-168 | a user with no decided pick takes no strike |
| ScoreGames.SurvivorStatsAt | pool/management/commands/score_games.py:157-168 | a season row exists afterwards iff it did or one of the user's picks was decided; it takes one strike per lost pick |
| ScoreGames.SurvivorStrikesCounted | pool/management/commands/score_games.py:157-168 | strikes grow by the number of lost picks; elimination iff already or the count reaches 3; points untouched |
| ScoreGames.ScoreSurvivorPicks | pool/management/commands/score_games.py:132-186 | survivor picks become their scored versions and stats rows take the strikes |
| ScoreGames.SavedHaveStats | pool/management/commands/score_games.py:66-122 | once results are saved, every ranked user has a stats row, so ranking can look it up |
| ScoreGames.ScoreWeek | pool/management/commands/score_games.py:35-98 | with no final game nothing changes, whatever the stats rows; otherwise results, stats and survivor picks become the pass's specified values; the tables stay valid |
| ScoringProperties.ScoringStatsEffect | pool/management/commands/score_games.py:35-98 | one pass adds the user's weekly points, the award for their rank, and one strike per lost survivor pick, with elimination at 3 |
| ScoringProperties.ScoringKeepsElimination | pool/models.py:138-143 | scoring never clears an elimination |
| ScoringProperties.RescoredPicksUndecided | pool/management/commands/score_games.py:141-142 | a second pass finds every survivor pick of the week decided and leaves the picks alone |
| ScoringProperties.ResavedRanksAlike | pool/management/commands/score_games.py:66-130 | the second pass ranks the week exactly as the first did |
| ScoringProperties.ScoringKeepsCanScore | pool/management/commands/score_games.py:120 | after a pass, every user the next pass ranks has a stats row |
| ScoringProperties.RescoringDoubleCounts | pool/management/commands/score_games.py:77-122 | a second pass leaves results and survivor picks alone, doubles the week's confidence and playoff points in the season row, and adds no strike |
| Forms.CleanedData | pool/forms.py:60-61 | exactly the submitted values that pass their own field's check |
| Forms.DistinctIffSetSize | pool/forms.py:89-91 | the length-against-set-size test fails exactly when some value repeats |
| Forms.WeekGames | pool/forms.py:18 | exactly the week's games |
| Forms.WeekGamesDistinct | pool/forms.py:18 | the week's games keep distinct ids |
| Forms.WeekGamesInOrder | pool/forms.py:18 | the week's games keep the table's game-time order |
| Forms.GameFieldsPrefix | pool/forms.py:28-47 | each game gets a choice between its two teams and a confidence in 1..N; no other field |
| Forms.WeekPicksFields | pool/forms.py:9-47 | the method builds exactly those fields, game by game |
| Forms.FindTeam | pool/forms.py:22-26 | finds the team with the abbreviation, or none iff no team has it |
| Forms.ConfidenceValuesAll | pool/forms.py:70-83 | when every game's fields passed, the collected confidences are the games' confidences in order |
| Forms.CleanWeekPicks | pool/forms.py:60-98 | passes with no games; the must-pick error iff the team exists and is not picked; otherwise the duplicate error iff a confidence repeats; the coverage error only for distinct confidences; a pass means exactly 1..N |
| Forms.AcceptedPicksNameTeams | pool/forms.py:28-40 | an accepted submission names, for every game, one of its two teams |
| Forms.AcceptedWeightsArePermutation | pool/forms.py:89-96 | an accepted submission's confidences are distinct and exactly 1..N |
| Forms.DistinctWeightsAccepted | pool/forms.py:60-98 | conversely, valid fields, the must-pick team picked and distinct confidences are accepted |
| Forms.RepeatedWeightRejected | pool/forms.py:89-91 | two games with the same confidence are rejected |
| Forms.ByeWeekRejectsEverything | pool/forms.py:79-87 | when the must-pick team exists but plays no game of the week, every submission fails |
| Forms.UsedTeams | pool/forms.py:113-117 | exactly the teams of the user's survivor picks in the season, this week included |
| Forms.AvailableTeams | pool/forms.py:120-122 | exactly the teams not yet used |
| Forms.SlotFieldsShape | pool/forms.py:124-133 | slots 1..n exist, and nothing else; each offers the available teams |
| Forms.SurvivorFields | pool/forms.py:104-133 | the method builds exactly the week's number of slots over the available teams |
| Forms.PickedTeamsAll | pool/forms.py:151-158 | with every slot filled, the picked teams are the slots' values in order |
| Forms.CleanSurvivor | pool/forms.py:145-164 | passes iff no team fills two slots |
| Forms.AcceptedSurvivorPicks | pool/forms.py:104-164 | an accepted submission fills every slot with an available team, no two alike |
| Forms.UsedTeamRejected | pool/forms.py:113-133 | a team already used in the season, this week included, is rejected |
| Forms.SameTeamTwiceRejected | pool/forms.py:160-162 | in an even week, the same team in both slots is rejected |
| Views.KeptConfidence | pool/views.py:82 | the delete keeps exactly the picks that are not the user's in the week |
| Views.KeptSurvivor | pool/views.py:83 | the delete keeps exactly the survivor picks that are not the user's in the week |
| Views.CreateConfidencePicks | pool/views.py:86-95 | appends one pick per game, in game order |
| Views.CreateSurvivorPicks | pool/views.py:98-106 | appends one undecided pick per slot, in slot order |
| Views.SavePicks | pool/views.py:81-106 | the user's picks of the week are replaced; survivor picks are created only if not eliminated |
| Views.SubmitPicks | pool/views.py:77-80 | saves iff the confidence form is valid and, unless eliminated, the survivor form too; a rejection changes nothing |
| Views.MakePicks | pool/views.py:38-109 | covers every outcome: no week, the deadline passed (nothing changes), the stats row ensured, a missing must-pick team, rejected, or saved |
| Views.SavedConfidencePicks | pool/views.py:82-95 | after a save: exactly one pick per game of the week for the user; other users' and other weeks' picks kept; nothing added for others |
| Views.SavedWeightsArePermutation | pool/views.py:86-95 | the saved picks' confidences are distinct and exactly 1..N |
| Views.SavedPicksNameTeams | pool/views.py:86-95 | each saved pick is the user's, on its game, naming a team playing it |
| Views.SavedSurvivorPicks | pool/views.py:98-106 | the week's number of undecided picks, all different teams, none used before in the season |
| Views.ResubmittedSurvivorTeamRejected | pool/views.py:78-80 | naming a team already picked for this week is rejected, although the save would replace it |
| Views.ByeWeekNothingAccepted | pool/views.py:54-80 | in a week where the must-pick team has no game, no submission is accepted |
| Views.SortStandingsCorrect | pool/views.py:159-161 | the sorted rows are in (playoff points, total points) descending order and are a permutation of the input rows |
| Views.SeasonRows | pool/views.py:159-160 | only the season's stats rows, each with its stats, and every season row the scan lists |
| Views.SeasonRowsExact | pool/views.py:159-160 | over a scan of the whole table, each stats row of the season appears exactly once and nothing else appears |
| Views.ActiveSeason | pool/views.py:14 | the active season of the latest year, or none iff no season is active |
| Views.FindSeason | pool/views.py:150-151 | the season with that id, or none iff absent |
| Views.Leaderboard | pool/views.py:148-161 | a non-zero id shows that season, or not found iff it does not exist; otherwise the active season, or the error iff none is active; standings are sorted and hold each of the shown season's rows exactly once |
| Views.TopFiveAreTheLeaders | pool/views.py:29-31 | min(5, n) rows, sorted, taken from the season's rows; no omitted row ranks above a shown one |
| Views.TopFiveOfSeason | pool/views.py:29-31 | the top five of a season are sorted season rows; all are shown when fewer than five; no row left out sorts before a shown one |
| Views.Home | pool/views.py:10-34 | with an active season, the user's row is ensured and the season's top five is shown, with the properties above; otherwise nothing changes |

## Left out

- **The command's entry point.** `handle()` chooses which weeks to score and calls the pass for each of them (pool/management/commands/score_games.py:16-33). The model scores one week per call.
- **Side effects with no bearing on state.** The model leaves out:
  - `stdout` messages, flash messages, template rendering and redirects;
  - `login_required`, and the anonymous branch of the home page;
  - the GET branch of `make_picks`, with its initial values and its re-display of posted values.
- **Display details.** Widgets, labels and the choices' display text are not modelled, nor is the order of the leaderboard's weekly results.
- **The home page's active week.** The page looks up the active week but never uses it for the standings.
- **Form input.** The model drops two parts of how a POST is read:
  - a choice field compares the submitted text with the choice's text, so `07` is not the same as `7`; here submitted values are integers;
  - the empty `--` choice of a survivor slot is modelled as an absent value, which `required=True` rejects.
- **The clock.** The clock is the `now` parameter of `Views.MakePicks`.
- **Lookup errors.** `MultipleObjectsReturned` and the other database errors are not modelled. Team abbreviations and the `unique_together` keys are unique, so lookups return at most one row.
- **ScoreGames.CalculateWeeklyRankings, ScoreGames.ScoreWeek:** When the week has final games, these require that every user ranked in the week already has a stats row for the season. Without one, `UserSeasonStats.objects.get` raises partway through the loop (pool/management/commands/score_games.py:120). The model does not describe that partial update.
- **Views.MakePicks:** This does not model a rollback. Without a transaction, a stats row created just before the must-pick lookup fails is kept, and the model keeps it too.
- **Views.SortStandingsCorrect:** This proves the order and the contents of the standings. It does not prove the order among tied rows, which the database leaves unspecified.
