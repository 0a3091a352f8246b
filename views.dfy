/**
  The pages of pool/views.py that change or order the pool's tables:
  submitting a week's picks (make_picks), and the season standings shown
  by the leaderboard and, cut to the first five, by the home page.
 */
module Views {
  import opened Wrappers
  import opened Models
  import opened Forms

  // ---------------------------------------------------------------------
  // make_picks (pool/views.py:37-145), the POST of a week's picks
  // ---------------------------------------------------------------------

  datatype PicksOutcome =
    | WeekNotFound            // get_object_or_404: no such week
    | DeadlinePassed          // redirected home with an error, nothing saved
    | MustPickTeamNotFound    // Team.objects.get(abbreviation='CHI') raised
    | Rejected                // a form reported errors; the page is shown again
    | Saved                   // the week's picks were replaced

  /** `game__week=week`: the pick is on a game of week `w`. */
  predicate PickInWeek(p: ConfidencePick, games: seq<Game>, w: WeekId)
  {
    exists g :: g in games && g.id == p.game && g.week == w
  }

  /** The user's confidence picks of week `w`, the ones the view deletes. */
  predicate ReplacedConfidence(p: ConfidencePick, user: User, games: seq<Game>, w: WeekId)
  {
    p.user == user && PickInWeek(p, games, w)
  }

  /** The user's survivor picks of week `w`, the ones the view deletes. */
  predicate ReplacedSurvivor(p: SurvivorPick, user: User, w: WeekId)
  {
    p.user == user && p.week == w
  }

  /** The confidence picks left by the delete, in table order. */
  function KeptConfidence(picks: seq<ConfidencePick>, user: User, games: seq<Game>, w: WeekId): (kept: seq<ConfidencePick>)
    ensures forall p :: p in kept <==> p in picks && !ReplacedConfidence(p, user, games, w)
  {
    if picks == [] then []
    else (if ReplacedConfidence(picks[0], user, games, w) then [] else [picks[0]]) + KeptConfidence(picks[1..], user, games, w)
  }

  /** The survivor picks left by the delete, in table order. */
  function KeptSurvivor(picks: seq<SurvivorPick>, user: User, w: WeekId): (kept: seq<SurvivorPick>)
    ensures forall p :: p in kept <==> p in picks && !ReplacedSurvivor(p, user, w)
  {
    if picks == [] then []
    else (if ReplacedSurvivor(picks[0], user, w) then [] else [picks[0]]) + KeptSurvivor(picks[1..], user, w)
  }

  /** Every game has both of its fields in the submission. */
  predicate HasGameValues(games: seq<Game>, data: FormData)
  {
    forall g :: g in games ==> GameTeam(g.id) in data && 0 <= data[GameTeam(g.id)] && GameConfidence(g.id) in data
  }

  /** The confidence picks created from the submission, one per game, in game order. */
  function NewConfidencePicks(user: User, games: seq<Game>, data: FormData): seq<ConfidencePick>
    requires HasGameValues(games, data)
    decreases |games|
  {
    if games == [] then []
    else
      var g := games[|games| - 1];
      assert forall h :: h in games[..|games| - 1] ==> h in games;
      NewConfidencePicks(user, games[..|games| - 1], data) +
        [ConfidencePick(user, g.id, data[GameTeam(g.id)], data[GameConfidence(g.id)])]
  }

  /** Survivor slots 1..n all hold a value. */
  predicate HasSlotValues(n: nat, data: FormData)
  {
    forall i :: 1 <= i <= n ==> SurvivorSlot(i) in data && 0 <= data[SurvivorSlot(i)]
  }

  /** The survivor picks created from slots 1..n, undecided, in slot order. */
  function NewSurvivorPicks(user: User, w: WeekId, data: FormData, n: nat): seq<SurvivorPick>
    requires HasSlotValues(n, data)
  {
    if n == 0 then []
    else NewSurvivorPicks(user, w, data, n - 1) + [SurvivorPick(user, w, data[SurvivorSlot(n)], None)]
  }

  /** The fields of the survivor form `user` is shown for `week`. */
  function SurvivorFormFields(week: Week, user: User, teams: seq<Team>, picks: seq<SurvivorPick>, weeks: map<WeekId, Week>): map<FieldName, FormField>
  {
    SlotFields(SurvivorPicksRequired(week), AvailableTeams(teams, UsedTeams(picks, weeks, user, week.season)))
  }

  /**
    The accept condition of make_picks: the confidence form is valid, and
    so is the survivor form unless the user is out of the survivor game.
   */
  predicate Accepts(games: seq<Game>, week: Week, user: User, teams: seq<Team>, picks: seq<SurvivorPick>,
                    weeks: map<WeekId, Week>, mustPick: Team, eliminated: bool, data: FormData)
  {
    WeekPicksValid(games, GameFields(games, |games|), data, Some(mustPick)) &&
    (eliminated || SurvivorValid(week, SurvivorFormFields(week, user, teams, picks, weeks), data))
  }

  /** An accepted submission holds a value for every game and, unless eliminated, for every survivor slot. */
  lemma AcceptedHasValues(games: seq<Game>, week: Week, user: User, teams: seq<Team>, picks: seq<SurvivorPick>,
                          weeks: map<WeekId, Week>, mustPick: Team, eliminated: bool, data: FormData)
    requires DistinctGameIds(games)
    requires Accepts(games, week, user, teams, picks, weeks, mustPick, eliminated, data)
    ensures HasGameValues(games, data)
    ensures !eliminated ==> HasSlotValues(SurvivorPicksRequired(week), data)
  {
    ValidFormHasValues(games, data, Some(mustPick));
    if !eliminated {
      ValidSurvivorSlots(week, user, teams, picks, weeks, data);
    }
  }

  /** The user's confidence picks after an accepted submission: the kept ones, then one new pick per game. */
  function ConfidenceAfterSave(picks: seq<ConfidencePick>, user: User, allGames: seq<Game>, w: WeekId, data: FormData): seq<ConfidencePick>
    requires HasGameValues(WeekGames(allGames, w), data)
  {
    KeptConfidence(picks, user, allGames, w) + NewConfidencePicks(user, WeekGames(allGames, w), data)
  }

  /** The survivor picks after an accepted submission: the kept ones, then the new ones unless eliminated. */
  function SurvivorAfterSave(picks: seq<SurvivorPick>, user: User, week: Week, eliminated: bool, data: FormData): seq<SurvivorPick>
    requires !eliminated ==> HasSlotValues(SurvivorPicksRequired(week), data)
  {
    KeptSurvivor(picks, user, week.id) + (if eliminated then [] else NewSurvivorPicks(user, week.id, data, SurvivorPicksRequired(week)))
  }

  /** Appending the picks of the games one at a time builds the week's new picks. */
  method CreateConfidencePicks(db: Database, user: User, games: seq<Game>, data: FormData)
    requires HasGameValues(games, data)
    modifies db`confidencePicks
    ensures db.confidencePicks == old(db.confidencePicks) + NewConfidencePicks(user, games, data)
  {
    ghost var start := db.confidencePicks;
    for i := 0 to |games|
      invariant HasGameValues(games[..i], data)
      invariant db.confidencePicks == start + NewConfidencePicks(user, games[..i], data)
    {
      var game := games[i];
      var teamId := data[GameTeam(game.id)];
      var confidence := data[GameConfidence(game.id)];
      db.confidencePicks := db.confidencePicks + [ConfidencePick(user, game.id, teamId, confidence)];
      assert games[..i + 1][..i] == games[..i];
    }
    assert games[..|games|] == games;
  }

  /** Appending one survivor pick per slot builds the week's new survivor picks. */
  method CreateSurvivorPicks(db: Database, user: User, w: WeekId, data: FormData, numPicks: nat)
    requires HasSlotValues(numPicks, data)
    modifies db`survivorPicks
    ensures db.survivorPicks == old(db.survivorPicks) + NewSurvivorPicks(user, w, data, numPicks)
  {
    ghost var start := db.survivorPicks;
    for i := 0 to numPicks
      invariant db.survivorPicks == start + NewSurvivorPicks(user, w, data, i)
    {
      var teamId := data[SurvivorSlot(i + 1)];
      db.survivorPicks := db.survivorPicks + [SurvivorPick(user, w, teamId, None)];
    }
  }

  /**
    The save of an accepted submission: the user's picks of the week are
    deleted, then one confidence pick per game is created and, unless the
    user is eliminated, one survivor pick per slot.
   */
  method SavePicks(db: Database, user: User, week: Week, games: seq<Game>, eliminated: bool, data: FormData)
    requires games == WeekGames(db.games, week.id)
    requires HasGameValues(games, data)
    requires !eliminated ==> HasSlotValues(SurvivorPicksRequired(week), data)
    modifies db`confidencePicks, db`survivorPicks
    ensures db.confidencePicks == ConfidenceAfterSave(old(db.confidencePicks), user, old(db.games), week.id, data)
    ensures db.survivorPicks == SurvivorAfterSave(old(db.survivorPicks), user, week, eliminated, data)
  {
    db.confidencePicks := KeptConfidence(db.confidencePicks, user, db.games, week.id);
    db.survivorPicks := KeptSurvivor(db.survivorPicks, user, week.id);
    CreateConfidencePicks(db, user, games, data);
    if !eliminated {
      CreateSurvivorPicks(db, user, week.id, data, SurvivorPicksRequired(week));
    }
  }

  /**
    The POST once the week, its deadline and the must-pick team have been
    checked: both forms are built and, when the submission is accepted,
    the user's picks of the week are replaced.
   */
  method SubmitPicks(db: Database, user: User, week: Week, mustPick: Team, eliminated: bool, data: FormData) returns (saved: bool)
    requires db.Valid()
    modifies db`confidencePicks, db`survivorPicks
    ensures saved <==> Accepts(WeekGames(old(db.games), week.id), week, user, old(db.teams), old(db.survivorPicks), old(db.weeks),
                               mustPick, eliminated, data)
    ensures !saved ==> db.confidencePicks == old(db.confidencePicks) && db.survivorPicks == old(db.survivorPicks)
    ensures saved ==>
      HasGameValues(WeekGames(old(db.games), week.id), data) &&
      (!eliminated ==> HasSlotValues(SurvivorPicksRequired(week), data)) &&
      db.confidencePicks == ConfidenceAfterSave(old(db.confidencePicks), user, old(db.games), week.id, data) &&
      db.survivorPicks == SurvivorAfterSave(old(db.survivorPicks), user, week, eliminated, data)
  {
    var games := WeekGames(db.games, week.id);
    WeekGamesDistinct(db.games, week.id);
    var confidenceFields := WeekPicksFields(games);
    var survivorFields := SurvivorFields(week, user, db.teams, db.survivorPicks, db.weeks);
    saved := WeekPicksValid(games, confidenceFields, data, Some(mustPick)) && (eliminated || SurvivorValid(week, survivorFields, data));
    if saved {
      AcceptedHasValues(games, week, user, db.teams, db.survivorPicks, db.weeks, mustPick, eliminated, data);
      SavePicks(db, user, week, games, eliminated, data);
    }
  }

  /**
    make_picks for a POST by `user` of `data` at time `now`. A week that
    does not exist, or whose deadline has passed, changes nothing. Otherwise
    the user's stats row for the season is created if missing; then the
    must-pick team is looked up, and its absence ends the request. An
    accepted submission deletes the user's picks of the week and creates
    one confidence pick per game and, unless the user is eliminated, the
    week's survivor picks.
   */
  method MakePicks(db: Database, now: int, weekId: WeekId, user: User, data: FormData) returns (outcome: PicksOutcome)
    requires db.Valid()
    modifies db`stats, db`confidencePicks, db`survivorPicks
    ensures weekId !in old(db.weeks) <==> outcome == WeekNotFound
    ensures weekId in old(db.weeks) ==> (now > old(db.weeks)[weekId].picksDeadline <==> outcome == DeadlinePassed)
    ensures outcome == WeekNotFound || outcome == DeadlinePassed ==> db.stats == old(db.stats)
    ensures outcome != WeekNotFound && outcome != DeadlinePassed ==>
      var key := StatsKey(user, old(db.weeks)[weekId].season);
      db.stats == old(db.stats)[key := RowOrNew(old(db.stats), key)]
    ensures outcome == MustPickTeamNotFound <==>
      weekId in old(db.weeks) && now <= old(db.weeks)[weekId].picksDeadline &&
      FindTeam(old(db.teams), MustPickAbbreviation).None?
    ensures outcome == Saved <==>
      weekId in old(db.weeks) && now <= old(db.weeks)[weekId].picksDeadline &&
      FindTeam(old(db.teams), MustPickAbbreviation).Some? &&
      Accepts(WeekGames(old(db.games), weekId), old(db.weeks)[weekId], user, old(db.teams), old(db.survivorPicks), old(db.weeks),
              FindTeam(old(db.teams), MustPickAbbreviation).value,
              RowOrNew(old(db.stats), StatsKey(user, old(db.weeks)[weekId].season)).isEliminatedSurvivor, data)
    ensures outcome != Saved ==>
      db.confidencePicks == old(db.confidencePicks) && db.survivorPicks == old(db.survivorPicks)
    ensures outcome == Saved ==>
      var week := old(db.weeks)[weekId];
      var eliminated := RowOrNew(old(db.stats), StatsKey(user, week.season)).isEliminatedSurvivor;
      HasGameValues(WeekGames(old(db.games), weekId), data) &&
      (!eliminated ==> HasSlotValues(SurvivorPicksRequired(week), data)) &&
      db.confidencePicks == ConfidenceAfterSave(old(db.confidencePicks), user, old(db.games), weekId, data) &&
      db.survivorPicks == SurvivorAfterSave(old(db.survivorPicks), user, week, eliminated, data)
  {
    if weekId !in db.weeks {
      return WeekNotFound;
    }
    var week := db.weeks[weekId];
    if now > week.picksDeadline {
      return DeadlinePassed;
    }
    var key := StatsKey(user, week.season);
    db.GetOrCreateStats(key);
    var userStats := db.stats[key];
    var mustPick := FindTeam(db.teams, MustPickAbbreviation);
    if mustPick.None? {
      return MustPickTeamNotFound;
    }
    var saved := SubmitPicks(db, user, week, mustPick.value, userStats.isEliminatedSurvivor, data);
    outcome := if saved then Saved else Rejected;
  }

  // Properties of a saved submission

  /** The number of picks in `picks` by `user` on game `gid`. */
  function PicksOnGame(picks: seq<ConfidencePick>, user: User, gid: GameId): nat
  {
    if picks == [] then 0
    else (if picks[0].user == user && picks[0].game == gid then 1 else 0) + PicksOnGame(picks[1..], user, gid)
  }

  lemma {:induction false} PicksOnGameAppend(a: seq<ConfidencePick>, b: seq<ConfidencePick>, user: User, gid: GameId)
    ensures PicksOnGame(a + b, user, gid) == PicksOnGame(a, user, gid) + PicksOnGame(b, user, gid)
    decreases |a|
  {
    if a != [] {
      assert (a + b)[0] == a[0] && (a + b)[1..] == a[1..] + b;
      PicksOnGameAppend(a[1..], b, user, gid);
    } else {
      assert a + b == b;
    }
  }

  /** No kept pick is the user's on a game of the week. */
  lemma {:induction false} KeptHasNoneOnWeek(picks: seq<ConfidencePick>, user: User, games: seq<Game>, g: Game)
    requires g in games
    ensures PicksOnGame(KeptConfidence(picks, user, games, g.week), user, g.id) == 0
    decreases |picks|
  {
    if picks != [] {
      KeptHasNoneOnWeek(picks[1..], user, games, g);
      var rest := KeptConfidence(picks[1..], user, games, g.week);
      if ReplacedConfidence(picks[0], user, games, g.week) {
        assert KeptConfidence(picks, user, games, g.week) == rest;
      } else {
        assert KeptConfidence(picks, user, games, g.week) == [picks[0]] + rest;
        assert KeptConfidence(picks, user, games, g.week)[1..] == rest;
      }
    }
  }

  /** Some game of `games` has id `gid`. */
  predicate HasGameId(games: seq<Game>, gid: GameId)
  {
    exists g :: g in games && g.id == gid
  }

  /** The new picks hold exactly one pick on each game of the week (the ids being distinct), none on others. */
  lemma {:induction false} NewPicksOnePerGame(user: User, games: seq<Game>, data: FormData, gid: GameId)
    requires HasGameValues(games, data) && DistinctGameIds(games)
    ensures PicksOnGame(NewConfidencePicks(user, games, data), user, gid) == if HasGameId(games, gid) then 1 else 0
    decreases |games|
  {
    if games != [] {
      var prefix, last := games[..|games| - 1], games[|games| - 1];
      assert forall h :: h in prefix ==> h in games;
      assert DistinctGameIds(prefix);
      NewPicksOnePerGame(user, prefix, data, gid);
      var pick := ConfidencePick(user, last.id, data[GameTeam(last.id)], data[GameConfidence(last.id)]);
      PicksOnGameAppend(NewConfidencePicks(user, prefix, data), [pick], user, gid);
      assert PicksOnGame([pick], user, gid) == if last.id == gid then 1 else 0 by {
        assert [pick][1..] == [];
      }
      assert games == prefix + [last];
      if HasGameId(games, gid) && !HasGameId(prefix, gid) {
        var h :| h in games && h.id == gid;
        assert h == last;
      }
    }
  }

  /**
    After a save the user has exactly one confidence pick on each game of
    the week, and every other user's picks and the user's picks of other
    weeks are as they were.
   */
  lemma SavedConfidencePicks(picks: seq<ConfidencePick>, user: User, allGames: seq<Game>, w: WeekId, data: FormData)
    requires DistinctGameIds(allGames)
    requires HasGameValues(WeekGames(allGames, w), data)
    ensures forall g :: g in allGames && g.week == w ==>
      PicksOnGame(ConfidenceAfterSave(picks, user, allGames, w, data), user, g.id) == 1
    ensures forall p :: p in picks && !ReplacedConfidence(p, user, allGames, w) ==>
      p in ConfidenceAfterSave(picks, user, allGames, w, data)
    ensures forall p :: p in ConfidenceAfterSave(picks, user, allGames, w, data) && p.user != user ==> p in picks
  {
    var games := WeekGames(allGames, w);
    WeekGamesDistinct(allGames, w);
    var kept := KeptConfidence(picks, user, allGames, w);
    var created := NewConfidencePicks(user, games, data);
    forall g | g in allGames && g.week == w
      ensures PicksOnGame(kept + created, user, g.id) == 1
    {
      PicksOnGameAppend(kept, created, user, g.id);
      KeptHasNoneOnWeek(picks, user, allGames, g);
      assert g in games;
      NewPicksOnePerGame(user, games, data, g.id);
    }
    NewPicksAreUsers(user, games, data);
  }

  /** Every new pick is the submitting user's. */
  lemma {:induction false} NewPicksAreUsers(user: User, games: seq<Game>, data: FormData)
    requires HasGameValues(games, data)
    ensures forall p :: p in NewConfidencePicks(user, games, data) ==> p.user == user
    decreases |games|
  {
    if games != [] {
      assert forall h :: h in games[..|games| - 1] ==> h in games;
      NewPicksAreUsers(user, games[..|games| - 1], data);
    }
  }

  /** The confidences of the new picks are the submitted ones, game by game. */
  lemma {:induction false} NewPicksConfidences(user: User, games: seq<Game>, data: FormData)
    requires HasGameValues(games, data)
    ensures |NewConfidencePicks(user, games, data)| == |games|
    ensures forall i :: 0 <= i < |games| ==>
      NewConfidencePicks(user, games, data)[i] ==
        ConfidencePick(user, games[i].id, data[GameTeam(games[i].id)], data[GameConfidence(games[i].id)])
    decreases |games|
  {
    if games != [] {
      var prefix := games[..|games| - 1];
      assert forall h :: h in prefix ==> h in games;
      NewPicksConfidences(user, prefix, data);
      assert games[|games| - 1] in games;
    }
  }

  /** The confidences of a sequence of picks, in order. */
  function PointsOf(picks: seq<ConfidencePick>): (points: seq<int>)
    ensures |points| == |picks|
    ensures forall i :: 0 <= i < |picks| ==> points[i] == picks[i].confidencePoints
  {
    seq(|picks|, i requires 0 <= i < |picks| => picks[i].confidencePoints)
  }

  /** A valid confidence form holds a value for every game. */
  lemma ValidFormHasValues(games: seq<Game>, data: FormData, mustPick: Option<Team>)
    requires DistinctGameIds(games)
    requires WeekPicksValid(games, GameFields(games, |games|), data, mustPick)
    ensures HasGameFields(games, GameFields(games, |games|))
    ensures HasGameValues(games, data)
  {
    var fields := GameFields(games, |games|);
    GameFieldsPrefix(games, |games|, |games|);
    assert games[..|games|] == games;
    forall g | g in games
      ensures GameTeam(g.id) in data && 0 <= data[GameTeam(g.id)] && GameConfidence(g.id) in data
    {
      assert FieldAccepts(fields[GameTeam(g.id)], data[GameTeam(g.id)]);
      assert FieldAccepts(fields[GameConfidence(g.id)], data[GameConfidence(g.id)]);
    }
  }

  /**
    The picks a valid confidence form creates give the week's N games the
    confidences 1..N, each exactly once.
   */
  lemma SavedWeightsArePermutation(user: User, games: seq<Game>, data: FormData, mustPick: Option<Team>)
    requires DistinctGameIds(games)
    requires WeekPicksValid(games, GameFields(games, |games|), data, mustPick)
    ensures HasGameValues(games, data)
    ensures Distinct(PointsOf(NewConfidencePicks(user, games, data)))
    ensures SetOf(PointsOf(NewConfidencePicks(user, games, data))) == UpTo(|games|)
  {
    ValidFormHasValues(games, data, mustPick);
    AcceptedWeightsArePermutation(games, GameFields(games, |games|), data, mustPick);
    NewPicksConfidences(user, games, data);
    assert PointsOf(NewConfidencePicks(user, games, data)) == Confidences(games, data);
  }

  /** The picks a valid confidence form creates are on the week's games, in order, each naming a team playing it. */
  lemma SavedPicksNameTeams(user: User, games: seq<Game>, data: FormData, mustPick: Option<Team>)
    requires DistinctGameIds(games)
    requires WeekPicksValid(games, GameFields(games, |games|), data, mustPick)
    ensures HasGameValues(games, data)
    ensures |NewConfidencePicks(user, games, data)| == |games|
    ensures forall i :: 0 <= i < |games| ==>
      NewConfidencePicks(user, games, data)[i].user == user &&
      NewConfidencePicks(user, games, data)[i].game == games[i].id &&
      Plays(games[i], NewConfidencePicks(user, games, data)[i].pickedTeam)
  {
    ValidFormHasValues(games, data, mustPick);
    AcceptedPicksNameTeams(games, GameFields(games, |games|), data, mustPick);
    NewPicksConfidences(user, games, data);
    forall i | 0 <= i < |games|
      ensures Plays(games[i], NewConfidencePicks(user, games, data)[i].pickedTeam)
    {
      assert games[i] in games;
    }
  }

  /** The survivor picks created from slots 1..n, slot by slot. */
  lemma {:induction false} NewSurvivorPicksAt(user: User, w: WeekId, data: FormData, n: nat)
    requires HasSlotValues(n, data)
    ensures |NewSurvivorPicks(user, w, data, n)| == n
    ensures forall i :: 1 <= i <= n ==> NewSurvivorPicks(user, w, data, n)[i - 1] == SurvivorPick(user, w, data[SurvivorSlot(i)], None)
  {
    if n > 0 {
      NewSurvivorPicksAt(user, w, data, n - 1);
    }
  }

  /** A valid survivor form holds, in each of the week's slots, a team the user has not used this season. */
  lemma ValidSurvivorSlots(week: Week, user: User, teams: seq<Team>, picks: seq<SurvivorPick>, weeks: map<WeekId, Week>, data: FormData)
    requires SurvivorValid(week, SurvivorFormFields(week, user, teams, picks, weeks), data)
    ensures HasSlotValues(SurvivorPicksRequired(week), data)
    ensures forall i :: 1 <= i <= SurvivorPicksRequired(week) ==>
      data[SurvivorSlot(i)] in AvailableTeams(teams, UsedTeams(picks, weeks, user, week.season))
    ensures forall i, j :: 1 <= i < j <= SurvivorPicksRequired(week) ==> data[SurvivorSlot(i)] != data[SurvivorSlot(j)]
  {
    var available := AvailableTeams(teams, UsedTeams(picks, weeks, user, week.season));
    SlotFieldsShape(SurvivorPicksRequired(week), available);
    AcceptedSurvivorPicks(week, available, SurvivorFormFields(week, user, teams, picks, weeks), data);
  }

  /**
    A valid survivor form creates the week's required number of undecided
    survivor picks for the user, all different teams, none of them a team
    the user picked in any week of the season before the save.
   */
  lemma SavedSurvivorPicks(week: Week, user: User, teams: seq<Team>, picks: seq<SurvivorPick>, weeks: map<WeekId, Week>, data: FormData)
    requires SurvivorValid(week, SurvivorFormFields(week, user, teams, picks, weeks), data)
    ensures HasSlotValues(SurvivorPicksRequired(week), data)
    ensures |NewSurvivorPicks(user, week.id, data, SurvivorPicksRequired(week))| == SurvivorPicksRequired(week)
    ensures forall p :: p in NewSurvivorPicks(user, week.id, data, SurvivorPicksRequired(week)) ==>
      p.user == user && p.week == week.id && p.isCorrect.None? &&
      p.pickedTeam in AvailableTeams(teams, UsedTeams(picks, weeks, user, week.season))
    ensures forall i, j :: 0 <= i < j < SurvivorPicksRequired(week) ==>
      NewSurvivorPicks(user, week.id, data, SurvivorPicksRequired(week))[i].pickedTeam !=
      NewSurvivorPicks(user, week.id, data, SurvivorPicksRequired(week))[j].pickedTeam
  {
    var n := SurvivorPicksRequired(week);
    ValidSurvivorSlots(week, user, teams, picks, weeks, data);
    NewSurvivorPicksAt(user, week.id, data, n);
    var created := NewSurvivorPicks(user, week.id, data, n);
    forall p | p in created
      ensures p.user == user && p.week == week.id && p.isCorrect.None? &&
              p.pickedTeam in AvailableTeams(teams, UsedTeams(picks, weeks, user, week.season))
    {
      var k :| 0 <= k < |created| && created[k] == p;
      assert created[(k + 1) - 1] == p;
    }
    forall i, j | 0 <= i < j < n
      ensures created[i].pickedTeam != created[j].pickedTeam
    {
      assert created[(i + 1) - 1].pickedTeam == data[SurvivorSlot(i + 1)];
      assert created[(j + 1) - 1].pickedTeam == data[SurvivorSlot(j + 1)];
    }
  }

  /**
    The week's own survivor picks count as used: a user still in the
    survivor game who submits again naming a team already picked for this
    week is rejected, although the save would have deleted that pick.
   */
  lemma ResubmittedSurvivorTeamRejected(games: seq<Game>, week: Week, user: User, teams: seq<Team>, picks: seq<SurvivorPick>,
                                        weeks: map<WeekId, Week>, mustPick: Team, data: FormData, p: SurvivorPick)
    requires week.id in weeks && weeks[week.id] == week
    requires p in picks && p.user == user && p.week == week.id
    requires SurvivorSlot(1) in data && data[SurvivorSlot(1)] == p.pickedTeam
    ensures !Accepts(games, week, user, teams, picks, weeks, mustPick, false, data)
  {
    var available := AvailableTeams(teams, UsedTeams(picks, weeks, user, week.season));
    SlotFieldsShape(SurvivorPicksRequired(week), available);
    UsedTeamRejected(week, user, teams, picks, weeks, SurvivorFormFields(week, user, teams, picks, weeks), data, p, 1);
  }

  /**
    In a week where the must-pick team has no game (a bye), no submission
    is ever accepted.
   */
  lemma ByeWeekNothingAccepted(games: seq<Game>, week: Week, user: User, teams: seq<Team>, picks: seq<SurvivorPick>,
                               weeks: map<WeekId, Week>, mustPick: Team, eliminated: bool, data: FormData)
    requires games != []
    requires forall g :: g in games ==> !Plays(g, mustPick.id)
    ensures !Accepts(games, week, user, teams, picks, weeks, mustPick, eliminated, data)
  {
    ByeWeekRejectsEverything(games, CleanedData(GameFields(games, |games|), data), mustPick);
  }

  // ---------------------------------------------------------------------
  // Standings: leaderboard (pool/views.py:148-174) and home (pool/views.py:10-34)
  // ---------------------------------------------------------------------

  /** A row of the standings: a user and their stats for the season. */
  datatype Standing = Standing(user: User, stats: UserSeasonStats)

  /** `order_by('-playoff_points', '-total_confidence_points')`: `a` sorts strictly before `b`. */
  predicate Above(a: Standing, b: Standing)
  {
    a.stats.playoffPoints > b.stats.playoffPoints ||
    (a.stats.playoffPoints == b.stats.playoffPoints && a.stats.totalConfidencePoints > b.stats.totalConfidencePoints)
  }

  /** No row sorts strictly before an earlier one. */
  predicate Sorted(rows: seq<Standing>)
  {
    forall i, j :: 0 <= i < j < |rows| ==> !Above(rows[j], rows[i])
  }

  /**
    `scan` lists every key of the stats table exactly once: the order in
    which the database reads the table, and so the order it returns rows
    that tie on both sort keys.
   */
  ghost predicate TableScan(stats: map<StatsKey, UserSeasonStats>, scan: seq<StatsKey>)
  {
    (forall k :: k in scan <==> k in stats) &&
    forall i, j :: 0 <= i < j < |scan| ==> scan[i] != scan[j]
  }

  /** `UserSeasonStats.objects.filter(season=season)`: the season's stats rows, in scan order. */
  function SeasonRows(stats: map<StatsKey, UserSeasonStats>, season: SeasonId, scan: seq<StatsKey>): (rows: seq<Standing>)
    ensures forall r :: r in rows ==>
      StatsKey(r.user, season) in scan && StatsKey(r.user, season) in stats && r.stats == stats[StatsKey(r.user, season)]
    ensures forall k :: k in scan && k in stats && k.season == season ==> Standing(k.user, stats[k]) in rows
  {
    if scan == [] then []
    else
      var k := scan[0];
      (if k.season == season && k in stats then [Standing(k.user, stats[k])] else []) + SeasonRows(stats, season, scan[1..])
  }

  /** Over a scan with no repeated key, each row of the season appears once, and nothing else does. */
  lemma {:induction false} SeasonRowsCount(stats: map<StatsKey, UserSeasonStats>, season: SeasonId, scan: seq<StatsKey>,
                                           u: User, s: UserSeasonStats)
    requires forall i, j :: 0 <= i < j < |scan| ==> scan[i] != scan[j]
    ensures multiset(SeasonRows(stats, season, scan))[Standing(u, s)] ==
      if StatsKey(u, season) in scan && StatsKey(u, season) in stats && s == stats[StatsKey(u, season)] then 1 else 0
    decreases |scan|
  {
    if scan != [] {
      var rest := scan[1..];
      assert forall i, j :: 0 <= i < j < |rest| ==> rest[i] != rest[j] by {
        forall i, j | 0 <= i < j < |rest|
          ensures rest[i] != rest[j]
        {
          assert rest[i] == scan[i + 1] && rest[j] == scan[j + 1];
        }
      }
      SeasonRowsCount(stats, season, rest, u, s);
      assert scan == [scan[0]] + rest;
    }
  }

  /**
    Over a scan of the whole table, the season's rows are exactly its
    stats rows, each once: one row per user with a row for the season.
   */
  lemma SeasonRowsExact(stats: map<StatsKey, UserSeasonStats>, season: SeasonId, scan: seq<StatsKey>)
    requires TableScan(stats, scan)
    ensures forall u, s ::
              multiset(SeasonRows(stats, season, scan))[Standing(u, s)] ==
              (if StatsKey(u, season) in stats && s == stats[StatsKey(u, season)] then 1 else 0)
  {
    forall u, s
      ensures multiset(SeasonRows(stats, season, scan))[Standing(u, s)] ==
        (if StatsKey(u, season) in stats && s == stats[StatsKey(u, season)] then 1 else 0)
    {
      SeasonRowsCount(stats, season, scan, u, s);
    }
  }

  /** Places `x` after every row of `sorted` it does not sort before. */
  function Insert(x: Standing, sorted: seq<Standing>): (r: seq<Standing>)
    ensures |r| == |sorted| + 1
  {
    if sorted == [] then [x]
    else if Above(x, sorted[0]) then [x] + sorted
    else [sorted[0]] + Insert(x, sorted[1..])
  }

  /** The rows in standings order; rows that tie keep their table order. */
  function SortStandings(rows: seq<Standing>): (r: seq<Standing>)
    ensures |r| == |rows|
  {
    if rows == [] then [] else Insert(rows[|rows| - 1], SortStandings(rows[..|rows| - 1]))
  }

  lemma {:induction false} InsertKeepsRows(x: Standing, sorted: seq<Standing>)
    ensures multiset(Insert(x, sorted)) == multiset(sorted) + multiset{x}
    decreases |sorted|
  {
    if sorted != [] && !Above(x, sorted[0]) {
      InsertKeepsRows(x, sorted[1..]);
      assert sorted == [sorted[0]] + sorted[1..];
    }
  }

  lemma {:induction false} InsertKeepsSorted(x: Standing, sorted: seq<Standing>)
    requires Sorted(sorted)
    ensures Sorted(Insert(x, sorted))
    decreases |sorted|
  {
    if sorted != [] && !Above(x, sorted[0]) {
      var rest := sorted[1..];
      assert Sorted(rest);
      InsertKeepsSorted(x, rest);
      InsertKeepsRows(x, rest);
      var r := Insert(x, sorted);
      assert r == [sorted[0]] + Insert(x, rest);
      forall j | 1 <= j < |r|
        ensures !Above(r[j], sorted[0])
      {
        assert r[j] in multiset(Insert(x, rest));
        if r[j] != x {
          assert r[j] in multiset(rest);
          var k :| 0 <= k < |rest| && rest[k] == r[j];
          assert sorted[k + 1] == r[j];
        }
      }
    }
  }

  /** Sorting returns the same rows, in standings order. */
  lemma {:induction false} SortStandingsCorrect(rows: seq<Standing>)
    ensures Sorted(SortStandings(rows))
    ensures multiset(SortStandings(rows)) == multiset(rows)
    decreases |rows|
  {
    if rows != [] {
      var prefix := rows[..|rows| - 1];
      SortStandingsCorrect(prefix);
      InsertKeepsSorted(rows[|rows| - 1], SortStandings(prefix));
      InsertKeepsRows(rows[|rows| - 1], SortStandings(prefix));
      assert rows == prefix + [rows[|rows| - 1]];
    }
  }

  /** `Season.objects.filter(is_active=True).first()` under `ordering = ['-year']`: the active season of the latest year. */
  function ActiveSeason(seasons: seq<Season>): (r: Option<Season>)
    ensures r.Some? ==> r.value in seasons && r.value.isActive
    ensures r.Some? ==> forall s :: s in seasons && s.isActive ==> s.year <= r.value.year
    ensures r.None? <==> forall s :: s in seasons ==> !s.isActive
  {
    if seasons == [] then None
    else
      var rest := ActiveSeason(seasons[1..]);
      if !seasons[0].isActive then rest
      else if rest.Some? && rest.value.year > seasons[0].year then rest
      else Some(seasons[0])
  }

  /** The first season in `seasons` with id `id` (`get_object_or_404(Season, id=season_id)`). */
  function FindSeason(seasons: seq<Season>, id: SeasonId): (r: Option<Season>)
    ensures r.Some? ==> r.value in seasons && r.value.id == id
    ensures r.None? <==> forall s :: s in seasons ==> s.id != id
  {
    if seasons == [] then None
    else if seasons[0].id == id then Some(seasons[0])
    else FindSeason(seasons[1..], id)
  }

  datatype LeaderboardPage =
    | SeasonNotFound               // get_object_or_404 on an explicit season id
    | NoActiveSeason               // redirected home with an error
    | Standings(season: Season, rows: seq<Standing>)

  /**
    The leaderboard page: the season named by a (non-zero) id, else the
    active season; then all its stats rows, each once, in standings order.
   */
  function Leaderboard(seasons: seq<Season>, stats: map<StatsKey, UserSeasonStats>, seasonId: Option<SeasonId>, scan: seq<StatsKey>): (page: LeaderboardPage)
    requires TableScan(stats, scan)
    ensures seasonId.Some? && seasonId.value != 0 ==>
      (page == SeasonNotFound <==> FindSeason(seasons, seasonId.value).None?) &&
      (page.Standings? <==> FindSeason(seasons, seasonId.value).Some?) &&
      (page.Standings? ==> page.season == FindSeason(seasons, seasonId.value).value)
    ensures seasonId.None? || seasonId.value == 0 ==>
      (page == NoActiveSeason <==> ActiveSeason(seasons).None?) &&
      (page.Standings? <==> ActiveSeason(seasons).Some?) &&
      (page.Standings? ==> page.season == ActiveSeason(seasons).value)
    ensures page.Standings? ==>
      Sorted(page.rows) &&
      forall u, s :: multiset(page.rows)[Standing(u, s)] ==
        (if StatsKey(u, page.season.id) in stats && s == stats[StatsKey(u, page.season.id)] then 1 else 0)
  {
    var season := if seasonId.Some? && seasonId.value != 0 then FindSeason(seasons, seasonId.value) else ActiveSeason(seasons);
    if season.None? then
      (if seasonId.Some? && seasonId.value != 0 then SeasonNotFound else NoActiveSeason)
    else
      SortStandingsCorrect(SeasonRows(stats, season.value.id, scan));
      SeasonRowsExact(stats, season.value.id, scan);
      Standings(season.value, SortStandings(SeasonRows(stats, season.value.id, scan)))
  }

  /** `[:5]`: the first five rows in standings order, or all of them when there are fewer. */
  function TopFive(rows: seq<Standing>): (top: seq<Standing>)
  {
    var sorted := SortStandings(rows);
    if |sorted| <= 5 then sorted else sorted[..5]
  }

  /**
    The home page's top five are sorted, come from the season's rows, and
    no row left out sorts strictly before any row shown.
   */
  lemma TopFiveAreTheLeaders(rows: seq<Standing>)
    ensures |TopFive(rows)| == if |rows| < 5 then |rows| else 5
    ensures Sorted(TopFive(rows))
    ensures forall r :: r in TopFive(rows) ==> r in rows
    ensures forall i, j :: 0 <= i < |TopFive(rows)| <= j < |rows| ==> !Above(SortStandings(rows)[j], TopFive(rows)[i])
    ensures multiset(TopFive(rows)) <= multiset(rows)
  {
    var sorted := SortStandings(rows);
    SortStandingsCorrect(rows);
    assert |sorted| == |multiset(sorted)| == |rows|;
    var top := TopFive(rows);
    assert sorted == top + sorted[|top|..];
    forall r | r in top
      ensures r in rows
    {
      assert r in multiset(sorted);
    }
  }

  /** A row of the season that is not among the top five sorts strictly before none of them. */
  lemma TopFiveNoneAbove(rows: seq<Standing>, x: Standing, r: Standing)
    requires x in rows && x !in TopFive(rows) && r in TopFive(rows)
    ensures !Above(x, r)
  {
    var sorted := SortStandings(rows);
    var top := TopFive(rows);
    TopFiveAreTheLeaders(rows);
    SortStandingsCorrect(rows);
    assert x in multiset(sorted);
    var j :| 0 <= j < |sorted| && sorted[j] == x;
    var i :| 0 <= i < |top| && top[i] == r;
  }

  /** With fewer than five rows shown, every row is shown. */
  lemma TopFiveAll(rows: seq<Standing>, x: Standing)
    requires x in rows && |TopFive(rows)| < 5
    ensures x in TopFive(rows)
  {
    SortStandingsCorrect(rows);
    assert x in multiset(SortStandings(rows));
  }

  /**
    The top five of a season over a scan of the whole table: sorted, each
    one the stats row of a user for the season; every row of the season is
    shown when fewer than five are; and no row left out sorts strictly
    before a row shown.
   */
  lemma TopFiveOfSeason(stats: map<StatsKey, UserSeasonStats>, season: SeasonId, scan: seq<StatsKey>)
    requires TableScan(stats, scan)
    ensures var top := TopFive(SeasonRows(stats, season, scan));
      Sorted(top) && |top| <= 5 &&
      (forall r :: r in top ==> StatsKey(r.user, season) in stats && r.stats == stats[StatsKey(r.user, season)]) &&
      (|top| < 5 ==> forall k :: k in stats && k.season == season ==> Standing(k.user, stats[k]) in top) &&
      (forall k, r :: k in stats && k.season == season && Standing(k.user, stats[k]) !in top && r in top ==>
         !Above(Standing(k.user, stats[k]), r))
  {
    var rows := SeasonRows(stats, season, scan);
    var top := TopFive(rows);
    TopFiveAreTheLeaders(rows);
    forall k | k in stats && k.season == season
      ensures Standing(k.user, stats[k]) in rows
    {
    }
    forall k | k in stats && k.season == season && |top| < 5
      ensures Standing(k.user, stats[k]) in top
    {
      TopFiveAll(rows, Standing(k.user, stats[k]));
    }
    forall k, r | k in stats && k.season == season && Standing(k.user, stats[k]) !in top && r in top
      ensures !Above(Standing(k.user, stats[k]), r)
    {
      TopFiveNoneAbove(rows, Standing(k.user, stats[k]), r);
    }
  }

  /** The table scan once `get_or_create` has run: a new row goes to the end of the table. */
  function ScanAfterCreate(stats: map<StatsKey, UserSeasonStats>, scan: seq<StatsKey>, key: StatsKey): (r: seq<StatsKey>)
    requires TableScan(stats, scan)
    ensures TableScan(stats[key := RowOrNew(stats, key)], r)
  {
    if key in stats then scan else scan + [key]
  }

  /**
    The home page of a signed-in user: with an active season, the user's
    stats row for it is created if missing, and the first five standings of
    the season are shown; with none, nothing is shown or changed.
   */
  method Home(db: Database, user: User, scan: seq<StatsKey>) returns (top: seq<Standing>)
    requires TableScan(db.stats, scan)
    modifies db`stats
    ensures ActiveSeason(old(db.seasons)).None? ==> top == [] && db.stats == old(db.stats)
    ensures ActiveSeason(old(db.seasons)).Some? ==>
      var key := StatsKey(user, ActiveSeason(old(db.seasons)).value.id);
      db.stats == old(db.stats)[key := RowOrNew(old(db.stats), key)] &&
      TableScan(db.stats, ScanAfterCreate(old(db.stats), scan, key)) &&
      top == TopFive(SeasonRows(db.stats, key.season, ScanAfterCreate(old(db.stats), scan, key)))
    ensures ActiveSeason(old(db.seasons)).Some? ==>
      var season := ActiveSeason(old(db.seasons)).value.id;
      Sorted(top) && |top| <= 5 &&
      (forall r :: r in top ==> StatsKey(r.user, season) in db.stats && r.stats == db.stats[StatsKey(r.user, season)]) &&
      (|top| < 5 ==> forall k :: k in db.stats && k.season == season ==> Standing(k.user, db.stats[k]) in top) &&
      (forall k, r :: k in db.stats && k.season == season && Standing(k.user, db.stats[k]) !in top && r in top ==>
         !Above(Standing(k.user, db.stats[k]), r))
  {
    var season := ActiveSeason(db.seasons);
    if season.None? {
      return [];
    }
    var key := StatsKey(user, season.value.id);
    var tableOrder := ScanAfterCreate(db.stats, scan, key);
    db.GetOrCreateStats(key);
    top := TopFive(SeasonRows(db.stats, season.value.id, tableOrder));
    TopFiveOfSeason(db.stats, season.value.id, tableOrder);
  }
}
