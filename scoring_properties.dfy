/**
  What one run of the weekly scoring pass does to a user's season stats,
  and what a second run over the same week does: the pass keeps no record
  of having run, so it adds the week's confidence and playoff points a
  second time, while survivor picks, already decided, are left alone.
 */
module ScoringProperties {
  import opened Wrappers
  import opened Models
  import opened Ranking
  import opened ScoreGames

  /** The rows saved for the week before ranking, in the pass over `wr`. */
  function SavedResults(wr: map<ResultKey, WeeklyResult>, picks: seq<ConfidencePick>, games: seq<Game>, week: Week): map<ResultKey, WeeklyResult>
  {
    WithWeekPoints(wr, week.id, WeekPoints(picks, FinalGames(games, week.id)))
  }

  /** The playoff points the pass awards `u`: the award for their rank, when they have a row for the week. */
  function AwardFor(saved: map<ResultKey, WeeklyResult>, w: WeekId, u: User): int
  {
    if ResultKey(u, w) in saved then PlayoffPoints(RankOf(saved, w, u)) else 0
  }

  /**
    One pass over a week with final games, seen from a user with a stats
    row for the season: the row gains the user's weekly points, the award
    for their rank, and one strike per lost survivor pick, with elimination
    once the strikes reach three.
   */
  lemma ScoringStatsEffect(st: map<StatsKey, UserSeasonStats>, wr: map<ResultKey, WeeklyResult>, picks: seq<ConfidencePick>,
                           sp: seq<SurvivorPick>, games: seq<Game>, week: Week, u: User)
    requires CanScore(wr, st, picks, games, week)
    requires FinalGames(games, week.id) != []
    requires StatsKey(u, week.season) in st
    ensures var k := StatsKey(u, week.season);
            var finals := FinalGames(games, week.id);
            var after := StatsAfterScoring(st, wr, picks, sp, games, week);
            var losses := Losses(sp, finals, week.id, u);
            k in after &&
            after[k].totalConfidencePoints == st[k].totalConfidencePoints + UserPoints(picks, finals, u) &&
            after[k].playoffPoints == st[k].playoffPoints + AwardFor(SavedResults(wr, picks, games, week), week.id, u) &&
            after[k].survivorStrikes == st[k].survivorStrikes + losses &&
            (after[k].isEliminatedSurvivor <==>
               st[k].isEliminatedSurvivor || (losses > 0 && st[k].survivorStrikes + losses >= 3))
  {
    var k := StatsKey(u, week.season);
    var finals := FinalGames(games, week.id);
    var points := WeekPoints(picks, finals);
    var saved := SavedResults(wr, picks, games, week);
    var awarded := AwardPlayoff(st, saved, week.id, week.season);
    assert k in awarded && awarded[k].totalConfidencePoints == st[k].totalConfidencePoints;
    assert awarded[k].playoffPoints == st[k].playoffPoints + AwardFor(saved, week.id, u);
    var added := AddConfidence(awarded, week.season, points);
    if u !in points {
      NonParticipantScoresZero(picks, finals, u);
    }
    assert k in added && added[k].totalConfidencePoints == awarded[k].totalConfidencePoints + UserPoints(picks, finals, u);
    assert added[k].playoffPoints == awarded[k].playoffPoints;
    assert added[k].survivorStrikes == st[k].survivorStrikes && added[k].isEliminatedSurvivor == st[k].isEliminatedSurvivor;
    SurvivorStrikesCounted(added, sp, finals, week.id, week.season, u);
  }

  /** Scoring never clears an elimination. */
  lemma ScoringKeepsElimination(st: map<StatsKey, UserSeasonStats>, wr: map<ResultKey, WeeklyResult>, picks: seq<ConfidencePick>,
                                sp: seq<SurvivorPick>, games: seq<Game>, week: Week, u: User)
    requires CanScore(wr, st, picks, games, week)
    requires StatsKey(u, week.season) in st && st[StatsKey(u, week.season)].isEliminatedSurvivor
    ensures var after := StatsAfterScoring(st, wr, picks, sp, games, week);
            StatsKey(u, week.season) in after && after[StatsKey(u, week.season)].isEliminatedSurvivor
  {
    if FinalGames(games, week.id) != [] {
      ScoringStatsEffect(st, wr, picks, sp, games, week, u);
    }
  }

  /** Two tables agree on the week's users and their weekly points, so they rank alike. */
  lemma RankOfCongruent(wr1: map<ResultKey, WeeklyResult>, wr2: map<ResultKey, WeeklyResult>, w: WeekId)
    requires WeekUsers(wr1, w) == WeekUsers(wr2, w)
    requires forall u :: PointsIn(wr1, w, u) == PointsIn(wr2, w, u)
    ensures forall u :: RankOf(wr1, w, u) == RankOf(wr2, w, u)
  {
    forall u
      ensures RankOf(wr1, w, u) == RankOf(wr2, w, u)
    {
      assert Ahead(wr1, w, u) == Ahead(wr2, w, u);
    }
  }

  /** The second pass saves rows for the same keys as the first. */
  lemma ResavedKeys(wr: map<ResultKey, WeeklyResult>, w: WeekId, points: map<User, int>)
    ensures var saved := WithWeekPoints(wr, w, points);
            WithWeekPoints(RankWeek(saved, w), w, points).Keys == saved.Keys
  {
    var saved := WithWeekPoints(wr, w, points);
    var ranked := RankWeek(saved, w);
    assert ranked.Keys == saved.Keys;
    assert (set u | u in points :: ResultKey(u, w)) <= saved.Keys;
  }

  /**
    The rows the second pass saves differ from the first pass's only in
    the rank and award already stored in them.
   */
  lemma ResavedRows(wr: map<ResultKey, WeeklyResult>, w: WeekId, points: map<User, int>)
    ensures var saved := WithWeekPoints(wr, w, points);
            var resaved := WithWeekPoints(RankWeek(saved, w), w, points);
            forall k :: k in saved ==> k in resaved && resaved[k] == if k.week == w then RankWeek(saved, w)[k] else saved[k]
  {
    ResavedKeys(wr, w, points);
  }

  /** The second pass's rows give the week the same users with the same points. */
  lemma ResavedPoints(wr: map<ResultKey, WeeklyResult>, w: WeekId, points: map<User, int>)
    ensures var saved := WithWeekPoints(wr, w, points);
            var resaved := WithWeekPoints(RankWeek(saved, w), w, points);
            WeekUsers(resaved, w) == WeekUsers(saved, w) &&
            forall u :: PointsIn(resaved, w, u) == PointsIn(saved, w, u)
  {
    var saved := WithWeekPoints(wr, w, points);
    var resaved := WithWeekPoints(RankWeek(saved, w), w, points);
    ResavedKeys(wr, w, points);
    ResavedRows(wr, w, points);
    assert WeekUsers(resaved, w) == WeekUsers(saved, w);
    forall u
      ensures PointsIn(resaved, w, u) == PointsIn(saved, w, u)
    {
    }
  }

  /** Re-ranking rows that only differ in the stored rank and award, with the same ranks, stores the same table. */
  lemma RerankedAlike(saved: map<ResultKey, WeeklyResult>, resaved: map<ResultKey, WeeklyResult>, w: WeekId)
    requires resaved.Keys == saved.Keys
    requires forall k :: k in saved ==> resaved[k] == if k.week == w then RankWeek(saved, w)[k] else saved[k]
    requires forall u :: RankOf(resaved, w, u) == RankOf(saved, w, u)
    ensures RankWeek(resaved, w) == RankWeek(saved, w)
  {
    forall k | k in saved
      ensures RankWeek(resaved, w)[k] == RankWeek(saved, w)[k]
    {
      assert RankOf(resaved, w, k.user) == RankOf(saved, w, k.user);
    }
  }

  /** So the second pass ranks the week exactly as the first did. */
  lemma ResavedRanksAlike(wr: map<ResultKey, WeeklyResult>, w: WeekId, points: map<User, int>)
    ensures var saved := WithWeekPoints(wr, w, points);
            var resaved := WithWeekPoints(RankWeek(saved, w), w, points);
            (forall u :: RankOf(resaved, w, u) == RankOf(saved, w, u)) &&
            (forall u :: ResultKey(u, w) in resaved <==> ResultKey(u, w) in saved) &&
            RankWeek(resaved, w) == RankWeek(saved, w)
  {
    var saved := WithWeekPoints(wr, w, points);
    var resaved := WithWeekPoints(RankWeek(saved, w), w, points);
    ResavedKeys(wr, w, points);
    ResavedRows(wr, w, points);
    ResavedPoints(wr, w, points);
    RankOfCongruent(resaved, saved, w);
    RerankedAlike(saved, resaved, w);
  }

  /** Scoring a second time finds every survivor pick of the week decided, and leaves the picks alone. */
  lemma {:induction false} RescoredPicksUndecided(sp: seq<SurvivorPick>, finals: seq<Game>, w: WeekId, u: User)
    ensures !Decided(ScoredSurvivorPicks(sp, finals, w), finals, w, u)
    ensures ScoredSurvivorPicks(ScoredSurvivorPicks(sp, finals, w), finals, w) == ScoredSurvivorPicks(sp, finals, w)
  {
    var scored := ScoredSurvivorPicks(sp, finals, w);
    forall i | 0 <= i < |scored|
      ensures SurvivorVerdict(scored[i], finals, w).None?
    {
      assert scored[i] == ScoredPick(sp[i], finals, w);
    }
  }

  /** After a pass, the users the next pass ranks all have stats rows: it may run again. */
  lemma ScoringKeepsCanScore(st: map<StatsKey, UserSeasonStats>, wr: map<ResultKey, WeeklyResult>, picks: seq<ConfidencePick>,
                             sp: seq<SurvivorPick>, games: seq<Game>, week: Week)
    requires CanScore(wr, st, picks, games, week)
    ensures CanScore(ResultsAfterScoring(wr, picks, games, week), StatsAfterScoring(st, wr, picks, sp, games, week), picks, games, week)
  {
    var finals := FinalGames(games, week.id);
    if finals != [] {
      var points := WeekPoints(picks, finals);
      var saved := SavedResults(wr, picks, games, week);
      var wr1 := ResultsAfterScoring(wr, picks, games, week);
      var st1 := StatsAfterScoring(st, wr, picks, sp, games, week);
      assert wr1 == RankWeek(saved, week.id);
      SavedHaveStats(wr, st, week, points);
      forall v | v in WeekUsers(wr1, week.id)
        ensures StatsKey(v, week.season) in st1
      {
        assert ResultKey(v, week.id) in saved;
        ScoringStatsEffect(st, wr, picks, sp, games, week, v);
      }
      forall v | v in Participants(picks, finals)
        ensures StatsKey(v, week.season) in st1
      {
        ScoringStatsEffect(st, wr, picks, sp, games, week, v);
      }
    }
  }

  /**
    As written, running the pass twice over the same week counts the week
    twice: the second run finds the weekly results and survivor picks as
    the first left them, but adds the user's weekly points and playoff
    award to the season totals again. Strikes are not given twice.
   */
  lemma RescoringDoubleCounts(st: map<StatsKey, UserSeasonStats>, wr: map<ResultKey, WeeklyResult>, picks: seq<ConfidencePick>,
                              sp: seq<SurvivorPick>, games: seq<Game>, week: Week, u: User)
    requires CanScore(wr, st, picks, games, week)
    requires FinalGames(games, week.id) != []
    requires StatsKey(u, week.season) in st
    ensures var wr1 := ResultsAfterScoring(wr, picks, games, week);
            var st1 := StatsAfterScoring(st, wr, picks, sp, games, week);
            var sp1 := SurvivorPicksAfterScoring(sp, games, week);
            var st2 := StatsAfterScoring(st1, wr1, picks, sp1, games, week);
            var k := StatsKey(u, week.season);
            var finals := FinalGames(games, week.id);
            CanScore(wr1, st1, picks, games, week) &&
            ResultsAfterScoring(wr1, picks, games, week) == wr1 &&
            k in st1 &&
            SurvivorPicksAfterScoring(sp1, games, week) == sp1 &&
            k in st2 &&
            st2[k].totalConfidencePoints == st[k].totalConfidencePoints + 2 * UserPoints(picks, finals, u) &&
            st2[k].playoffPoints == st[k].playoffPoints + 2 * AwardFor(SavedResults(wr, picks, games, week), week.id, u) &&
            st2[k].survivorStrikes == st1[k].survivorStrikes &&
            st2[k].isEliminatedSurvivor == st1[k].isEliminatedSurvivor
  {
    var w := week.id;
    var finals := FinalGames(games, w);
    var points := WeekPoints(picks, finals);
    var saved := SavedResults(wr, picks, games, week);
    var wr1 := ResultsAfterScoring(wr, picks, games, week);
    var st1 := StatsAfterScoring(st, wr, picks, sp, games, week);
    var sp1 := SurvivorPicksAfterScoring(sp, games, week);
    assert wr1 == RankWeek(saved, w);
    ResavedRanksAlike(wr, w, points);
    assert SavedResults(wr1, picks, games, week) == WithWeekPoints(RankWeek(saved, w), w, points);
    ScoringKeepsCanScore(st, wr, picks, sp, games, week);
    RescoredPicksUndecided(sp, finals, w, u);
    LossesDecided(sp1, finals, w, u);
    ScoringStatsEffect(st, wr, picks, sp, games, week, u);
    ScoringStatsEffect(st1, wr1, picks, sp1, games, week, u);
  }
}
