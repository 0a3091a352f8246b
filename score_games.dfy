/**
  The weekly scoring pass of the `score_games` management command
  (pool/management/commands/score_games.py): confidence points per user,
  one WeeklyResult per user, weekly ranks and playoff points, season
  totals, and survivor picks with their strikes.

  Each step is a method over the tables of a `Database`, proved to leave
  them as a specification function of the tables it started from; the
  lemmas at the end state what those functions mean.
 */
module ScoreGames {
  import opened Wrappers
  import opened Models
  import opened Ranking

  // ---------------------------------------------------------------------
  // Queries over games
  // ---------------------------------------------------------------------

  /** `week.games.filter(is_final=True)`: the week's final games, keeping the table's game-time order. */
  function FinalGames(games: seq<Game>, w: WeekId): (finals: seq<Game>)
    ensures forall g :: g in finals <==> g in games && g.week == w && g.isFinal
    ensures ByGameTime(games) ==> ByGameTime(finals)
  {
    if games == [] then []
    else (if games[0].week == w && games[0].isFinal then [games[0]] else []) + FinalGames(games[1..], w)
  }

  /** The game with id `id` among `gs`, if any. */
  function FindGame(gs: seq<Game>, id: GameId): (r: Option<Game>)
    ensures r.Some? ==> r.value in gs && r.value.id == id
    ensures r.None? <==> forall g :: g in gs ==> g.id != id
  {
    if gs == [] then None
    else if gs[0].id == id then Some(gs[0])
    else FindGame(gs[1..], id)
  }

  /**
    `final_games.filter(Q(home_team=t) | Q(away_team=t)).first()`: the
    earliest of `gs` in which team `t` plays.
   */
  function TeamGame(gs: seq<Game>, t: TeamId): (r: Option<Game>)
    ensures r.Some? ==> exists i :: 0 <= i < |gs| && gs[i] == r.value && Plays(gs[i], t) &&
                                    forall j :: 0 <= j < i ==> !Plays(gs[j], t)
    ensures r.None? <==> forall g :: g in gs ==> !Plays(g, t)
    ensures r.Some? && ByGameTime(gs) ==> forall g :: g in gs && Plays(g, t) ==> r.value.gameTime <= g.gameTime
  {
    if gs == [] then None
    else if Plays(gs[0], t) then Some(gs[0])
    else
      var r := TeamGame(gs[1..], t);
      if r.Some? then
        ghost var i :| 0 <= i < |gs| - 1 && gs[1..][i] == r.value && Plays(gs[1..][i], t) &&
                       forall j :: 0 <= j < i ==> !Plays(gs[1..][j], t);
        assert gs[i + 1] == r.value && forall j :: 0 <= j < i + 1 ==> !Plays(gs[j], t);
        r
      else r
  }

  // ---------------------------------------------------------------------
  // Confidence points (score_games.py:45-64)
  // ---------------------------------------------------------------------

  /** The pick is on one of the week's final games (`game__in=final_games`). */
  predicate OnFinalGame(p: ConfidencePick, finals: seq<Game>)
  {
    FindGame(finals, p.game).Some?
  }

  /** What one pick adds to its owner's week: its weight when it is on a final game and correct. */
  function PickPoints(p: ConfidencePick, finals: seq<Game>): int
  {
    match FindGame(finals, p.game)
    case None => 0
    case Some(g) => if IsCorrect(g, p.pickedTeam) == Some(true) then p.confidencePoints else 0
  }

  /** The sum of the weights of `u`'s correct picks on final games. */
  function UserPoints(picks: seq<ConfidencePick>, finals: seq<Game>, u: User): int
    decreases |picks|
  {
    if picks == [] then 0
    else
      var p := picks[|picks| - 1];
      UserPoints(picks[..|picks| - 1], finals, u) + (if p.user == u then PickPoints(p, finals) else 0)
  }

  /** The users with at least one pick on a final game of the week. */
  function Participants(picks: seq<ConfidencePick>, finals: seq<Game>): set<User>
  {
    set p | p in picks && OnFinalGame(p, finals) :: p.user
  }

  /** The `points_by_user` dictionary the pass builds. */
  function WeekPoints(picks: seq<ConfidencePick>, finals: seq<Game>): map<User, int>
  {
    map u | u in Participants(picks, finals) :: UserPoints(picks, finals, u)
  }

  /** A user with no pick on a final game scores nothing. */
  lemma {:induction false} NonParticipantScoresZero(picks: seq<ConfidencePick>, finals: seq<Game>, u: User)
    requires u !in Participants(picks, finals)
    ensures UserPoints(picks, finals, u) == 0
    decreases |picks|
  {
    if picks != [] {
      var prefix := picks[..|picks| - 1];
      assert Participants(prefix, finals) <= Participants(picks, finals) by {
        forall v | v in Participants(prefix, finals)
          ensures v in Participants(picks, finals)
        {
          var p :| p in prefix && OnFinalGame(p, finals) && p.user == v;
          assert p in picks;
        }
      }
      NonParticipantScoresZero(prefix, finals, u);
      assert picks[|picks| - 1] in picks;
    }
  }

  lemma ParticipantsSnoc(picks: seq<ConfidencePick>, p: ConfidencePick, finals: seq<Game>)
    ensures Participants(picks + [p], finals) ==
            Participants(picks, finals) + (if OnFinalGame(p, finals) then {p.user} else {})
  {
    var both := picks + [p];
    forall v | v in Participants(both, finals)
      ensures v in Participants(picks, finals) || (OnFinalGame(p, finals) && v == p.user)
    {
      var q :| q in both && OnFinalGame(q, finals) && q.user == v;
      if q != p {
        assert q in picks;
      }
    }
    forall v | v in Participants(picks, finals)
      ensures v in Participants(both, finals)
    {
      var q :| q in picks && OnFinalGame(q, finals) && q.user == v;
      assert q in both;
    }
    assert p in both;
  }

  lemma UserPointsSnoc(picks: seq<ConfidencePick>, p: ConfidencePick, finals: seq<Game>)
    ensures forall u :: UserPoints(picks + [p], finals, u) ==
                        UserPoints(picks, finals, u) + (if p.user == u then PickPoints(p, finals) else 0)
  {
    assert (picks + [p])[..|picks|] == picks;
  }

  /**
    The loop over `confidence_picks` (score_games.py:50-57): a user enters
    the dictionary at 0 with their first pick on a final game and gains the
    weight of each correct one.
   */
  method TallyConfidence(picks: seq<ConfidencePick>, finals: seq<Game>) returns (points: map<User, int>)
    ensures points.Keys == Participants(picks, finals)
    ensures forall u :: u in points ==> points[u] == UserPoints(picks, finals, u)
    ensures points == WeekPoints(picks, finals)
  {
    points := map[];
    for i := 0 to |picks|
      invariant points.Keys == Participants(picks[..i], finals)
      invariant forall u :: u in points ==> points[u] == UserPoints(picks[..i], finals, u)
    {
      var pick := picks[i];
      assert picks[..i + 1] == picks[..i] + [pick];
      ParticipantsSnoc(picks[..i], pick, finals);
      UserPointsSnoc(picks[..i], pick, finals);
      match FindGame(finals, pick.game) {
        case None =>
        case Some(g) =>
          if pick.user !in points {
            NonParticipantScoresZero(picks[..i], finals, pick.user);
            points := points[pick.user := 0];
          }
          if IsCorrect(g, pick.pickedTeam) == Some(true) {
            points := points[pick.user := points[pick.user] + pick.confidencePoints];
          }
      }
    }
    assert picks[..|picks|] == picks;
    assert points.Keys == WeekPoints(picks, finals).Keys;
  }

  // ---------------------------------------------------------------------
  // Weekly results (score_games.py:66-75)
  // ---------------------------------------------------------------------

  /**
    The WeeklyResult table after `get_or_create` for every user of `points`:
    a new row holds the user's points, an existing row has its points
    overwritten and keeps its rank and playoff points.
   */
  function WithWeekPoints(wr: map<ResultKey, WeeklyResult>, w: WeekId, points: map<User, int>): map<ResultKey, WeeklyResult>
  {
    map k | k in wr.Keys + (set u | u in points :: ResultKey(u, w)) ::
      if k.week == w && k.user in points then
        (if k in wr then wr[k].(confidencePoints := points[k.user]) else WeeklyResult(points[k.user], None, 0))
      else wr[k]
  }

  /** The entries of `points` for the users of `users`. */
  function Restrict(points: map<User, int>, users: set<User>): map<User, int>
  {
    map u | u in points && u in users :: points[u]
  }

  /** The row `get_or_create` leaves for a user with `p` points: the existing row with its points overwritten, or a new one. */
  function SavedRow(wr: map<ResultKey, WeeklyResult>, k: ResultKey, p: int): WeeklyResult
  {
    if k in wr then wr[k].(confidencePoints := p) else WeeklyResult(p, None, 0)
  }

  /** Saving one more user's points updates or creates that user's row and no other. */
  lemma WithWeekPointsStep(wr: map<ResultKey, WeeklyResult>, w: WeekId, points: map<User, int>, done: set<User>, u: User)
    requires u in points && u !in done
    ensures var cur := WithWeekPoints(wr, w, Restrict(points, done));
            WithWeekPoints(wr, w, Restrict(points, done + {u})) == cur[ResultKey(u, w) := SavedRow(cur, ResultKey(u, w), points[u])]
  {
    var before := Restrict(points, done);
    var after := Restrict(points, done + {u});
    assert after == before[u := points[u]];
    assert (set v | v in after :: ResultKey(v, w)) == (set v | v in before :: ResultKey(v, w)) + {ResultKey(u, w)};
    var key := ResultKey(u, w);
    var cur := WithWeekPoints(wr, w, before);
    assert key in cur <==> key in wr;
    assert key in wr ==> cur[key] == wr[key];
  }

  /** The `get_or_create` loop over `points_by_user` (score_games.py:67-75). */
  method SaveWeeklyResults(db: Database, w: WeekId, points: map<User, int>)
    modifies db`weeklyResults
    ensures db.weeklyResults == WithWeekPoints(old(db.weeklyResults), w, points)
  {
    ghost var wr0 := db.weeklyResults;
    var todo := points.Keys;
    ghost var done: set<User> := {};
    assert Restrict(points, done) == map[];
    assert WithWeekPoints(wr0, w, map[]) == wr0;
    while todo != {}
      invariant todo !! done && todo + done == points.Keys
      invariant db.weeklyResults == WithWeekPoints(wr0, w, Restrict(points, done))
      decreases |todo|
    {
      var u :| u in todo;
      var key := ResultKey(u, w);
      WithWeekPointsStep(wr0, w, points, done, u);
      if key in db.weeklyResults {
        db.weeklyResults := db.weeklyResults[key := db.weeklyResults[key].(confidencePoints := points[u])];
      } else {
        db.weeklyResults := db.weeklyResults[key := WeeklyResult(points[u], None, 0)];
      }
      todo := todo - {u};
      done := done + {u};
    }
    assert Restrict(points, done) == points;
  }

  // ---------------------------------------------------------------------
  // Weekly ranks and playoff points (score_games.py:100-130)
  // ---------------------------------------------------------------------

  /** The PLAYOFF_POINTS table: the award for ranks 1 to 16. */
  const PlayoffTable: seq<nat> := [20, 15, 14, 13, 12, 11, 10, 9, 8, 7, 6, 5, 4, 3, 2, 1]

  /**
    `PLAYOFF_POINTS.get(rank, 0)`: 20 for the winner of the week, then
    17 - rank down to 1 point at rank 16, and nothing from rank 17 on.
   */
  function PlayoffPoints(rank: int): (r: nat)
    ensures rank == 1 ==> r == 20
    ensures 2 <= rank <= 16 ==> r == 17 - rank
    ensures rank < 1 || rank > 16 ==> r == 0
  {
    if 1 <= rank <= |PlayoffTable| then PlayoffTable[rank - 1] else 0
  }

  /** The rank of each user of week `w`. */
  function WeekRanks(wr: map<ResultKey, WeeklyResult>, w: WeekId): (ranks: map<User, int>)
    ensures ranks.Keys == WeekUsers(wr, w)
  {
    map u | u in WeekUsers(wr, w) :: RankOf(wr, w, u)
  }

  /** The WeeklyResult table with the rows of week `w` of the users of `ranks` given their rank and its award. */
  function RankRows(wr: map<ResultKey, WeeklyResult>, w: WeekId, ranks: map<User, int>): map<ResultKey, WeeklyResult>
  {
    map k | k in wr ::
      if k.week == w && k.user in ranks then wr[k].(weeklyRank := Some(ranks[k.user]), playoffPoints := PlayoffPoints(ranks[k.user]))
      else wr[k]
  }

  /** The WeeklyResult table after every row of week `w` is ranked. */
  function RankWeek(wr: map<ResultKey, WeeklyResult>, w: WeekId): map<ResultKey, WeeklyResult>
  {
    RankRows(wr, w, WeekRanks(wr, w))
  }

  /** The stats row of a ranked user, with the award of rank `rank` added. */
  function Awarded(s: UserSeasonStats, rank: int): UserSeasonStats
  {
    s.(playoffPoints := s.playoffPoints + PlayoffPoints(rank))
  }

  /** The season stats with the award for its rank added for each user of `ranks`. */
  function AwardRows(st: map<StatsKey, UserSeasonStats>, season: SeasonId, ranks: map<User, int>): map<StatsKey, UserSeasonStats>
  {
    map k | k in st :: if k.season == season && k.user in ranks then Awarded(st[k], ranks[k.user]) else st[k]
  }

  /** The season stats after each ranked user of week `w` receives the award for their rank. */
  function AwardPlayoff(st: map<StatsKey, UserSeasonStats>, wr: map<ResultKey, WeeklyResult>, w: WeekId, season: SeasonId): map<StatsKey, UserSeasonStats>
  {
    AwardRows(st, season, WeekRanks(wr, w))
  }

  /** Each ranked user of the week has a stats row (`UserSeasonStats.objects.get` finds it). */
  predicate RankedHaveStats(wr: map<ResultKey, WeeklyResult>, st: map<StatsKey, UserSeasonStats>, week: Week)
  {
    forall u :: u in WeekUsers(wr, week.id) ==> StatsKey(u, week.season) in st
  }

  /** Every user of `done` is listed before every user of `remaining`. */
  predicate RankedAhead(wr: map<ResultKey, WeeklyResult>, w: WeekId, done: set<User>, remaining: set<User>)
  {
    forall d, r :: d in done && r in remaining ==> Precedes(wr, w, d, r)
  }

  /**
    The user listed first among `remaining`, once every user of `done`
    has been ranked, gets rank |done| + 1, and moving it to `done` keeps
    the ranked users ahead of the others.
   */
  lemma RankOfNext(wr: map<ResultKey, WeeklyResult>, w: WeekId, done: set<User>, remaining: set<User>, u: User)
    requires done + remaining == WeekUsers(wr, w) && done !! remaining
    requires RankedAhead(wr, w, done, remaining)
    requires IsFirst(wr, w, u, remaining)
    ensures RankOf(wr, w, u) == |done| + 1
    ensures RankedAhead(wr, w, done + {u}, remaining - {u})
  {
    forall v | v in Ahead(wr, w, u)
      ensures v in done
    {
      if v in remaining {
        if v == u {
          RanksBeforeIrreflexive(u, PointsIn(wr, w, u));
        } else {
          RanksBeforeAsymmetric(u, PointsIn(wr, w, u), v, PointsIn(wr, w, v));
        }
      }
    }
    assert Ahead(wr, w, u) == done;
  }

  lemma RankRowsStep(wr: map<ResultKey, WeeklyResult>, w: WeekId, ranks: map<User, int>, u: User, rank: int)
    requires ResultKey(u, w) in wr && u !in ranks
    ensures RankRows(wr, w, ranks)[ResultKey(u, w)] == wr[ResultKey(u, w)]
    ensures RankRows(wr, w, ranks[u := rank]) ==
            RankRows(wr, w, ranks)[ResultKey(u, w) := wr[ResultKey(u, w)].(weeklyRank := Some(rank), playoffPoints := PlayoffPoints(rank))]
  {
  }

  lemma AwardRowsStep(st: map<StatsKey, UserSeasonStats>, season: SeasonId, ranks: map<User, int>, u: User, rank: int)
    requires StatsKey(u, season) in st && u !in ranks
    ensures AwardRows(st, season, ranks)[StatsKey(u, season)] == st[StatsKey(u, season)]
    ensures AwardRows(st, season, ranks[u := rank]) ==
            AwardRows(st, season, ranks)[StatsKey(u, season) := Awarded(st[StatsKey(u, season)], rank)]
  {
  }

  /** The body of the ranking loop: `result.save()` with the rank and award, then `stats.save()` with the award added. */
  method RecordRank(db: Database, key: ResultKey, statsKey: StatsKey, rank: int)
    requires key in db.weeklyResults && statsKey in db.stats
    modifies db`weeklyResults, db`stats
    ensures db.weeklyResults == old(db.weeklyResults)[key := old(db.weeklyResults)[key].(weeklyRank := Some(rank), playoffPoints := PlayoffPoints(rank))]
    ensures db.stats == old(db.stats)[statsKey := Awarded(old(db.stats)[statsKey], rank)]
  {
    var result := db.weeklyResults[key];
    db.weeklyResults := db.weeklyResults[key := result.(weeklyRank := Some(rank), playoffPoints := PlayoffPoints(rank))];
    var row := db.stats[statsKey];
    db.stats := db.stats[statsKey := row.(playoffPoints := row.playoffPoints + PlayoffPoints(rank))];
  }

  /** `order` lists users in ranking order for week `w`. */
  predicate InRankingOrder(wr: map<ResultKey, WeeklyResult>, w: WeekId, order: seq<User>)
  {
    forall i, j :: 0 <= i < j < |order| ==> Precedes(wr, w, order[i], order[j])
  }

  /** Each user of `order` sits at the position its rank names. */
  predicate AtRankPositions(wr: map<ResultKey, WeeklyResult>, w: WeekId, order: seq<User>)
  {
    forall i :: 0 <= i < |order| ==> RankOf(wr, w, order[i]) == i + 1
  }

  /** No user appears twice in `order`. */
  predicate NoDuplicates(order: seq<User>)
  {
    forall i, j :: 0 <= i < j < |order| ==> order[i] != order[j]
  }

  lemma PositionsSnoc(wr: map<ResultKey, WeeklyResult>, w: WeekId, order: seq<User>, u: User)
    requires AtRankPositions(wr, w, order)
    requires RankOf(wr, w, u) == |order| + 1
    ensures AtRankPositions(wr, w, order + [u])
  {
    var next := order + [u];
    forall i | 0 <= i < |next|
      ensures RankOf(wr, w, next[i]) == i + 1
    {
      if i < |order| {
        assert next[i] == order[i];
      }
    }
  }

  lemma PositionsDistinct(wr: map<ResultKey, WeeklyResult>, w: WeekId, order: seq<User>)
    requires AtRankPositions(wr, w, order)
    ensures NoDuplicates(order)
  {
    forall i, j | 0 <= i < j < |order|
      ensures order[i] != order[j]
    {
      assert RankOf(wr, w, order[i]) == i + 1 && RankOf(wr, w, order[j]) == j + 1;
    }
  }

  /** Users at their rank positions are listed in ranking order. */
  lemma PositionsSorted(wr: map<ResultKey, WeeklyResult>, w: WeekId, order: seq<User>)
    requires forall u :: u in order ==> u in WeekUsers(wr, w)
    requires AtRankPositions(wr, w, order)
    ensures InRankingOrder(wr, w, order)
  {
    forall i, j | 0 <= i < j < |order|
      ensures Precedes(wr, w, order[i], order[j])
    {
      var a, b := order[i], order[j];
      assert a in order && b in order;
      PositionsDistinct(wr, w, order);
      RanksBeforeTotal(a, PointsIn(wr, w, a), b, PointsIn(wr, w, b));
      if !Precedes(wr, w, a, b) {
        RankRespectsOrder(wr, w, b, a);
      }
    }
  }

  /** The first `n` users of `order` with their positions as ranks. */
  function PrefixRanks(order: seq<User>, n: nat): (ranks: map<User, int>)
    requires NoDuplicates(order) && n <= |order|
  {
    map j | 0 <= j < n :: order[j] := j + 1
  }

  lemma PrefixRanksStep(order: seq<User>, n: nat)
    requires NoDuplicates(order) && n < |order|
    ensures order[n] !in PrefixRanks(order, n)
    ensures PrefixRanks(order, n + 1) == PrefixRanks(order, n)[order[n] := n + 1]
  {
  }

  lemma PrefixRanksAt(order: seq<User>, n: nat, j: int)
    requires NoDuplicates(order) && 0 <= j < n <= |order|
    ensures order[j] in PrefixRanks(order, n) && PrefixRanks(order, n)[order[j]] == j + 1
  {
  }

  /** A whole ranking order gives every user of the week its rank. */
  lemma PrefixRanksComplete(wr: map<ResultKey, WeeklyResult>, w: WeekId, order: seq<User>)
    requires forall u :: u in order <==> u in WeekUsers(wr, w)
    requires AtRankPositions(wr, w, order) && NoDuplicates(order)
    ensures PrefixRanks(order, |order|) == WeekRanks(wr, w)
  {
    var ranks := PrefixRanks(order, |order|);
    var expected := WeekRanks(wr, w);
    forall u | u in expected
      ensures u in ranks && ranks[u] == expected[u]
    {
      var j :| 0 <= j < |order| && order[j] == u;
      PrefixRanksAt(order, |order|, j);
    }
    assert ranks.Keys <= expected.Keys;
    assert ranks.Keys == expected.Keys;
  }

  /** Appending the first of the remaining users keeps the ordering loop's invariants. */
  lemma OrderStep(wr: map<ResultKey, WeeklyResult>, w: WeekId, order: seq<User>, done: set<User>, remaining: set<User>, u: User)
    requires done + remaining == WeekUsers(wr, w) && done !! remaining
    requires forall x :: x in order <==> x in done
    requires |order| == |done|
    requires RankedAhead(wr, w, done, remaining)
    requires AtRankPositions(wr, w, order)
    requires IsFirst(wr, w, u, remaining)
    ensures (done + {u}) + (remaining - {u}) == WeekUsers(wr, w) && (done + {u}) !! (remaining - {u})
    ensures forall x :: x in order + [u] <==> x in done + {u}
    ensures |order + [u]| == |done + {u}|
    ensures RankedAhead(wr, w, done + {u}, remaining - {u})
    ensures AtRankPositions(wr, w, order + [u])
  {
    RankOfNext(wr, w, done, remaining, u);
    PositionsSnoc(wr, w, order, u);
  }

  /**
    `WeeklyResult.objects.filter(week=week).order_by('-confidence_points',
    'user__email')`, evaluated: the week's users, once each, each at the
    position its rank names (so in ranking order, by PositionsSorted).
   */
  method RankingOrder(wr: map<ResultKey, WeeklyResult>, w: WeekId) returns (order: seq<User>)
    ensures forall u :: u in order <==> u in WeekUsers(wr, w)
    ensures NoDuplicates(order)
    ensures PrefixRanks(order, |order|) == WeekRanks(wr, w)
  {
    var remaining := WeekUsers(wr, w);
    ghost var done: set<User> := {};
    order := [];
    while remaining != {}
      invariant done + remaining == WeekUsers(wr, w) && done !! remaining
      invariant forall u :: u in order <==> u in done
      invariant |order| == |done|
      invariant RankedAhead(wr, w, done, remaining)
      invariant AtRankPositions(wr, w, order)
      decreases |remaining|
    {
      FirstExists(wr, w, remaining);
      var u :| IsFirst(wr, w, u, remaining);
      OrderStep(wr, w, order, done, remaining, u);
      order := order + [u];
      remaining := remaining - {u};
      done := done + {u};
    }
    PositionsDistinct(wr, w, order);
    PrefixRanksComplete(wr, w, order);
  }

  /**
    calculate_weekly_rankings: walks the week's results in ranking order,
    giving each the next rank and its award, and adding the award to the
    user's season playoff points.
   */
  method CalculateWeeklyRankings(db: Database, week: Week)
    requires RankedHaveStats(db.weeklyResults, db.stats, week)
    modifies db`weeklyResults, db`stats
    ensures db.weeklyResults == RankWeek(old(db.weeklyResults), week.id)
    ensures db.stats == AwardPlayoff(old(db.stats), old(db.weeklyResults), week.id, week.season)
  {
    ghost var wr0 := db.weeklyResults;
    ghost var st0 := db.stats;
    var order := RankingOrder(db.weeklyResults, week.id);
    assert RankRows(wr0, week.id, PrefixRanks(order, 0)) == wr0;
    assert AwardRows(st0, week.season, PrefixRanks(order, 0)) == st0;
    for i := 0 to |order|
      invariant db.weeklyResults == RankRows(wr0, week.id, PrefixRanks(order, i))
      invariant db.stats == AwardRows(st0, week.season, PrefixRanks(order, i))
    {
      var u := order[i];
      var rank := i + 1;
      assert u in WeekUsers(wr0, week.id);
      PrefixRanksStep(order, i);
      RankRowsStep(wr0, week.id, PrefixRanks(order, i), u, rank);
      AwardRowsStep(st0, week.season, PrefixRanks(order, i), u, rank);
      RecordRank(db, ResultKey(u, week.id), StatsKey(u, week.season), rank);
    }
  }

  /** A higher rank never earns fewer playoff points. */
  lemma PlayoffPointsMonotone(r1: int, r2: int)
    requires 1 <= r1 <= r2
    ensures PlayoffPoints(r1) >= PlayoffPoints(r2)
  {
  }

  /** The weekly ranks stored in the rows of week `w`. */
  function StoredRanks(wr: map<ResultKey, WeeklyResult>, w: WeekId): set<int>
  {
    set k | k in wr && k.week == w && wr[k].weeklyRank.Some? :: wr[k].weeklyRank.value
  }

  /**
    After ranking, every row of the week holds a rank and the award for
    it, and the ranks stored are exactly 1, 2, ..., n for the week's n
    users; rows of other weeks and the weekly points are untouched.
   */
  lemma RankWeekConsecutive(wr: map<ResultKey, WeeklyResult>, w: WeekId)
    ensures var ranked := RankWeek(wr, w);
            ranked.Keys == wr.Keys &&
            (forall k :: k in wr && k.week != w ==> ranked[k] == wr[k]) &&
            (forall k :: k in wr && k.week == w ==>
               ranked[k].weeklyRank.Some? && ranked[k].confidencePoints == wr[k].confidencePoints &&
               ranked[k].playoffPoints == PlayoffPoints(ranked[k].weeklyRank.value)) &&
            StoredRanks(ranked, w) == UpTo(|WeekUsers(wr, w)|)
  {
    var ranked := RankWeek(wr, w);
    var users := WeekUsers(wr, w);
    forall r | r in StoredRanks(ranked, w)
      ensures r in RanksOf(wr, w, users)
    {
      var k :| k in ranked && k.week == w && ranked[k].weeklyRank.Some? && ranked[k].weeklyRank.value == r;
      assert k.user in users;
    }
    forall r | r in RanksOf(wr, w, users)
      ensures r in StoredRanks(ranked, w)
    {
      var u :| u in users && r == RankOf(wr, w, u);
      var k := ResultKey(u, w);
      assert k in ranked && ranked[k].weeklyRank == Some(r);
    }
    RanksAreConsecutive(wr, w);
  }

  /**
    After ranking, a user with strictly more weekly points than another
    holds a smaller rank and at least as many playoff points.
   */
  lemma RankWeekOrdered(wr: map<ResultKey, WeeklyResult>, w: WeekId, a: User, b: User)
    requires ResultKey(a, w) in wr && ResultKey(b, w) in wr
    requires wr[ResultKey(a, w)].confidencePoints > wr[ResultKey(b, w)].confidencePoints
    ensures var ranked := RankWeek(wr, w);
            ranked[ResultKey(a, w)].weeklyRank.value < ranked[ResultKey(b, w)].weeklyRank.value &&
            ranked[ResultKey(a, w)].playoffPoints >= ranked[ResultKey(b, w)].playoffPoints
  {
    RankRespectsOrder(wr, w, a, b);
    RankInRange(wr, w, a);
    PlayoffPointsMonotone(RankOf(wr, w, a), RankOf(wr, w, b));
  }

  // ---------------------------------------------------------------------
  // Season confidence totals (score_games.py:80-95)
  // ---------------------------------------------------------------------

  /** The stats row of a participant, with the week's points added. */
  function WithPoints(s: UserSeasonStats, points: int): UserSeasonStats
  {
    s.(totalConfidencePoints := s.totalConfidencePoints + points)
  }

  /** The season stats after `get_or_create` and `total_confidence_points += points` for every participant. */
  function AddConfidence(st: map<StatsKey, UserSeasonStats>, season: SeasonId, points: map<User, int>): map<StatsKey, UserSeasonStats>
  {
    map k | k in st.Keys + (set u | u in points :: StatsKey(u, season)) ::
      if k.season == season && k.user in points then WithPoints(RowOrNew(st, k), points[k.user]) else st[k]
  }

  lemma AddConfidenceStep(st: map<StatsKey, UserSeasonStats>, season: SeasonId, points: map<User, int>, done: set<User>, u: User)
    requires u in points && u !in done
    ensures var cur := AddConfidence(st, season, Restrict(points, done));
            AddConfidence(st, season, Restrict(points, done + {u})) ==
            cur[StatsKey(u, season) := WithPoints(RowOrNew(cur, StatsKey(u, season)), points[u])]
  {
    var before := Restrict(points, done);
    var after := Restrict(points, done + {u});
    assert after == before[u := points[u]];
    assert (set v | v in after :: StatsKey(v, season)) == (set v | v in before :: StatsKey(v, season)) + {StatsKey(u, season)};
    var key := StatsKey(u, season);
    var cur := AddConfidence(st, season, before);
    assert key in cur <==> key in st;
    assert key in st ==> cur[key] == st[key];
  }

  /** `stats, _ = get_or_create(...)`, then `stats.total_confidence_points += points`, then `stats.save()`. */
  method AddUserConfidence(db: Database, key: StatsKey, points: int)
    modifies db`stats
    ensures db.stats == old(db.stats)[key := WithPoints(RowOrNew(old(db.stats), key), points)]
  {
    db.GetOrCreateStats(key);
    var row := db.stats[key];
    db.stats := db.stats[key := row.(totalConfidencePoints := row.totalConfidencePoints + points)];
  }

  /** The loop adding each participant's week points to their season total. */
  method AddConfidencePoints(db: Database, season: SeasonId, points: map<User, int>)
    modifies db`stats
    ensures db.stats == AddConfidence(old(db.stats), season, points)
  {
    ghost var st0 := db.stats;
    var todo := points.Keys;
    ghost var done: set<User> := {};
    assert Restrict(points, done) == map[];
    assert AddConfidence(st0, season, map[]) == st0;
    while todo != {}
      invariant todo !! done && todo + done == points.Keys
      invariant db.stats == AddConfidence(st0, season, Restrict(points, done))
      decreases |todo|
    {
      var u :| u in todo;
      AddConfidenceStep(st0, season, points, done, u);
      AddUserConfidence(db, StatsKey(u, season), points[u]);
      todo := todo - {u};
      done := done + {u};
    }
    assert Restrict(points, done) == points;
  }

  // ---------------------------------------------------------------------
  // Survivor picks (score_games.py:132-186)
  // ---------------------------------------------------------------------

  /**
    What scoring decides for a survivor pick: None when it is left alone
    (another week, already decided, or no final game of its team), else
    whether the picked team won its game. A tie is a loss.
   */
  function SurvivorVerdict(p: SurvivorPick, finals: seq<Game>, w: WeekId): (r: Option<bool>)
    ensures r.None? <==> p.week != w || p.isCorrect.Some? || forall g :: g in finals ==> !Plays(g, p.pickedTeam)
    ensures r == Some(true) ==> exists g :: g in finals && Plays(g, p.pickedTeam) && Winner(g) == Some(p.pickedTeam)
  {
    if p.week != w || p.isCorrect.Some? then None
    else
      match TeamGame(finals, p.pickedTeam)
      case None => None
      case Some(g) => Some(Winner(g) == Some(p.pickedTeam))
  }

  /**
    A decided pick is correct exactly when its team won the first final
    game it played in; a tied game is a loss, and so is a loss on the
    scoreboard.
   */
  lemma SurvivorVerdictIsWinner(p: SurvivorPick, finals: seq<Game>, w: WeekId)
    requires SurvivorVerdict(p, finals, w).Some?
    ensures TeamGame(finals, p.pickedTeam).Some?
    ensures var g := TeamGame(finals, p.pickedTeam).value;
            (SurvivorVerdict(p, finals, w) == Some(true) <==> Winner(g) == Some(p.pickedTeam)) &&
            (g.homeScore == g.awayScore ==> SurvivorVerdict(p, finals, w) == Some(false))
  {
  }

  /** A survivor pick after scoring. */
  function ScoredPick(p: SurvivorPick, finals: seq<Game>, w: WeekId): (r: SurvivorPick)
    ensures r.user == p.user && r.week == p.week && r.pickedTeam == p.pickedTeam
    ensures r.isCorrect == (var v := SurvivorVerdict(p, finals, w); if v.Some? then v else p.isCorrect)
    ensures p.isCorrect.Some? ==> r == p
    ensures p.week != w || (forall g :: g in finals ==> !Plays(g, p.pickedTeam)) ==> r == p
    ensures SurvivorVerdict(r, finals, w).None?
  {
    match SurvivorVerdict(p, finals, w)
    case None => p
    case Some(won) => p.(isCorrect := Some(won))
  }

  /** The survivor pick table after scoring week `w`. */
  function ScoredSurvivorPicks(sp: seq<SurvivorPick>, finals: seq<Game>, w: WeekId): (r: seq<SurvivorPick>)
    ensures |r| == |sp|
    ensures forall i :: 0 <= i < |sp| ==> r[i] == ScoredPick(sp[i], finals, w)
  {
    seq(|sp|, i requires 0 <= i < |sp| => ScoredPick(sp[i], finals, w))
  }

  /** The stats after one survivor pick is scored: its row made sure of, and a strike on a loss. */
  function SurvivorStep(st: map<StatsKey, UserSeasonStats>, p: SurvivorPick, finals: seq<Game>, w: WeekId, season: SeasonId): map<StatsKey, UserSeasonStats>
  {
    match SurvivorVerdict(p, finals, w)
    case None => st
    case Some(won) =>
      var k := StatsKey(p.user, season);
      var row := RowOrNew(st, k);
      st[k := if won then row else Struck(row)]
  }

  /** The season stats after the survivor picks `sp` are scored in order. */
  function SurvivorStats(st: map<StatsKey, UserSeasonStats>, sp: seq<SurvivorPick>, finals: seq<Game>, w: WeekId, season: SeasonId): map<StatsKey, UserSeasonStats>
    decreases |sp|
  {
    if sp == [] then st
    else SurvivorStep(SurvivorStats(st, sp[..|sp| - 1], finals, w, season), sp[|sp| - 1], finals, w, season)
  }

  /** The number of `u`'s picks in `sp` that scoring decides as lost. */
  function Losses(sp: seq<SurvivorPick>, finals: seq<Game>, w: WeekId, u: User): nat
    decreases |sp|
  {
    if sp == [] then 0
    else
      var p := sp[|sp| - 1];
      Losses(sp[..|sp| - 1], finals, w, u) + (if p.user == u && SurvivorVerdict(p, finals, w) == Some(false) then 1 else 0)
  }

  /** Scoring decides at least one of `u`'s picks in `sp`. */
  predicate Decided(sp: seq<SurvivorPick>, finals: seq<Game>, w: WeekId, u: User)
  {
    exists i :: 0 <= i < |sp| && sp[i].user == u && SurvivorVerdict(sp[i], finals, w).Some?
  }

  lemma {:induction false} LossesDecided(sp: seq<SurvivorPick>, finals: seq<Game>, w: WeekId, u: User)
    requires !Decided(sp, finals, w, u)
    ensures Losses(sp, finals, w, u) == 0
    decreases |sp|
  {
    if sp != [] {
      LossesDecided(sp[..|sp| - 1], finals, w, u);
      assert !(sp[|sp| - 1].user == u && SurvivorVerdict(sp[|sp| - 1], finals, w).Some?);
    }
  }

  lemma DecidedSnoc(sp: seq<SurvivorPick>, p: SurvivorPick, finals: seq<Game>, w: WeekId, u: User)
    ensures Decided(sp + [p], finals, w, u) <==>
            Decided(sp, finals, w, u) || (p.user == u && SurvivorVerdict(p, finals, w).Some?)
  {
    var both := sp + [p];
    if Decided(both, finals, w, u) && !(p.user == u && SurvivorVerdict(p, finals, w).Some?) {
      var i :| 0 <= i < |both| && both[i].user == u && SurvivorVerdict(both[i], finals, w).Some?;
      assert i < |sp| && sp[i] == both[i];
    }
    if Decided(sp, finals, w, u) {
      var i :| 0 <= i < |sp| && sp[i].user == u && SurvivorVerdict(sp[i], finals, w).Some?;
      assert both[i] == sp[i];
    }
    assert both[|sp|] == p;
  }

  /**
    What scoring the survivor picks does to one stats row: a row of the
    season exists afterwards iff it did before or one of its user's picks
    was decided, and it has taken one strike per lost pick; rows of other
    seasons are untouched.
   */
  lemma {:induction false} SurvivorStatsAt(st: map<StatsKey, UserSeasonStats>, sp: seq<SurvivorPick>, finals: seq<Game>, w: WeekId,
                                           season: SeasonId, k: StatsKey)
    ensures k in SurvivorStats(st, sp, finals, w, season) <==> k in st || (k.season == season && Decided(sp, finals, w, k.user))
    ensures k in SurvivorStats(st, sp, finals, w, season) ==>
      SurvivorStats(st, sp, finals, w, season)[k] ==
        if k.season == season then StruckTimes(RowOrNew(st, k), Losses(sp, finals, w, k.user)) else st[k]
    decreases |sp|
  {
    if sp != [] {
      var prefix := sp[..|sp| - 1];
      var p := sp[|sp| - 1];
      SurvivorStatsAt(st, prefix, finals, w, season, k);
      DecidedSnoc(prefix, p, finals, w, k.user);
      assert sp == prefix + [p];
      if k.season == season && k !in SurvivorStats(st, prefix, finals, w, season) {
        LossesDecided(prefix, finals, w, k.user);
      }
    }
  }

  /**
    A user with a stats row this season gains exactly one strike per lost
    survivor pick, and ends eliminated iff already eliminated or some pick
    was lost and the strikes reached three; their points are untouched.
   */
  lemma SurvivorStrikesCounted(st: map<StatsKey, UserSeasonStats>, sp: seq<SurvivorPick>, finals: seq<Game>, w: WeekId,
                               season: SeasonId, u: User)
    requires StatsKey(u, season) in st
    ensures var k := StatsKey(u, season);
            var after := SurvivorStats(st, sp, finals, w, season);
            var losses := Losses(sp, finals, w, u);
            k in after &&
            after[k].survivorStrikes == st[k].survivorStrikes + losses &&
            (after[k].isEliminatedSurvivor <==> st[k].isEliminatedSurvivor || (losses > 0 && st[k].survivorStrikes + losses >= 3)) &&
            after[k].totalConfidencePoints == st[k].totalConfidencePoints &&
            after[k].playoffPoints == st[k].playoffPoints
  {
    var k := StatsKey(u, season);
    SurvivorStatsAt(st, sp, finals, w, season, k);
    StruckTimesEffect(st[k], Losses(sp, finals, w, u));
  }

  /** score_survivor_picks: each undecided pick of the week whose team has a final game is decided once. */
  method ScoreSurvivorPicks(db: Database, week: Week, finals: seq<Game>)
    modifies db`survivorPicks, db`stats
    ensures db.survivorPicks == ScoredSurvivorPicks(old(db.survivorPicks), finals, week.id)
    ensures db.stats == SurvivorStats(old(db.stats), old(db.survivorPicks), finals, week.id, week.season)
  {
    ghost var sp0 := db.survivorPicks;
    ghost var st0 := db.stats;
    var i := 0;
    while i < |db.survivorPicks|
      invariant 0 <= i <= |sp0| == |db.survivorPicks|
      invariant forall j :: 0 <= j < i ==> db.survivorPicks[j] == ScoredPick(sp0[j], finals, week.id)
      invariant forall j :: i <= j < |sp0| ==> db.survivorPicks[j] == sp0[j]
      invariant db.stats == SurvivorStats(st0, sp0[..i], finals, week.id, week.season)
    {
      assert sp0[..i + 1][..i] == sp0[..i];
      var pick := db.survivorPicks[i];
      // The pass reads the picks of this week only, and skips those already decided.
      if pick.week == week.id && pick.isCorrect.None? {
        var teamGame := TeamGame(finals, pick.pickedTeam);
        if teamGame.Some? {
          var won := Winner(teamGame.value) == Some(pick.pickedTeam);
          db.survivorPicks := db.survivorPicks[i := pick.(isCorrect := Some(won))];
          var key := StatsKey(pick.user, week.season);
          db.GetOrCreateStats(key);
          if !won {
            db.AddSurvivorStrike(key);
          }
        }
      }
      i := i + 1;
    }
    assert sp0[..i] == sp0;
  }

  // ---------------------------------------------------------------------
  // The whole pass (score_games.py:35-98)
  // ---------------------------------------------------------------------

  /** The WeeklyResult table after scoring `week`. */
  function ResultsAfterScoring(wr: map<ResultKey, WeeklyResult>, picks: seq<ConfidencePick>, games: seq<Game>, week: Week): map<ResultKey, WeeklyResult>
  {
    var finals := FinalGames(games, week.id);
    if finals == [] then wr
    else RankWeek(WithWeekPoints(wr, week.id, WeekPoints(picks, finals)), week.id)
  }

  /** The season stats after scoring `week`. */
  function StatsAfterScoring(st: map<StatsKey, UserSeasonStats>, wr: map<ResultKey, WeeklyResult>, picks: seq<ConfidencePick>,
                             sp: seq<SurvivorPick>, games: seq<Game>, week: Week): map<StatsKey, UserSeasonStats>
  {
    var finals := FinalGames(games, week.id);
    if finals == [] then st
    else
      var points := WeekPoints(picks, finals);
      var saved := WithWeekPoints(wr, week.id, points);
      SurvivorStats(AddConfidence(AwardPlayoff(st, saved, week.id, week.season), week.season, points),
                    sp, finals, week.id, week.season)
  }

  /** The survivor pick table after scoring `week`. */
  function SurvivorPicksAfterScoring(sp: seq<SurvivorPick>, games: seq<Game>, week: Week): seq<SurvivorPick>
  {
    var finals := FinalGames(games, week.id);
    if finals == [] then sp else ScoredSurvivorPicks(sp, finals, week.id)
  }

  /**
    What `calculate_weekly_rankings` needs: every user it will rank (a row
    of the week already, or a participant now) has a stats row this season.
   */
  predicate CanScore(wr: map<ResultKey, WeeklyResult>, st: map<StatsKey, UserSeasonStats>,
                     picks: seq<ConfidencePick>, games: seq<Game>, week: Week)
  {
    RankedHaveStats(wr, st, week) &&
    forall u :: u in Participants(picks, FinalGames(games, week.id)) ==> StatsKey(u, week.season) in st
  }

  /** Users whose week points were just saved are ranked too; they need a stats row as well. */
  lemma SavedHaveStats(wr: map<ResultKey, WeeklyResult>, st: map<StatsKey, UserSeasonStats>, week: Week, points: map<User, int>)
    requires RankedHaveStats(wr, st, week)
    requires forall u :: u in points ==> StatsKey(u, week.season) in st
    ensures RankedHaveStats(WithWeekPoints(wr, week.id, points), st, week)
  {
    var saved := WithWeekPoints(wr, week.id, points);
    forall u | u in WeekUsers(saved, week.id)
      ensures StatsKey(u, week.season) in st
    {
      var k := ResultKey(u, week.id);
      assert k in saved;
      if u !in points {
        assert k in wr;
      }
    }
  }

  /**
    score_week: the whole pass over one week; nothing changes when the week
    has no final game. The games table is kept in game-time order, so the
    first final game of a team is its earliest.
   */
  method ScoreWeek(db: Database, week: Week)
    requires db.Valid()
    requires FinalGames(db.games, week.id) != [] ==> CanScore(db.weeklyResults, db.stats, db.confidencePicks, db.games, week)
    modifies db`weeklyResults, db`stats, db`survivorPicks
    ensures db.Valid()
    ensures db.weeklyResults == ResultsAfterScoring(old(db.weeklyResults), old(db.confidencePicks), old(db.games), week)
    ensures db.stats == StatsAfterScoring(old(db.stats), old(db.weeklyResults), old(db.confidencePicks),
                                          old(db.survivorPicks), old(db.games), week)
    ensures db.survivorPicks == SurvivorPicksAfterScoring(old(db.survivorPicks), old(db.games), week)
  {
    var finals := FinalGames(db.games, week.id);
    if finals == [] {
      return;
    }
    var points := TallyConfidence(db.confidencePicks, finals);
    SaveWeeklyResults(db, week.id, points);
    SavedHaveStats(old(db.weeklyResults), db.stats, week, points);
    CalculateWeeklyRankings(db, week);
    AddConfidencePoints(db, week.season, points);
    ScoreSurvivorPicks(db, week, finals);
  }
}
