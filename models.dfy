/**
  The entities of the pool (pool/models.py) and the tables that store them.

  Rows are values; a Django model instance that is changed and saved is
  modelled as the replacement of its row in the table that holds it.
 */
module Models {
  import opened Wrappers

  type UserId = nat
  type TeamId = nat
  type GameId = nat
  type WeekId = nat
  type SeasonId = nat

  /** A registered user: the primary key and the email the weekly ranking sorts by. */
  datatype User = User(id: UserId, email: string)

  datatype Season = Season(id: SeasonId, year: int, isActive: bool)

  /** A week of a season; `picksDeadline` is a point in time, as an integer. */
  datatype Week = Week(id: WeekId, season: SeasonId, weekNumber: int, isActive: bool, picksDeadline: int)

  datatype Team = Team(id: TeamId, name: string, abbreviation: string, city: string)

  /** A scheduled game; the scores stay absent until a result is entered. */
  datatype Game = Game(
    id: GameId,
    week: WeekId,
    homeTeam: TeamId,
    awayTeam: TeamId,
    gameTime: int,
    homeScore: Option<int>,
    awayScore: Option<int>,
    isFinal: bool)

  datatype ConfidencePick = ConfidencePick(user: User, game: GameId, pickedTeam: TeamId, confidencePoints: int)

  /** A survivor pick; `isCorrect` is None until the scoring pass decides it. */
  datatype SurvivorPick = SurvivorPick(user: User, week: WeekId, pickedTeam: TeamId, isCorrect: Option<bool>)

  datatype UserSeasonStats = UserSeasonStats(
    survivorStrikes: int,
    isEliminatedSurvivor: bool,
    totalConfidencePoints: int,
    playoffPoints: int)

  datatype WeeklyResult = WeeklyResult(confidencePoints: int, weeklyRank: Option<int>, playoffPoints: int)

  /** The unique key of a UserSeasonStats row (`unique_together = ['user', 'season']`). */
  datatype StatsKey = StatsKey(user: User, season: SeasonId)

  /** The unique key of a WeeklyResult row (`unique_together = ['user', 'week']`). */
  datatype ResultKey = ResultKey(user: User, week: WeekId)

  /** A freshly created UserSeasonStats row: every field at its default. */
  const NewStats := UserSeasonStats(0, false, 0, 0)

  /** The stats row under `k`, or a fresh one. */
  function RowOrNew(st: map<StatsKey, UserSeasonStats>, k: StatsKey): UserSeasonStats
  {
    if k in st then st[k] else NewStats
  }

  /** The integers 1..n. */
  function UpTo(n: nat): (r: set<int>)
    ensures |r| == n
    ensures forall i :: i in r <==> 1 <= i <= n
  {
    if n == 0 then {} else UpTo(n - 1) + {n}
  }

  /** Team `t` is one of the two teams of game `g`. */
  predicate Plays(g: Game, t: TeamId)
  {
    g.homeTeam == t || g.awayTeam == t
  }

  /** Week.survivor_picks_required: two survivor picks in even weeks, one in odd weeks. */
  function SurvivorPicksRequired(w: Week): (n: nat)
    ensures n == 1 || n == 2
    ensures n == 2 <==> w.weekNumber % 2 == 0
  {
    if w.weekNumber % 2 == 0 then 2 else 1
  }

  /** Survivor picks a user makes over weeks 1..n of a season. */
  function SeasonSurvivorPicks(n: nat): nat
  {
    if n == 0 then 0
    else SeasonSurvivorPicks(n - 1) + SurvivorPicksRequired(Week(0, 0, n, false, 0))
  }

  /**
    Week n asks for one pick more than half the weeks before it: over the
    first n weeks a user names n + n / 2 survivor teams, 27 over an 18-week
    season, so a season fits in a 32-team league without reusing a team.
   */
  lemma {:induction false} SeasonSurvivorPicksTotal(n: nat)
    ensures SeasonSurvivorPicks(n) == n + n / 2
  {
    if n > 0 {
      SeasonSurvivorPicksTotal(n - 1);
    }
  }

  /**
    Game.winner: the team with the strictly higher score of a final game
    whose scores are both present; None when the game is not final, a score
    is missing, or the scores are level.
   */
  function Winner(g: Game): (r: Option<TeamId>)
    ensures r.Some? ==> g.isFinal && g.homeScore.Some? && g.awayScore.Some?
    ensures r.Some? ==>
      (r.value == g.homeTeam && g.homeScore.value > g.awayScore.value) ||
      (r.value == g.awayTeam && g.awayScore.value > g.homeScore.value)
    ensures g.isFinal && g.homeScore.Some? && g.awayScore.Some? ==>
      (g.homeScore.value > g.awayScore.value ==> r == Some(g.homeTeam)) &&
      (g.awayScore.value > g.homeScore.value ==> r == Some(g.awayTeam)) &&
      (g.homeScore.value == g.awayScore.value ==> r == None)
  {
    if !g.isFinal || g.homeScore.None? || g.awayScore.None? then None
    else if g.homeScore.value > g.awayScore.value then Some(g.homeTeam)
    else if g.awayScore.value > g.homeScore.value then Some(g.awayTeam)
    else None
  }

  /**
    ConfidencePick.is_correct for a pick of `pickedTeam` in game `g`:
    unknown while the game is not final, then whether the picked team won.
    A final game without a winner (a tie) is a miss for every picker.
   */
  function IsCorrect(g: Game, pickedTeam: TeamId): (r: Option<bool>)
    ensures r.None? <==> !g.isFinal
    ensures r == Some(true) <==> g.isFinal && Winner(g) == Some(pickedTeam)
    ensures (g.isFinal && g.homeScore.Some? && g.awayScore.Some? &&
             g.homeScore.value == g.awayScore.value) ==> r == Some(false)
  {
    if !g.isFinal then None
    else
      var winner := Winner(g);
      if winner.Some? then Some(winner.value == pickedTeam) else Some(false)
  }

  /**
    The row UserSeasonStats.add_survivor_strike leaves: one strike more, and
    eliminated once the strikes reach three. Elimination is never cleared
    and the strike count has no upper bound.
   */
  function Struck(s: UserSeasonStats): (r: UserSeasonStats)
    ensures r.survivorStrikes == s.survivorStrikes + 1
    ensures s.isEliminatedSurvivor ==> r.isEliminatedSurvivor
    ensures r.isEliminatedSurvivor <==> s.isEliminatedSurvivor || r.survivorStrikes >= 3
    ensures r.totalConfidencePoints == s.totalConfidencePoints && r.playoffPoints == s.playoffPoints
  {
    var strikes := s.survivorStrikes + 1;
    s.(survivorStrikes := strikes,
       isEliminatedSurvivor := if strikes >= 3 then true else s.isEliminatedSurvivor)
  }

  /** The row after `k` strikes, one after the other. */
  function StruckTimes(s: UserSeasonStats, k: nat): UserSeasonStats
  {
    if k == 0 then s else Struck(StruckTimes(s, k - 1))
  }

  /**
    k strikes add exactly k to the count; the user ends eliminated iff they
    already were, or some strike was given and the count reached three.
   */
  lemma {:induction false} StruckTimesEffect(s: UserSeasonStats, k: nat)
    ensures StruckTimes(s, k).survivorStrikes == s.survivorStrikes + k
    ensures StruckTimes(s, k).isEliminatedSurvivor <==>
            s.isEliminatedSurvivor || (k > 0 && s.survivorStrikes + k >= 3)
    ensures StruckTimes(s, k).totalConfidencePoints == s.totalConfidencePoints
    ensures StruckTimes(s, k).playoffPoints == s.playoffPoints
  {
    if k > 0 {
      StruckTimesEffect(s, k - 1);
    }
  }

  /** A stats row whose elimination flag agrees with its strike count. */
  predicate ConsistentStats(s: UserSeasonStats)
  {
    s.survivorStrikes >= 0 && (s.isEliminatedSurvivor <==> s.survivorStrikes >= 3)
  }

  /** Strikes keep a consistent row consistent, however many are given. */
  lemma {:induction false} StruckTimesConsistent(s: UserSeasonStats, k: nat)
    requires ConsistentStats(s)
    ensures ConsistentStats(StruckTimes(s, k))
  {
    if k > 0 {
      StruckTimesConsistent(s, k - 1);
    }
  }

  /** Primary keys: no two games share an id. */
  predicate DistinctGameIds(games: seq<Game>)
  {
    forall i, j :: 0 <= i < j < |games| ==> games[i].id != games[j].id
  }

  /** `gs` is in game-time order, the order `Game.Meta.ordering` gives every query over games. */
  predicate ByGameTime(gs: seq<Game>)
  {
    forall i, j :: 0 <= i < j < |gs| ==> gs[i].gameTime <= gs[j].gameTime
  }

  /**
    The tables of the pool. `games` is kept in game-time order, the order
    `Game.Meta.ordering` gives every query over games.
   */
  class Database {
    var seasons: seq<Season>
    var teams: seq<Team>
    var weeks: map<WeekId, Week>
    var games: seq<Game>
    var confidencePicks: seq<ConfidencePick>
    var survivorPicks: seq<SurvivorPick>
    var weeklyResults: map<ResultKey, WeeklyResult>
    var stats: map<StatsKey, UserSeasonStats>

    ghost predicate Valid()
      reads this
    {
      (forall k :: k in weeks ==> weeks[k].id == k) &&
      DistinctGameIds(games) &&
      ByGameTime(games)
    }

    constructor ()
      ensures Valid()
      ensures seasons == [] && teams == [] && weeks == map[] && games == []
      ensures confidencePicks == [] && survivorPicks == []
      ensures weeklyResults == map[] && stats == map[]
    {
      seasons, teams, weeks, games := [], [], map[], [];
      confidencePicks, survivorPicks := [], [];
      weeklyResults, stats := map[], map[];
    }

    /** UserSeasonStats.objects.get_or_create: the row under `key`, created at its defaults if missing. */
    method GetOrCreateStats(key: StatsKey)
      modifies this`stats
      ensures key in stats
      ensures stats == old(stats)[key := RowOrNew(old(stats), key)]
    {
      if key !in stats {
        stats := stats[key := NewStats];
      }
    }

    /** UserSeasonStats.add_survivor_strike on the row under `key`, updated in place. */
    method AddSurvivorStrike(key: StatsKey)
      requires key in stats
      modifies this`stats
      ensures stats == old(stats)[key := Struck(old(stats)[key])]
    {
      var row := stats[key];
      row := row.(survivorStrikes := row.survivorStrikes + 1);
      if row.survivorStrikes >= 3 {
        row := row.(isEliminatedSurvivor := true);
      }
      stats := stats[key := row];
    }
  }
}
