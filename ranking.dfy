/**
  The order of the weekly ranking (`order_by('-confidence_points',
  'user__email')` in calculate_weekly_rankings) and the rank it gives each
  user of a week.

  Emails compare by code point, lexicographically. Two users with the same
  email are put in id order: the database leaves their order unspecified.
 */
module Ranking {
  import opened Models

  /** Lexicographic order on strings: `a` sorts strictly before `b`. */
  predicate EmailBefore(a: string, b: string)
    decreases |a|
  {
    if a == [] then b != []
    else if b == [] then false
    else a[0] < b[0] || (a[0] == b[0] && EmailBefore(a[1..], b[1..]))
  }

  lemma {:induction false} EmailBeforeIrreflexive(a: string)
    ensures !EmailBefore(a, a)
    decreases |a|
  {
    if a != [] {
      EmailBeforeIrreflexive(a[1..]);
    }
  }

  lemma {:induction false} EmailBeforeTransitive(a: string, b: string, c: string)
    requires EmailBefore(a, b) && EmailBefore(b, c)
    ensures EmailBefore(a, c)
    decreases |a|
  {
    if a != [] && b != [] && c != [] && a[0] == b[0] == c[0] {
      EmailBeforeTransitive(a[1..], b[1..], c[1..]);
    }
  }

  lemma {:induction false} EmailBeforeTotal(a: string, b: string)
    requires a != b
    ensures EmailBefore(a, b) || EmailBefore(b, a)
    decreases |a|
  {
    if a != [] && b != [] && a[0] == b[0] {
      EmailBeforeTotal(a[1..], b[1..]);
    }
  }

  /**
    User `a` with `pa` weekly points is listed before user `b` with `pb`:
    more points first, then the smaller email, then the smaller id.
   */
  predicate RanksBefore(a: User, pa: int, b: User, pb: int)
  {
    pa > pb || (pa == pb && (EmailBefore(a.email, b.email) || (a.email == b.email && a.id < b.id)))
  }

  /** The ranking order is a strict total order on users: irreflexive, transitive, total. */
  lemma RanksBeforeIrreflexive(a: User, pa: int)
    ensures !RanksBefore(a, pa, a, pa)
  {
    EmailBeforeIrreflexive(a.email);
  }

  lemma RanksBeforeTransitive(a: User, pa: int, b: User, pb: int, c: User, pc: int)
    requires RanksBefore(a, pa, b, pb) && RanksBefore(b, pb, c, pc)
    ensures RanksBefore(a, pa, c, pc)
  {
    if pa == pb == pc && EmailBefore(a.email, b.email) && EmailBefore(b.email, c.email) {
      EmailBeforeTransitive(a.email, b.email, c.email);
    }
  }

  lemma RanksBeforeAsymmetric(a: User, pa: int, b: User, pb: int)
    requires RanksBefore(a, pa, b, pb)
    ensures !RanksBefore(b, pb, a, pa)
  {
    if RanksBefore(b, pb, a, pa) {
      RanksBeforeTransitive(a, pa, b, pb, a, pa);
      RanksBeforeIrreflexive(a, pa);
    }
  }

  lemma RanksBeforeTotal(a: User, pa: int, b: User, pb: int)
    requires a != b
    ensures RanksBefore(a, pa, b, pb) || RanksBefore(b, pb, a, pa)
  {
    if pa == pb && a.email != b.email {
      EmailBeforeTotal(a.email, b.email);
    }
  }

  /** The users that have a WeeklyResult row for week `w`. */
  function WeekUsers(wr: map<ResultKey, WeeklyResult>, w: WeekId): (users: set<User>)
    ensures forall u :: u in users <==> ResultKey(u, w) in wr
  {
    set k | k in wr && k.week == w :: k.user
  }

  /** The confidence points of `u`'s WeeklyResult row for week `w` (0 when there is none). */
  function PointsIn(wr: map<ResultKey, WeeklyResult>, w: WeekId, u: User): int
  {
    if ResultKey(u, w) in wr then wr[ResultKey(u, w)].confidencePoints else 0
  }

  /** In week `w`, `a` is listed before `b`. */
  predicate Precedes(wr: map<ResultKey, WeeklyResult>, w: WeekId, a: User, b: User)
  {
    RanksBefore(a, PointsIn(wr, w, a), b, PointsIn(wr, w, b))
  }

  /** The week's users listed before `u`. */
  function Ahead(wr: map<ResultKey, WeeklyResult>, w: WeekId, u: User): set<User>
  {
    set v | v in WeekUsers(wr, w) && Precedes(wr, w, v, u)
  }

  /** The weekly rank of `u`: one more than the number of users listed before it. */
  function RankOf(wr: map<ResultKey, WeeklyResult>, w: WeekId, u: User): int
  {
    1 + |Ahead(wr, w, u)|
  }

  /** A user listed before every other user of `s`. */
  predicate IsFirst(wr: map<ResultKey, WeeklyResult>, w: WeekId, u: User, s: set<User>)
  {
    u in s && forall v :: v in s && v != u ==> Precedes(wr, w, u, v)
  }

  /** Every non-empty set of users has a first one in the ranking order. */
  lemma {:induction false} FirstExists(wr: map<ResultKey, WeeklyResult>, w: WeekId, s: set<User>)
    requires s != {}
    ensures exists u :: IsFirst(wr, w, u, s)
    decreases |s|
  {
    var x :| x in s;
    if s == {x} {
      assert IsFirst(wr, w, x, s);
    } else {
      var rest := s - {x};
      FirstExists(wr, w, rest);
      var y :| IsFirst(wr, w, y, rest);
      if Precedes(wr, w, x, y) {
        forall v | v in s && v != x
          ensures Precedes(wr, w, x, v)
        {
          if v != y {
            assert v in rest && Precedes(wr, w, y, v);
            RanksBeforeTransitive(x, PointsIn(wr, w, x), y, PointsIn(wr, w, y), v, PointsIn(wr, w, v));
          }
        }
        assert IsFirst(wr, w, x, s);
      } else {
        RanksBeforeTotal(x, PointsIn(wr, w, x), y, PointsIn(wr, w, y));
        assert IsFirst(wr, w, y, s);
      }
    }
  }

  /** A proper subset has fewer elements. */
  lemma ProperSubsetSmaller<T>(a: set<T>, b: set<T>, x: T)
    requires a <= b && x in b && x !in a
    ensures |a| < |b|
  {
    assert b == a + (b - a);
    assert x in b - a;
  }

  /**
    The rank respects the ranking order: a user listed before another gets
    a strictly smaller rank, so two users of a week never share a rank,
    whatever their points.
   */
  lemma RankRespectsOrder(wr: map<ResultKey, WeeklyResult>, w: WeekId, a: User, b: User)
    requires ResultKey(a, w) in wr && ResultKey(b, w) in wr
    requires Precedes(wr, w, a, b)
    ensures RankOf(wr, w, a) < RankOf(wr, w, b)
  {
    var pa, pb := PointsIn(wr, w, a), PointsIn(wr, w, b);
    forall v | v in Ahead(wr, w, a)
      ensures v in Ahead(wr, w, b)
    {
      RanksBeforeTransitive(v, PointsIn(wr, w, v), a, pa, b, pb);
    }
    RanksBeforeIrreflexive(a, pa);
    ProperSubsetSmaller(Ahead(wr, w, a), Ahead(wr, w, b), a);
  }

  /** Distinct users of a week get distinct ranks, even on equal points. */
  lemma RanksDistinct(wr: map<ResultKey, WeeklyResult>, w: WeekId, a: User, b: User)
    requires ResultKey(a, w) in wr && ResultKey(b, w) in wr && a != b
    ensures RankOf(wr, w, a) != RankOf(wr, w, b)
  {
    RanksBeforeTotal(a, PointsIn(wr, w, a), b, PointsIn(wr, w, b));
    if Precedes(wr, w, a, b) {
      RankRespectsOrder(wr, w, a, b);
    } else {
      RankRespectsOrder(wr, w, b, a);
    }
  }

  /** Ranks run from 1 to the number of users in the week. */
  lemma RankInRange(wr: map<ResultKey, WeeklyResult>, w: WeekId, u: User)
    requires ResultKey(u, w) in wr
    ensures 1 <= RankOf(wr, w, u) <= |WeekUsers(wr, w)|
  {
    RanksBeforeIrreflexive(u, PointsIn(wr, w, u));
    assert Ahead(wr, w, u) <= WeekUsers(wr, w);
    ProperSubsetSmaller(Ahead(wr, w, u), WeekUsers(wr, w), u);
  }

  /** The ranks of the users of a set. */
  function RanksOf(wr: map<ResultKey, WeeklyResult>, w: WeekId, s: set<User>): set<int>
  {
    set u | u in s :: RankOf(wr, w, u)
  }

  /** Distinct ranks: a set of week users has as many ranks as members. */
  lemma {:induction false} RanksOfSize(wr: map<ResultKey, WeeklyResult>, w: WeekId, s: set<User>)
    requires s <= WeekUsers(wr, w)
    ensures |RanksOf(wr, w, s)| == |s|
    decreases |s|
  {
    if s != {} {
      var x :| x in s;
      var rest := s - {x};
      RanksOfSize(wr, w, rest);
      assert RanksOf(wr, w, s) == RanksOf(wr, w, rest) + {RankOf(wr, w, x)};
      forall v | v in rest
        ensures RankOf(wr, w, v) != RankOf(wr, w, x)
      {
        RanksDistinct(wr, w, v, x);
      }
      assert RankOf(wr, w, x) !in RanksOf(wr, w, rest);
    }
  }

  /**
    The ranks of a week are exactly 1, 2, ..., n for its n users: they
    start at 1, leave no gap and repeat none.
   */
  lemma RanksAreConsecutive(wr: map<ResultKey, WeeklyResult>, w: WeekId)
    ensures RanksOf(wr, w, WeekUsers(wr, w)) == UpTo(|WeekUsers(wr, w)|)
  {
    var users := WeekUsers(wr, w);
    var ranks := RanksOf(wr, w, users);
    RanksOfSize(wr, w, users);
    forall r | r in ranks
      ensures r in UpTo(|users|)
    {
      var u :| u in users && r == RankOf(wr, w, u);
      RankInRange(wr, w, u);
    }
    assert ranks <= UpTo(|users|);
    var missing := UpTo(|users|) - ranks;
    assert UpTo(|users|) == ranks + missing;
    assert |missing| == 0;
  }
}
