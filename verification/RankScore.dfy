/** The encoded rank score: one integer that orders users by solved problems, then by penalty. */
module RankScore {
  import opened Leaderboard
  import opened LeaderboardSafety

  /** More problems solved, or as many in less time. */
  predicate Better(x: RankRow, y: RankRow) {
    x.solved > y.solved || (x.solved == y.solved && x.penalty < y.penalty)
  }

  lemma EncodingOrders(x: RankRow, y: RankRow)
    requires x.rankScore == EncodeRankScore(x.solved, x.penalty) && 0 <= x.penalty < RANK_SCORE_SOLVED_WEIGHT
    requires y.rankScore == EncodeRankScore(y.solved, y.penalty) && 0 <= y.penalty < RANK_SCORE_SOLVED_WEIGHT
    ensures x.rankScore > y.rankScore <==> Better(x, y)
    ensures x.rankScore == y.rankScore <==> x.solved == y.solved && x.penalty == y.penalty
  {
    if x.solved > y.solved {
      assert (x.solved - y.solved) * RANK_SCORE_SOLVED_WEIGHT >= RANK_SCORE_SOLVED_WEIGHT;
    } else if y.solved > x.solved {
      assert (y.solved - x.solved) * RANK_SCORE_SOLVED_WEIGHT >= RANK_SCORE_SOLVED_WEIGHT;
    }
  }

  /** The pair can be read back: divide rounding up, and take what is missing. */
  function DecodeSolved(rankScore: int): int {
    -((-rankScore) / RANK_SCORE_SOLVED_WEIGHT)
  }

  lemma DecodeEncode(solved: int, penalty: int)
    ensures var score := EncodeRankScore(solved, penalty);
            DecodeSolved(score) == solved && DecodeSolved(score) * RANK_SCORE_SOLVED_WEIGHT - score == penalty
            <==> 0 <= penalty < RANK_SCORE_SOLVED_WEIGHT
  {
    var w := RANK_SCORE_SOLVED_WEIGHT;
    var score := EncodeRankScore(solved, penalty);
    var q, r := (-score) / w, (-score) % w;
    assert -score == q * w + r == -solved * w + penalty;
    if q == -solved {
    } else if q > -solved {
      assert (q + solved) * w >= w;
    } else {
      assert (-solved - q) * w >= w;
    }
  }

  // ---- The bound, from the tables -----------------------------------------------

  /** The problems on an assignment's list. */
  ghost function Listed(t: Tables, a: int): set<int> {
    set x | x in t.problems && x.0 == a :: x.1
  }

  /** n problems solved at the last second of a window of the given length. */
  function Span(n: int, length: int): int {
    n * length
  }

  lemma SpanGrows(n: int, n': int, length: nat)
    requires n <= n'
    ensures Span(n, length) <= Span(n', length)
    ensures Span(n + 1, length) == Span(n, length) + length
    ensures Span(0, length) == 0
  {
    assert (n' - n) * length >= 0;
  }

  lemma {:induction false} SumBounded(rows: map<int, ProblemRow>, longest: nat)
    requires forall p | p in rows :: 0 <= rows[p].penalty <= longest && (!rows[p].accepted ==> rows[p].penalty == 0)
    ensures var s := Sum(rows);
            && 0 <= s.solved <= |rows|
            && 0 <= s.penalty <= Span(s.solved, longest)
    decreases rows
  {
    hide Span;
    SpanGrows(0, 0, longest);
    if p :| p in rows {
      SumTakes(rows, p);
      hide Sum;
      SumBounded(rows - {p}, longest);
      Smaller(rows, p);
      var less := Sum(rows - {p});
      SpanGrows(less.solved, less.solved, longest);
    }
  }

  lemma Smaller(rows: map<int, ProblemRow>, p: int)
    requires p in rows
    ensures |rows - {p}| == |rows| - 1
  {
    assert rows.Keys == (rows - {p}).Keys + {p};
  }

  /** The problems of these rows that are accepted. */
  ghost function AcceptedIn(rows: map<int, ProblemRow>): set<int> {
    set p | p in rows && rows[p].accepted
  }

  lemma {:induction false} SumCounts(rows: map<int, ProblemRow>)
    requires forall p | p in rows :: rows[p].score == if rows[p].accepted then 100 else 0
    ensures Sum(rows).solved == |AcceptedIn(rows)| && Sum(rows).score == 100 * Sum(rows).solved
    decreases rows
  {
    if p :| p in rows {
      SumTakes(rows, p);
      hide Sum;
      SumCounts(rows - {p});
      if rows[p].accepted {
        assert AcceptedIn(rows) == AcceptedIn(rows - {p}) + {p};
      } else {
        assert AcceptedIn(rows) == AcceptedIn(rows - {p});
      }
    } else {
      forall p ensures p !in AcceptedIn(rows) {
      }
      assert AcceptedIn(rows) == {};
    }
  }

  /** In safe tables a rank row counts the accepted problems of its user, a hundred points each. */
  lemma RankCountsProblems(t: Tables, u: UserKey)
    requires Safe(t) && u in t.ranks
    ensures t.ranks[u].solved == |AcceptedIn(UserRows(t.rows, u))| && t.ranks[u].score == 100 * t.ranks[u].solved
  {
    var rows := UserRows(t.rows, u);
    forall p | p in rows ensures rows[p].score == if rows[p].accepted then 100 else 0 {
      PenaltyBounded(t, Key(u.assignment, u.user, p));
    }
    RankIsSum(t, u);
    hide Safe, Sum;
    SumCounts(rows);
  }

  lemma UserRowBounded(t: Tables, u: UserKey, p: int)
    requires Safe(t) && u.assignment in t.schedules && p in UserRows(t.rows, u)
    ensures p in Listed(t, u.assignment)
    ensures var s, row := t.schedules[u.assignment], UserRows(t.rows, u)[p];
            0 <= row.penalty <= s.end - s.start && (!row.accepted ==> row.penalty == 0)
  {
    var k := Key(u.assignment, u.user, p);
    assert k in t.rows && UserRows(t.rows, u)[p] == t.rows[k];
    hide Safe;
    PenaltyBounded(t, k);
    assert (u.assignment, p) in t.problems;
  }

  lemma UserBounded(t: Tables, u: UserKey)
    requires Safe(t) && u in t.ranks && u.assignment in t.schedules
    requires t.schedules[u.assignment].start < t.schedules[u.assignment].end
    ensures var s, row := t.schedules[u.assignment], t.ranks[u];
            && 0 <= row.solved <= |Listed(t, u.assignment)|
            && 0 <= row.penalty <= Span(row.solved, s.end - s.start)
            && row.rankScore == EncodeRankScore(row.solved, row.penalty)
  {
    var rows := UserRows(t.rows, u);
    RankIsSum(t, u);
    hide Safe, Sum, Listed, UserRows, EncodeRankScore, Span;
    forall p | p in rows ensures p in Listed(t, u.assignment) {
      UserRowBounded(t, u, p);
    }
    assert rows.Keys <= Listed(t, u.assignment);
    Subset(rows.Keys, Listed(t, u.assignment));
    UserSumBounded(t, u);
  }

  lemma UserSumBounded(t: Tables, u: UserKey)
    requires Safe(t) && u.assignment in t.schedules
    requires t.schedules[u.assignment].start < t.schedules[u.assignment].end
    ensures var sched, s := t.schedules[u.assignment], Sum(UserRows(t.rows, u));
            0 <= s.solved <= |UserRows(t.rows, u)| && 0 <= s.penalty <= Span(s.solved, sched.end - sched.start)
  {
    hide Safe, Sum, UserRows, Span;
    var rows, longest := UserRows(t.rows, u), t.schedules[u.assignment].end - t.schedules[u.assignment].start;
    forall p | p in rows ensures 0 <= rows[p].penalty <= longest && (!rows[p].accepted ==> rows[p].penalty == 0) {
      UserRowBounded(t, u, p);
    }
    SumBounded(rows, longest);
  }

  lemma RankIsSum(t: Tables, u: UserKey)
    requires Safe(t) && u in t.ranks
    ensures var s, row := Sum(UserRows(t.rows, u)), t.ranks[u];
            row.solved == s.solved && row.penalty == s.penalty && row.score == s.score
            && row.rankScore == EncodeRankScore(row.solved, row.penalty)
  {
    hide WellFormed, RowSafe, Sum, UserRows;
    assert RanksExact(t);
  }

  lemma Subset(xs: set<int>, ys: set<int>)
    requires xs <= ys
    ensures |xs| <= |ys|
  {
    assert ys == xs + (ys - xs);
  }

  /** The condition a teacher can check on the settings alone. */
  ghost predicate Separates(t: Tables, a: int) {
    a in t.schedules &&
    Span(|Listed(t, a)|, t.schedules[a].end - t.schedules[a].start) < RANK_SCORE_SOLVED_WEIGHT
  }

  lemma PenaltyFits(t: Tables, u: UserKey)
    requires Safe(t) && u in t.ranks && Separates(t, u.assignment)
    ensures 0 <= t.ranks[u].penalty < RANK_SCORE_SOLVED_WEIGHT
    ensures 0 <= t.ranks[u].solved <= |Listed(t, u.assignment)|
    ensures t.ranks[u].rankScore == EncodeRankScore(t.ranks[u].solved, t.ranks[u].penalty)
  {
    hide Safe, Listed, Span, EncodeRankScore;
    Proper(t, u.assignment);
    UserBounded(t, u);
    var s, row := t.schedules[u.assignment], t.ranks[u];
    SpanGrows(row.solved, |Listed(t, u.assignment)|, s.end - s.start);
  }

  lemma Proper(t: Tables, a: int)
    requires Safe(t) && a in t.schedules
    ensures t.schedules[a].start < t.schedules[a].end
  {
    hide RowSafe, RanksExact;
    assert WellFormed(t);
  }

  /** In safe tables comparing scores is comparing standings, and the score gives the standing back. */
  lemma ScoresAreStandings(t: Tables, u: UserKey, v: UserKey)
    requires Safe(t) && u in t.ranks && v in t.ranks && u.assignment == v.assignment && Separates(t, u.assignment)
    ensures t.ranks[u].rankScore > t.ranks[v].rankScore <==> Better(t.ranks[u], t.ranks[v])
    ensures t.ranks[u].rankScore == t.ranks[v].rankScore <==>
              t.ranks[u].solved == t.ranks[v].solved && t.ranks[u].penalty == t.ranks[v].penalty
    ensures DecodeSolved(t.ranks[u].rankScore) == t.ranks[u].solved
    ensures t.ranks[u].solved * RANK_SCORE_SOLVED_WEIGHT - t.ranks[u].rankScore == t.ranks[u].penalty
  {
    PenaltyFits(t, u);
    PenaltyFits(t, v);
    hide Safe, Separates;
    EncodingOrders(t.ranks[u], t.ranks[v]);
    DecodeEncode(t.ranks[u].solved, t.ranks[u].penalty);
  }

  // ---- The conversion to double ----------------------------------------------------

  /** 2 to the 53: below it every integer is a double. */
  const EXACT: int := 9_007_199_254_740_992

  /** The distance between neighbouring doubles at magnitude n, from p upwards. */
  function Spacing(n: nat, p: nat): (r: nat)
    requires p > 0
    ensures r > 0
    decreases n - EXACT * p
  {
    if n <= EXACT * p then p else Spacing(n, 2 * p)
  }

  /** Round to a multiple of p, ties to the even multiple. */
  function RoundEven(n: nat, p: nat): int
    requires p > 0
  {
    var q, r := n / p, n % p;
    if 2 * r < p || (2 * r == p && q % 2 == 0) then q * p else (q + 1) * p
  }

  /** static_cast<double> of a 64-bit integer, read back as an integer. */
  function ToDouble(x: int): int {
    if x >= 0 then RoundEven(x, Spacing(x, 1)) else -RoundEven(-x, Spacing(-x, 1))
  }

  function PowerOfTwo(k: nat): (p: nat)
    ensures p > 0
  {
    if k == 0 then 1 else 2 * PowerOfTwo(k - 1)
  }

  lemma {:induction false} SpacingAt(n: nat, k: nat) returns (e: nat)
    requires k == 0 || EXACT * PowerOfTwo(k - 1) < n
    ensures Spacing(n, PowerOfTwo(k)) == PowerOfTwo(e) && n <= EXACT * PowerOfTwo(e)
    ensures e == 0 || EXACT * PowerOfTwo(e - 1) < n
    decreases n - EXACT * PowerOfTwo(k)
  {
    if n <= EXACT * PowerOfTwo(k) {
      e := k;
    } else {
      e := SpacingAt(n, k + 1);
    }
  }

  lemma RoundsToNearest(n: nat, p: nat) returns (m: nat)
    requires p > 0
    ensures RoundEven(n, p) == m * p && 2 * (m * p - n) <= p && 2 * (n - m * p) <= p
    ensures (2 * (m * p - n) == p || 2 * (n - m * p) == p) ==> m % 2 == 0
  {
    var q, r := n / p, n % p;
    assert n == q * p + r && (q + 1) * p == q * p + p;
    m := if 2 * r < p || (2 * r == p && q % 2 == 0) then q else q + 1;
  }

  /**
   * The conversion is that of IEEE 754 to nearest: m times the spacing 2^e of the doubles around x, at most half
   * the spacing away, and m is even when it is exactly half.
   */
  lemma NearestDouble(x: int) returns (m: nat, e: nat)
    ensures var size := if x >= 0 then x else -x;
            var p := PowerOfTwo(e);
            && ToDouble(x) == (if x >= 0 then m * p else -(m * p))
            && size <= EXACT * p && (e == 0 || EXACT * PowerOfTwo(e - 1) < size)
            && 2 * (m * p - size) <= p && 2 * (size - m * p) <= p
            && ((2 * (m * p - size) == p || 2 * (size - m * p) == p) ==> m % 2 == 0)
  {
    var size := if x >= 0 then x else -x;
    e := SpacingAt(size, 0);
    m := RoundsToNearest(size, PowerOfTwo(e));
  }

  const MOST_SOLVED: nat := 9_007_199

  /** Up to 9,007,199 solved problems the score in the sorted set is the score itself. */
  lemma DoubleIsExact(solved: nat, penalty: nat)
    requires penalty < RANK_SCORE_SOLVED_WEIGHT && solved <= MOST_SOLVED
    ensures ToDouble(EncodeRankScore(solved, penalty)) == EncodeRankScore(solved, penalty)
  {
    var score := EncodeRankScore(solved, penalty);
    assert -EXACT <= score <= EXACT;
    assert score >= 0 ==> Spacing(score, 1) == 1;
    assert score < 0 ==> Spacing(-score, 1) == 1;
  }

  /** The bound is sharp: one problem more, and a second of penalty can vanish. */
  lemma DoubleLosesASecond()
    ensures var slow, fast := EncodeRankScore(MOST_SOLVED + 1, 1), EncodeRankScore(MOST_SOLVED + 1, 0);
            slow < fast && ToDouble(slow) == ToDouble(fast)
  {
    var slow, fast := EncodeRankScore(MOST_SOLVED + 1, 1), EncodeRankScore(MOST_SOLVED + 1, 0);
    assert slow == 9_007_199_999_999_999 && fast == 9_007_200_000_000_000;
    assert Spacing(slow, 1) == Spacing(slow, 2) == 2;
    assert Spacing(fast, 1) == Spacing(fast, 2) == 2;
  }

  /** Above 2 to the 53 neighbouring doubles are at an even distance. */
  lemma {:induction false} SpacingEven(n: nat, p: nat)
    requires p > 0 && p % 2 == 0
    ensures Spacing(n, p) % 2 == 0
    decreases n - EXACT * p
  {
    if n > EXACT * p {
      SpacingEven(n, 2 * p);
    }
  }

  lemma RoundsToEven(n: nat, p: nat)
    requires p > 0 && p % 2 == 0
    ensures RoundEven(n, p) % 2 == 0
  {
    EvenMultiple(n / p, p);
    EvenMultiple(n / p + 1, p);
  }

  lemma EvenMultiple(k: int, p: int)
    requires p % 2 == 0
    ensures (k * p) % 2 == 0
  {
    assert k * p == 2 * (k * (p / 2)) by {
      assert p == 2 * (p / 2);
    }
  }

  /** An odd score beyond 2 to the 53 is no double. */
  lemma OddIsLost(x: nat)
    requires x > EXACT && x % 2 == 1
    ensures ToDouble(x) != x
  {
    SpacingEven(x, 2);
    assert Spacing(x, 1) == Spacing(x, 2);
    RoundsToEven(x, Spacing(x, 1));
  }

  lemma OddScore(solved: nat)
    requires solved > MOST_SOLVED
    ensures EncodeRankScore(solved, 1) > EXACT && EncodeRankScore(solved, 1) % 2 == 1
  {
    Odd(solved * 500_000_000 - 1);
    assert EncodeRankScore(solved, 1) == solved * 1_000_000_000 - 1;
    assert solved * 1_000_000_000 >= 9_007_200 * 1_000_000_000;
  }

  lemma Odd(half: nat)
    ensures (2 * half + 1) % 2 == 1
  {
  }

  /** Whatever the penalties, the scores of a solved count survive the conversion exactly up to 9,007,199. */
  lemma ExactUpTo(solved: nat)
    ensures (forall penalty | 0 <= penalty < RANK_SCORE_SOLVED_WEIGHT ::
               ToDouble(EncodeRankScore(solved, penalty)) == EncodeRankScore(solved, penalty))
            <==> solved <= MOST_SOLVED
  {
    if solved <= MOST_SOLVED {
      hide ToDouble, EncodeRankScore;
      forall penalty | 0 <= penalty < RANK_SCORE_SOLVED_WEIGHT
        ensures ToDouble(EncodeRankScore(solved, penalty)) == EncodeRankScore(solved, penalty)
      {
        DoubleIsExact(solved, penalty);
      }
    } else {
      OddScore(solved);
      hide ToDouble, EncodeRankScore;
      OddIsLost(EncodeRankScore(solved, 1));
    }
  }

  /** In safe tables the sorted set therefore orders users by their standings. */
  lemma SortedSetOrders(t: Tables, u: UserKey, v: UserKey)
    requires Safe(t) && u in t.ranks && v in t.ranks && u.assignment == v.assignment && Separates(t, u.assignment)
    requires |Listed(t, u.assignment)| <= MOST_SOLVED
    ensures ToDouble(t.ranks[u].rankScore) > ToDouble(t.ranks[v].rankScore) <==> Better(t.ranks[u], t.ranks[v])
  {
    PenaltyFits(t, u);
    PenaltyFits(t, v);
    ScoresAreStandings(t, u, v);
    hide Safe, Separates;
    DoubleIsExact(t.ranks[u].solved, t.ranks[u].penalty);
    DoubleIsExact(t.ranks[v].solved, t.ranks[v].penalty);
  }
}
