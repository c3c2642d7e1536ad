/**
 * The stored bracket program: for every left end the first right end at which direct reduction fails,
 * computed by one global stack and path-compressed next pointers; strings are indexed from one.
 */
module BracketSolver {
  import opened Text

  predicate IsOpen(c: char) {
    c == '(' || c == '[' || c == '{' || c == '<'
  }

  predicate IsMatch(l: char, r: char) {
    if l == '(' then r == ')'
    else if l == '[' then r == ']'
    else if l == '{' then r == '}'
    else if l == '<' then r == '>'
    else false
  }

  // ---- Direct reduction ---------------------------------------------------------

  /** The open brackets, by position, that are left when s[l..r] is reduced; None once a closer fits nothing. */
  function Reduce(s: string, l: nat, r: nat): (o: Option<seq<nat>>)
    requires r < |s|
    ensures o.Some? ==> forall k | 0 <= k < |o.value| :: l <= o.value[k] <= r
    decreases r
  {
    if r < l || r == 0 then Some([])
    else
      var before := Reduce(s, l, r - 1);
      if before.None? then None
      else
        var st := before.value;
        if IsOpen(s[r]) then Some(st + [r])
        else if st != [] && IsMatch(s[st[|st| - 1]], s[r]) then Some(st[..|st| - 1])
        else None
  }

  /** The first r at most i at which the reduction from l fails; |s| stands for never. */
  function FirstBad(s: string, l: nat, i: nat): (b: nat)
    requires i < |s|
    ensures b == |s| || (l <= b <= i)
    decreases i
  {
    if i < l || i == 0 then |s|
    else
      var b := FirstBad(s, l, i - 1);
      if b != |s| then b else if Reduce(s, l, i).None? then i else |s|
  }

  /** r lies before the first failure exactly when the reduction up to r succeeds. */
  lemma {:induction false} FirstBadIsFirst(s: string, l: nat, i: nat, r: nat)
    requires 1 <= l && r <= i < |s|
    ensures r < FirstBad(s, l, i) <==> Reduce(s, l, r).Some?
    decreases i
  {
    if r < i {
      FirstBadIsFirst(s, l, i - 1, r);
    } else if l <= i {
      FirstBadIsFirst(s, l, i - 1, i - 1);
    }
  }

  // ---- The global stack ------------------------------------------------------------

  /** One stack for all left ends; a closer that fits nothing clears it. */
  function Global(s: string, i: nat): (g: seq<nat>)
    requires i < |s|
    ensures forall k | 0 <= k < |g| :: 1 <= g[k] <= i
    decreases i
  {
    if i == 0 then []
    else
      var g := Global(s, i - 1);
      if IsOpen(s[i]) then g + [i]
      else if g != [] && IsMatch(s[g[|g| - 1]], s[i]) then g[..|g| - 1]
      else []
  }

  predicate Increasing(g: seq<nat>) {
    forall k, m | 0 <= k < m < |g| :: g[k] < g[m]
  }

  lemma IncreasingParts(g: seq<nat>, i: nat)
    requires Increasing(g) && forall k | 0 <= k < |g| :: g[k] < i
    ensures Increasing(g + [i]) && (g != [] ==> Increasing(g[..|g| - 1])) && Increasing([])
  {
  }

  lemma {:induction false} GlobalIncreases(s: string, i: nat)
    requires i < |s|
    ensures Increasing(Global(s, i))
    decreases i
  {
    if i > 0 {
      hide Increasing, IsOpen, IsMatch;
      GlobalIncreases(s, i - 1);
      IncreasingParts(Global(s, i - 1), i);
    } else {
      IncreasingParts([], i);
    }
  }

  /** The top part of a stack, down to the first position below l. */
  function AtLeast(g: seq<nat>, l: nat): (t: seq<nat>)
    ensures |t| <= |g| && t == g[|g| - |t|..]
  {
    if g == [] || g[|g| - 1] < l then [] else AtLeast(g[..|g| - 1], l) + [g[|g| - 1]]
  }

  lemma AtLeastPush(g: seq<nat>, l: nat, i: nat)
    requires l <= i
    ensures AtLeast(g + [i], l) == AtLeast(g, l) + [i]
  {
    assert (g + [i])[..|g|] == g;
  }

  lemma AtLeastPop(g: seq<nat>, l: nat)
    requires AtLeast(g, l) != []
    ensures var t := AtLeast(g, l);
            g != [] && t[|t| - 1] == g[|g| - 1] && t[..|t| - 1] == AtLeast(g[..|g| - 1], l)
  {
  }

  lemma AtLeastOfBelow(g: seq<nat>, l: nat)
    requires forall k | 0 <= k < |g| :: g[k] < l
    ensures AtLeast(g, l) == []
  {
  }

  /** Until it fails, the local stack is the top of the global one. */
  lemma {:induction false} ReduceIsSuffix(s: string, l: nat, i: nat)
    requires 1 <= l && i < |s| && Reduce(s, l, i).Some?
    ensures Reduce(s, l, i).value == AtLeast(Global(s, i), l)
    decreases i
  {
    hide AtLeast, IsOpen, IsMatch;
    if l <= i {
      var g, st := Global(s, i - 1), Reduce(s, l, i - 1).value;
      ReduceIsSuffix(s, l, i - 1);
      assert st == AtLeast(g, l);
      if IsOpen(s[i]) {
        AtLeastPush(g, l, i);
      } else {
        AtLeastPop(g, l);
      }
    } else {
      AtLeastOfBelow(Global(s, i), l);
    }
  }

  /** The left ends for which i is the first failure, in terms of the global stack. */
  predicate FailsAt(s: string, l: nat, i: nat)
    requires 1 <= i < |s|
  {
    var g := Global(s, i - 1);
    !IsOpen(s[i]) && (g == [] || !IsMatch(s[g[|g| - 1]], s[i]) || g[|g| - 1] < l)
  }

  lemma FailsExactly(s: string, l: nat, i: nat)
    requires 1 <= l <= i < |s| && Reduce(s, l, i - 1).Some?
    ensures Reduce(s, l, i).None? <==> FailsAt(s, l, i)
  {
    hide AtLeast, IsOpen, IsMatch;
    ReduceIsSuffix(s, l, i - 1);
    TopOfAtLeast(Global(s, i - 1), l);
  }

  lemma TopOfAtLeast(g: seq<nat>, l: nat)
    ensures var t := AtLeast(g, l);
            (t != [] <==> g != [] && g[|g| - 1] >= l) && (t != [] ==> t[|t| - 1] == g[|g| - 1])
  {
  }

  lemma FirstBadStep(s: string, l: nat, i: nat)
    requires 1 <= l && 1 <= i < |s|
    ensures FirstBad(s, l, i) ==
            if FirstBad(s, l, i - 1) == |s| && l <= i && FailsAt(s, l, i) then i else FirstBad(s, l, i - 1)
  {
    if l <= i {
      FirstBadIsFirst(s, l, i - 1, i - 1);
      if Reduce(s, l, i - 1).Some? {
        FailsExactly(s, l, i);
      }
    }
  }

  // ---- Hashes ---------------------------------------------------------------------------

  const MOD1: int := 1_000_000_007
  const MOD2: int := 1_000_000_009
  const BASE1: int := 911_382_323
  const BASE2: int := 972_663_749
  const INT_MAX: int := 0x7FFF_FFFF

  datatype Hash2 = Hash2(x: int, y: int)

  predicate Reduced(h: Hash2) {
    0 <= h.x < MOD1 && 0 <= h.y < MOD2
  }

  /** The sums are taken in 32 bits and fit. */
  function AddH(a: Hash2, b: Hash2): (h: Hash2)
    requires Reduced(a) && Reduced(b)
    ensures Reduced(h) && a.x + b.x <= INT_MAX && a.y + b.y <= INT_MAX
  {
    var nx, ny := a.x + b.x, a.y + b.y;
    Hash2(if nx >= MOD1 then nx - MOD1 else nx, if ny >= MOD2 then ny - MOD2 else ny)
  }

  function SubH(a: Hash2, b: Hash2): (h: Hash2)
    requires Reduced(a) && Reduced(b)
    ensures Reduced(h)
  {
    var nx, ny := a.x - b.x, a.y - b.y;
    Hash2(if nx < 0 then nx + MOD1 else nx, if ny < 0 then ny + MOD2 else ny)
  }

  function MulH(a: Hash2, b: Hash2): (h: Hash2)
    requires Reduced(a) && Reduced(b)
    ensures Reduced(h)
  {
    Hash2(Times(a.x, b.x) % MOD1, Times(a.y, b.y) % MOD2)
  }

  function Times(x: int, y: int): int {
    x * y
  }

  /** Only open brackets have a code. */
  function CodeOf(c: char): nat {
    if c == '(' then 2 else if c == '[' then 3 else if c == '{' then 5 else 7
  }

  /** The polynomial of a sequence of codes at a base, over the integers. */
  function Poly(codes: seq<nat>, base: int): int {
    if codes == [] then 0 else Times(Poly(codes[..|codes| - 1], base), base) + codes[|codes| - 1]
  }

  function Power(base: int, k: nat): int {
    if k == 0 then 1 else Times(Power(base, k - 1), base)
  }

  function HashOf(codes: seq<nat>): (h: Hash2)
    ensures Reduced(h)
  {
    Hash2(Poly(codes, BASE1) % MOD1, Poly(codes, BASE2) % MOD2)
  }

  predicate PowerTable(pw: seq<Hash2>) {
    forall k | 0 <= k < |pw| :: pw[k] == Hash2(Power(BASE1, k) % MOD1, Power(BASE2, k) % MOD2)
  }

  lemma TimesFacts(x: int, y: int, z: int)
    ensures Times(x + y, z) == Times(x, z) + Times(y, z)
    ensures Times(x, y) == Times(y, x)
    ensures Times(Times(x, y), z) == Times(x, Times(y, z))
  {
    assert (x + y) * z == x * z + y * z;
    assert (x * y) * z == x * (y * z);
  }

  lemma SameRemainder(x: int, y: int, k: int, m: int)
    requires m > 0 && x == y + Times(k, m)
    ensures x % m == y % m
  {
    var d := x / m - y / m - k;
    assert x == (x / m) * m + x % m && y == (y / m) * m + y % m;
    assert d * m == y % m - x % m;
    MultipleInside(d, m);
  }

  lemma MultipleInside(d: int, m: int)
    requires m > 0 && -m < d * m < m
    ensures d == 0
  {
  }

  lemma Quotient(a: int, m: int)
    requires m > 0
    ensures a == Times(a / m, m) + a % m
  {
  }

  lemma TimesMod(a: int, b: int, m: int)
    requires m > 0
    ensures Times(a % m, b % m) % m == Times(a, b) % m
  {
    var qa, qb, ra, rb := a / m, b / m, a % m, b % m;
    Quotient(a, m);
    Quotient(b, m);
    var k := Times(qa, b) + Times(ra, qb);
    assert Times(a, b) == Times(ra, rb) + Times(k, m) by {
      TimesFacts(Times(qa, m), ra, b);
      TimesFacts(qa, m, b);
      TimesFacts(qa, b, m);
      TimesFacts(Times(qb, m), rb, ra);
      TimesFacts(qb, m, ra);
      TimesFacts(ra, qb, m);
      TimesFacts(m, b, qa);
      TimesFacts(ra, rb, 0);
      TimesFacts(ra, b, 0);
      TimesFacts(m, ra, qb);
      TimesFacts(Times(qa, b), Times(ra, qb), m);
    }
    SameRemainder(Times(a, b), Times(ra, rb), k, m);
  }

  /** The one value below m that differs from x by a multiple of m. */
  lemma Wrapped(x: int, y: int, k: int, m: int)
    requires 0 <= y < m && x == y + Times(k, m)
    ensures x % m == y
  {
    SameRemainder(x, y, k, m);
    Quotient(y, m);
    Below(y, m);
  }

  lemma Below(y: int, m: int)
    requires 0 <= y < m
    ensures y % m == y
  {
  }

  lemma SumMod(a: int, b: int, m: int)
    requires m > 0
    ensures var t := a % m + b % m; (if t >= m then t - m else t) == (a + b) % m
  {
    Quotient(a, m);
    Quotient(b, m);
    WrapSum(a, b, a % m, b % m, a / m, b / m, m);
  }

  lemma WrapSum(a: int, b: int, ra: int, rb: int, qa: int, qb: int, m: int)
    requires 0 <= ra < m && 0 <= rb < m && a == Times(qa, m) + ra && b == Times(qb, m) + rb
    ensures (if ra + rb >= m then ra + rb - m else ra + rb) == (a + b) % m
    ensures (if ra - rb < 0 then ra - rb + m else ra - rb) == (a - b) % m
  {
    TimesFacts(qa, qb, m);
    TimesFacts(qa + qb, 1, m);
    TimesFacts(qa - qb, qb, m);
    TimesFacts(qa - qb - 1, 1, m);
    TimesOne(m);
    TimesFacts(1, m, 0);
    hide Times;
    if ra + rb >= m {
      Wrapped(a + b, ra + rb - m, qa + qb + 1, m);
    } else {
      Wrapped(a + b, ra + rb, qa + qb, m);
    }
    if ra - rb < 0 {
      Wrapped(a - b, ra - rb + m, qa - qb - 1, m);
    } else {
      Wrapped(a - b, ra - rb, qa - qb, m);
    }
  }

  lemma DifferenceMod(a: int, b: int, m: int)
    requires m > 0
    ensures var t := a % m - b % m; (if t < 0 then t + m else t) == (a - b) % m
  {
    Quotient(a, m);
    Quotient(b, m);
    WrapSum(a, b, a % m, b % m, a / m, b / m, m);
  }

  lemma {:induction false} PolySplit(a: seq<nat>, b: seq<nat>, base: int)
    ensures Poly(a + b, base) == Times(Poly(a, base), Power(base, |b|)) + Poly(b, base)
    decreases |b|
  {
    hide Times;
    if b == [] {
      assert a + b == a;
      TimesOne(Poly(a, base));
    } else {
      var n := |b| - 1;
      assert (a + b)[..|a| + n] == a + b[..n];
      PolySplit(a, b[..n], base);
      TimesFacts(Times(Poly(a, base), Power(base, n)), Poly(b[..n], base), base);
      TimesFacts(Poly(a, base), Power(base, n), base);
    }
  }

  lemma TimesOne(x: int)
    ensures Times(x, 1) == x
  {
  }

  lemma PushComponent(codes: seq<nat>, code: nat, base: int, m: int)
    requires code < m && 0 <= base < m
    ensures var t := Times(Poly(codes, base) % m, base) % m + code;
            (if t >= m then t - m else t) == Poly(codes + [code], base) % m
  {
    assert (codes + [code])[..|codes|] == codes;
    assert Poly(codes + [code], base) == Times(Poly(codes, base), base) + code;
    Below(base, m);
    Below(code, m);
    hide Times, Poly;
    TimesMod(Poly(codes, base), base, m);
    SumMod(Times(Poly(codes, base), base), code, m);
  }

  /** Appending one code: what the loop pushes on pre is the hash of the longer stack. */
  lemma PushHash(codes: seq<nat>, code: nat)
    requires code < MOD1
    ensures AddH(MulH(HashOf(codes), Hash2(BASE1, BASE2)), Hash2(code, code)) == HashOf(codes + [code])
  {
    hide Times, Poly;
    PushComponent(codes, code, BASE1, MOD1);
    PushComponent(codes, code, BASE2, MOD2);
  }

  /** The powers of both bases, each the previous one times the base. */
  method Powers(limit: nat) returns (pw: seq<Hash2>)
    requires limit > 0
    ensures |pw| == limit && PowerTable(pw)
  {
    pw := [Hash2(1, 1)];
    hide Times;
    for i := 1 to limit
      invariant |pw| == i && PowerTable(pw)
    {
      TimesMod(Power(BASE1, i - 1), BASE1, MOD1);
      TimesMod(Power(BASE2, i - 1), BASE2, MOD2);
      pw := pw + [MulH(pw[i - 1], Hash2(BASE1, BASE2))];
    }
  }

  function GetSuffixHash(pre: seq<Hash2>, from: nat, total: nat, pw: seq<Hash2>): Hash2
    requires from <= total < |pre| && total - from < |pw|
    requires Reduced(pre[from]) && Reduced(pre[total]) && Reduced(pw[total - from])
  {
    SubH(pre[total], MulH(pre[from], pw[total - from]))
  }

  lemma SuffixComponent(codes: seq<nat>, from: nat, base: int, m: int)
    requires from <= |codes| && m > 0
    ensures var t := Poly(codes, base) % m
                     - Times(Poly(codes[..from], base) % m, Power(base, |codes| - from) % m) % m;
            (if t < 0 then t + m else t) == Poly(codes[from..], base) % m
  {
    hide Times, Power, Poly;
    assert codes == codes[..from] + codes[from..];
    PolySplit(codes[..from], codes[from..], base);
    TimesMod(Poly(codes[..from], base), Power(base, |codes| - from), m);
    DifferenceMod(Poly(codes, base), Times(Poly(codes[..from], base), Power(base, |codes| - from)), m);
  }

  /** From prefix hashes and powers, the hash of any suffix, modulo both primes. */
  lemma SuffixHash(codes: seq<nat>, pre: seq<Hash2>, from: nat, pw: seq<Hash2>)
    requires from <= |codes| && |pre| == |codes| + 1 && PowerTable(pw) && |codes| - from < |pw|
    requires pre[from] == HashOf(codes[..from]) && pre[|codes|] == HashOf(codes)
    ensures Reduced(pw[|codes| - from])
    ensures GetSuffixHash(pre, from, |codes|, pw) == HashOf(codes[from..])
  {
    hide Times, Power, Poly;
    SuffixComponent(codes, from, BASE1, MOD1);
    SuffixComponent(codes, from, BASE2, MOD2);
  }

  // ---- What a query asks ------------------------------------------------------------------

  datatype Query = Query(l: nat, r: nat)

  function Codes(s: string, g: seq<nat>): (codes: seq<nat>)
    requires forall k | 0 <= k < |g| :: g[k] < |s|
    ensures |codes| == |g| && forall k | 0 <= k < |g| :: codes[k] == CodeOf(s[g[k]])
  {
    seq(|g|, k requires 0 <= k < |g| => CodeOf(s[g[k]]))
  }

  /** The hash of the residue of s[l..r], by direct reduction; None when the reduction fails. */
  function Answer(s: string, q: Query): Option<Hash2>
    requires q.r < |s|
  {
    var residue := Reduce(s, q.l, q.r);
    if residue.None? then None else Some(HashOf(Codes(s, residue.value)))
  }

  predicate InRange(s: string, qs: seq<Query>) {
    forall i | 0 <= i < |qs| :: 1 <= qs[i].l < |s| && 1 <= qs[i].r < |s|
  }

  function One(answer: Option<Hash2>): multiset<Hash2> {
    match answer case None => multiset{} case Some(h) => multiset{h}
  }

  /** The residues of the queries whose right end is at most r. */
  function Residues(s: string, qs: seq<Query>, r: nat): multiset<Hash2>
    requires InRange(s, qs)
  {
    if qs == [] then multiset{}
    else
      var n := |qs| - 1;
      Residues(s, qs[..n], r) + if qs[n].r <= r then One(Answer(s, qs[n])) else multiset{}
  }

  /** The ids that the grouping loop has pushed on the list of right end r. */
  function Bucket(qs: seq<Query>, r: nat): (ids: seq<nat>)
    ensures forall k | 0 <= k < |ids| :: ids[k] < |qs| && qs[ids[k]].r == r
  {
    if qs == [] then []
    else
      var n := |qs| - 1;
      assert forall k | 0 <= k < n :: qs[..n][k] == qs[k];
      Bucket(qs[..n], r) + if qs[n].r == r then [n] else []
  }

  function ResiduesOf(s: string, qs: seq<Query>, ids: seq<nat>): multiset<Hash2>
    requires InRange(s, qs) && forall k | 0 <= k < |ids| :: ids[k] < |qs|
  {
    if ids == [] then multiset{}
    else ResiduesOf(s, qs, ids[..|ids| - 1]) + One(Answer(s, qs[ids[|ids| - 1]]))
  }

  lemma {:induction false} ResiduesOfPrefix(s: string, qs: seq<Query>, n: nat, ids: seq<nat>)
    requires InRange(s, qs) && n <= |qs| && forall k | 0 <= k < |ids| :: ids[k] < n
    ensures ResiduesOf(s, qs[..n], ids) == ResiduesOf(s, qs, ids)
    decreases |ids|
  {
    if ids != [] {
      ResiduesOfPrefix(s, qs, n, ids[..|ids| - 1]);
    }
  }

  lemma ResiduesOfMore(s: string, qs: seq<Query>, ids: seq<nat>, id: nat)
    requires InRange(s, qs) && id < |qs| && forall k | 0 <= k < |ids| :: ids[k] < |qs|
    ensures ResiduesOf(s, qs, ids + [id]) == ResiduesOf(s, qs, ids) + One(Answer(s, qs[id]))
  {
    hide Answer;
    assert (ids + [id])[..|ids|] == ids;
  }

  /** Grouping by right end loses no query and repeats none. */
  lemma {:induction false} ResiduesStep(s: string, qs: seq<Query>, r: nat)
    requires InRange(s, qs) && r > 0
    ensures Residues(s, qs, r) == Residues(s, qs, r - 1) + ResiduesOf(s, qs, Bucket(qs, r))
  {
    if qs != [] {
      var n := |qs| - 1;
      var ids := Bucket(qs[..n], r);
      hide Answer, One, Residues, ResiduesOf, Bucket;
      ResiduesUnfold(s, qs, r);
      ResiduesUnfold(s, qs, r - 1);
      BucketUnfold(qs, r);
      ResiduesStep(s, qs[..n], r);
      ResiduesOfPrefix(s, qs, n, ids);
      if qs[n].r == r {
        ResiduesOfMore(s, qs, ids, n);
      }
    }
  }

  lemma ResiduesUnfold(s: string, qs: seq<Query>, r: nat)
    requires InRange(s, qs) && qs != []
    ensures var n := |qs| - 1;
            Residues(s, qs, r) ==
            Residues(s, qs[..n], r) + if qs[n].r <= r then One(Answer(s, qs[n])) else multiset{}
  {
    hide Answer, One;
  }

  lemma BucketUnfold(qs: seq<Query>, r: nat)
    requires qs != []
    ensures var n := |qs| - 1;
            Bucket(qs, r) == if qs[n].r == r then Bucket(qs[..n], r) + [n] else Bucket(qs[..n], r)
  {
  }

  lemma {:induction false} NoResiduesAtZero(s: string, qs: seq<Query>)
    requires InRange(s, qs)
    ensures Residues(s, qs, 0) == multiset{}
  {
    if qs != [] {
      NoResiduesAtZero(s, qs[..|qs| - 1]);
    }
  }

  /** The counting map of the program holds exactly this multiset. */
  ghost predicate Tallies(cnt: map<Hash2, int>, m: multiset<Hash2>) {
    forall h :: (h in cnt <==> h in m) && (h in cnt ==> cnt[h] == m[h])
  }

  /** ++cnt[h] for an answered query. */
  function Counted(cnt: map<Hash2, int>, answer: Option<Hash2>): map<Hash2, int> {
    match answer case None => cnt case Some(h) => cnt[h := (if h in cnt then cnt[h] else 0) + 1]
  }

  lemma TallyMore(cnt: map<Hash2, int>, m: multiset<Hash2>, answer: Option<Hash2>)
    requires Tallies(cnt, m)
    ensures Tallies(Counted(cnt, answer), m + One(answer))
  {
  }

  lemma TallyStep(s: string, qs: seq<Query>, ids: seq<nat>, k: nat, cnt: map<Hash2, int>, m: multiset<Hash2>)
    requires InRange(s, qs) && k < |ids| && forall j | 0 <= j < |ids| :: ids[j] < |qs|
    requires Tallies(cnt, m + ResiduesOf(s, qs, ids[..k]))
    ensures Tallies(Counted(cnt, Answer(s, qs[ids[k]])), m + ResiduesOf(s, qs, ids[..k + 1]))
  {
    hide Tallies, Counted, Answer, One, ResiduesOf;
    assert ids[..k + 1] == ids[..k] + [ids[k]];
    ResiduesOfMore(s, qs, ids[..k], ids[k]);
    var answer := Answer(s, qs[ids[k]]);
    TallyMore(cnt, m + ResiduesOf(s, qs, ids[..k]), answer);
    assert m + ResiduesOf(s, qs, ids[..k]) + One(answer) == m + (ResiduesOf(s, qs, ids[..k]) + One(answer));
  }

  lemma {:induction false} AtLeastIsSuffix(g: seq<nat>, l: nat, from: nat)
    requires from <= |g| && (forall k | 0 <= k < from :: g[k] < l) && forall k | from <= k < |g| :: g[k] >= l
    ensures g[from..] == AtLeast(g, l)
    decreases |g|
  {
    if from < |g| {
      var n := |g| - 1;
      var less := g[..n];
      assert forall k | 0 <= k < n :: less[k] == g[k];
      AtLeastIsSuffix(less, l, from);
      SuffixGrows(g, from);
    }
  }

  lemma SuffixGrows(g: seq<nat>, from: nat)
    requires from < |g|
    ensures g[from..] == g[..|g| - 1][from..] + [g[|g| - 1]]
  {
  }

  /** What the loop computes for a query from the global stack is what direct reduction gives. */
  lemma QueryIsAnswered(s: string, q: Query, g: seq<nat>, pre: seq<Hash2>, from: nat, pw: seq<Hash2>)
    requires 1 <= q.l && q.r < |s| && PowerTable(pw) && |pw| > |s|
    requires g == Global(s, q.r) && Stacked(s, g, pre) && from <= |g|
    requires (forall k | 0 <= k < from :: g[k] < q.l) && forall k | from <= k < |g| :: g[k] >= q.l
    requires Reduce(s, q.l, q.r).Some?
    ensures |g| < |pw| && Reduced(pw[|g| - from]) && Reduced(pre[from]) && Reduced(pre[|g|])
    ensures Answer(s, q) == Some(GetSuffixHash(pre, from, |g|, pw))
  {
    GlobalShort(s, q.r);
    hide Global, Reduce, AtLeast, Answer, HashOf, GetSuffixHash, PowerTable, Stacked, Codes;
    ReduceIsSuffix(s, q.l, q.r);
    AtLeastIsSuffix(g, q.l, from);
    StackSuffixHash(s, g, pre, from, pw);
    AnswerIs(s, q, g[from..]);
  }

  lemma AnswerIs(s: string, q: Query, residue: seq<nat>)
    requires q.r < |s| && Reduce(s, q.l, q.r) == Some(residue)
    ensures forall k | 0 <= k < |residue| :: residue[k] < |s|
    ensures Answer(s, q) == Some(HashOf(Codes(s, residue)))
  {
    hide HashOf;
  }

  lemma StackSuffixHash(s: string, g: seq<nat>, pre: seq<Hash2>, from: nat, pw: seq<Hash2>)
    requires (forall k | 0 <= k < |g| :: g[k] < |s|) && Stacked(s, g, pre)
    requires from <= |g| && PowerTable(pw) && |g| < |pw|
    ensures Reduced(pw[|g| - from]) && Reduced(pre[from]) && Reduced(pre[|g|])
    ensures GetSuffixHash(pre, from, |g|, pw) == HashOf(Codes(s, g[from..]))
  {
    hide HashOf, GetSuffixHash, PowerTable;
    assert g[..|g|] == g;
    assert Codes(s, g)[..from] == Codes(s, g[..from]);
    assert Codes(s, g)[from..] == Codes(s, g[from..]);
    SuffixHash(Codes(s, g), pre, from, pw);
  }

  lemma {:induction false} GlobalShort(s: string, i: nat)
    requires i < |s|
    ensures |Global(s, i)| <= i
    decreases i
  {
    if i > 0 {
      GlobalShort(s, i - 1);
    }
  }

  /** pre holds the hashes of all prefixes of the stack. */
  predicate Stacked(s: string, g: seq<nat>, pre: seq<Hash2>)
    requires forall k | 0 <= k < |g| :: g[k] < |s|
  {
    |pre| == |g| + 1 && forall k | 0 <= k <= |g| :: pre[k] == HashOf(Codes(s, g[..k]))
  }

  lemma PushStacked(s: string, g: seq<nat>, pre: seq<Hash2>, r: nat)
    requires (forall k | 0 <= k < |g| :: g[k] < |s|) && Stacked(s, g, pre) && r < |s|
    ensures Reduced(pre[|pre| - 1])
    ensures var h := AddH(MulH(pre[|pre| - 1], Hash2(BASE1, BASE2)), Hash2(CodeOf(s[r]), CodeOf(s[r])));
            Stacked(s, g + [r], pre + [h])
  {
    assert g[..|g|] == g && (g + [r])[..|g| + 1] == g + [r];
    assert Codes(s, g + [r]) == Codes(s, g) + [CodeOf(s[r])];
    PushHash(Codes(s, g), CodeOf(s[r]));
    hide HashOf, AddH, MulH, Codes;
    forall k | 0 <= k <= |g| ensures (g + [r])[..k] == g[..k] {
    }
  }

  lemma EmptyStacked(s: string)
    ensures Stacked(s, [], [Hash2(0, 0)])
  {
  }

  lemma PopStacked(s: string, g: seq<nat>, pre: seq<Hash2>)
    requires (forall k | 0 <= k < |g| :: g[k] < |s|) && Stacked(s, g, pre) && g != []
    ensures Stacked(s, g[..|g| - 1], pre[..|pre| - 1])
  {
    hide HashOf;
    forall k | 0 <= k < |g| ensures g[..|g| - 1][..k] == g[..k] {
    }
  }

  // ---- The next free left end ---------------------------------------------------------

  /** The least position from x on that is still unassigned; n + 1 when there is none. */
  function NextFree(bad: seq<int>, n: nat, x: nat): (y: nat)
    requires |bad| == n + 2
    ensures x <= n + 1 ==> x <= y <= n + 1
    ensures forall z | x <= z < y && z <= n :: bad[z] != n + 1
    ensures y <= n ==> bad[y] == n + 1
    decreases n + 1 - x
  {
    if x > n then n + 1 else if bad[x] == n + 1 then x else NextFree(bad, n, x + 1)
  }

  lemma {:induction false} NextFreeSkips(bad: seq<int>, n: nat, x: nat, y: nat)
    requires |bad| == n + 2 && x <= y <= n + 1
    requires forall z | x <= z < y :: bad[z] != n + 1
    ensures NextFree(bad, n, x) == NextFree(bad, n, y)
    decreases y - x
  {
    if x < y {
      NextFreeSkips(bad, n, x + 1, y);
    }
  }

  /** A pointer stays where it is when its position is free, and else skips assigned positions only. */
  predicate Pointer(bad: seq<int>, next: seq<int>, n: nat, x: nat)
    requires |bad| == |next| == n + 2 && x <= n
  {
    && x <= next[x] <= n + 1
    && (next[x] == x <==> bad[x] == n + 1)
    && (forall z | x <= z < next[x] :: bad[z] != n + 1)
  }

  /** badR after i characters: the first failure so far of every left end. */
  predicate BadUpTo(s: string, bad: seq<int>, i: nat)
    requires i < |s| && |bad| == |s| + 1
  {
    forall l | 1 <= l < |s| :: bad[l] == FirstBad(s, l, i)
  }

  lemma BadAfterOpen(s: string, i: nat, bad: seq<int>)
    requires 1 <= i < |s| && |bad| == |s| + 1 && BadUpTo(s, bad, i - 1) && IsOpen(s[i])
    ensures BadUpTo(s, bad, i)
  {
    forall l | 1 <= l < |s| ensures bad[l] == FirstBad(s, l, i) {
      FirstBadStep(s, l, i);
    }
  }

  /** The free positions of the range, and no others, have got the value. */
  predicate Assigned(was: seq<int>, bad: seq<int>, L: nat, R: nat, val: int, free: int) {
    |bad| == |was| && forall y | 0 <= y < |bad| :: bad[y] == if L <= y <= R && was[y] == free then val else was[y]
  }

  /** A closer fails the left ends above the bracket it fits, or all of them. */
  lemma BadAfterClose(s: string, i: nat, was: seq<int>, bad: seq<int>, from: nat)
    requires 1 <= i < |s| && |was| == |bad| == |s| + 1 && BadUpTo(s, was, i - 1) && !IsOpen(s[i])
    requires var g := Global(s, i - 1);
             from == if g != [] && IsMatch(s[g[|g| - 1]], s[i]) then g[|g| - 1] + 1 else 1
    requires Assigned(was, bad, from, i, i, |s|)
    ensures BadUpTo(s, bad, i)
  {
    hide FirstBad, Global, Reduce, IsOpen, IsMatch;
    forall l | 1 <= l < |s| ensures bad[l] == FirstBad(s, l, i) {
      assert was[l] == FirstBad(s, l, i - 1);
      FirstBadAfterClose(s, l, i, from);
    }
  }

  lemma FirstBadAfterClose(s: string, l: nat, i: nat, from: nat)
    requires 1 <= l && 1 <= i < |s| && !IsOpen(s[i])
    requires var g := Global(s, i - 1);
             from == if g != [] && IsMatch(s[g[|g| - 1]], s[i]) then g[|g| - 1] + 1 else 1
    ensures FirstBad(s, l, i) == if from <= l <= i && FirstBad(s, l, i - 1) == |s| then i else FirstBad(s, l, i - 1)
  {
    hide FirstBad, Global, Reduce, IsOpen, IsMatch;
    FirstBadStep(s, l, i);
  }

  predicate OnStack(st: seq<(nat, char)>, s: string, g: seq<nat>)
    requires forall k | 0 <= k < |g| :: g[k] < |s|
  {
    |st| == |g| && forall k | 0 <= k < |g| :: st[k] == (g[k], s[g[k]])
  }

  /** The loop's stack follows the global one. */
  lemma OnStackStep(st: seq<(nat, char)>, s: string, i: nat)
    requires 1 <= i < |s| && OnStack(st, s, Global(s, i - 1))
    ensures var g := Global(s, i - 1);
            var fits := st != [] && IsMatch(st[|st| - 1].1, s[i]);
            && (fits <==> g != [] && IsMatch(s[g[|g| - 1]], s[i]))
            && (st != [] ==> g != [] && st[|st| - 1].0 == g[|g| - 1])
            && Global(s, i) == (if IsOpen(s[i]) then g + [i] else if fits then g[..|g| - 1] else [])
            && OnStack(if IsOpen(s[i]) then st + [(i, s[i])] else if fits then st[..|st| - 1] else [], s, Global(s, i))
  {
    hide IsOpen, IsMatch;
  }

  class SolverOneSide {
    const n: nat
    const s: string
    const qs: seq<Query>
    const pw: seq<Hash2>
    const badR: array<int>
    const dsuNext: array<int>

    ghost predicate Valid() {
      && |s| == n + 1 && InRange(s, qs) && PowerTable(pw) && |pw| > |s|
      && badR.Length == dsuNext.Length == n + 2 && badR != dsuNext
    }

    ghost predicate Pointers(x: nat)
      requires Valid()
      reads badR, dsuNext
    {
      forall y | x <= y <= n :: Pointer(badR[..], dsuNext[..], n, y)
    }

    constructor (text: string, queries: seq<Query>, powers: seq<Hash2>)
      requires text != "" && InRange(text, queries) && PowerTable(powers) && |powers| > |text|
      ensures Valid() && s == text && qs == queries && fresh(badR) && fresh(dsuNext)
      ensures forall l | 0 <= l < n + 2 :: badR[l] == n + 1
    {
      n, s, qs, pw := |text| - 1, text, queries, powers;
      badR := new int[|text| + 1](_ => |text|);
      dsuNext := new int[|text| + 1](_ => 0);
    }

    method FindNext(x: nat) returns (y: nat)
      requires Valid() && Pointers(x)
      modifies dsuNext
      ensures Pointers(x) && y == NextFree(badR[..], n, x)
      ensures forall z | 0 <= z < x && z < n + 2 :: dsuNext[z] == old(dsuNext[z])
      decreases n + 1 - x
    {
      if x > n {
        return n + 1;
      }
      assert Pointer(badR[..], dsuNext[..], n, x);
      if dsuNext[x] == x {
        return x;
      }
      ghost var bad, before, skip := badR[..], dsuNext[..], dsuNext[x];
      NextFreeSkips(bad, n, x, skip);
      y := FindNext(dsuNext[x]);
      ghost var inner := dsuNext[..];
      dsuNext[x] := y;
      forall z | x <= z <= n ensures Pointer(badR[..], dsuNext[..], n, z) {
        if z < skip {
          assert Pointer(bad, before, n, z);
        } else {
          assert Pointer(bad, inner, n, z);
        }
      }
    }

    /** FindNext, seen from the first position. */
    method FindFrom(x: nat) returns (y: nat)
      requires Valid() && Pointers(1) && x >= 1
      modifies dsuNext
      ensures Pointers(1) && y == NextFree(badR[..], n, x)
    {
      ghost var start := dsuNext[..];
      y := FindNext(x);
      forall z | 1 <= z <= n ensures Pointer(badR[..], dsuNext[..], n, z) {
        if z < x {
          assert Pointer(badR[..], start, n, z);
        }
      }
    }

    /** The free position x gets the value; its pointer moves on to the next free one. */
    method TakeFree(x: nat, val: int) returns (y: nat)
      requires Valid() && Pointers(1) && 1 <= x <= n && badR[x] == n + 1 && val != n + 1
      modifies badR, dsuNext
      ensures Pointers(1) && badR[..] == old(badR[..])[x := val] && y == NextFree(badR[..], n, x + 1)
    {
      ghost var bad, before := badR[..], dsuNext[..];
      badR[x] := val;
      assert badR[..] == bad[x := val];
      forall z | 1 <= z <= n && z != x ensures Pointer(badR[..], dsuNext[..], n, z) {
        assert Pointer(bad, before, n, z);
      }
      y := FindNext(x + 1);
      ghost var inner := dsuNext[..];
      dsuNext[x] := y;
      forall z | 1 <= z <= n ensures Pointer(badR[..], dsuNext[..], n, z) {
        if z < x {
          assert Pointer(badR[..], before, n, z);
        } else if z > x {
          assert Pointer(badR[..], inner, n, z);
        }
      }
    }

    /** The positions from L to R that are still free get the value val. */
    method AssignRange(L: nat, R: nat, val: int)
      requires Valid() && Pointers(1) && 1 <= L && R <= n && val != n + 1
      modifies badR, dsuNext
      ensures Pointers(1)
      ensures Assigned(old(badR[..]), badR[..], L, R, val, n + 1)
    {
      hide Pointers, NextFree;
      if L > R {
        return;
      }
      ghost var was := badR[..];
      var x := FindFrom(L);
      while x <= R
        invariant L <= x <= n + 1 && Pointers(1)
        invariant x <= n ==> badR[x] == n + 1
        invariant forall y | 0 <= y < n + 2 ::
                    badR[y] == if L <= y <= R && y < x && was[y] == n + 1 then val else was[y]
        invariant forall y | L <= y < x && y <= n :: badR[y] != n + 1
        decreases n + 1 - x
      {
        x := TakeFree(x, val);
      }
    }

    /** badR[l] becomes the first right end at which the direct reduction from l fails. */
    method BuildBadR()
      requires Valid() && forall l | 1 <= l <= n :: badR[l] == n + 1
      modifies badR, dsuNext
      ensures BadUpTo(s, badR[..], n)
    {
      for i := 1 to n + 2
        invariant forall k | 1 <= k < i :: dsuNext[k] == k
        invariant forall l | 1 <= l <= n :: badR[l] == n + 1
      {
        dsuNext[i] := i;
      }
      var st: seq<(nat, char)> := [];
      for i := 1 to n + 1
        invariant Pointers(1)
        invariant OnStack(st, s, Global(s, i - 1))
        invariant BadUpTo(s, badR[..], i - 1)
      {
        hide FirstBad, Pointers, Global, OnStack, BadUpTo, PowerTable, InRange;
        st := ReadBracket(i, st);
      }
    }

    /** The body of that loop. */
    method ReadBracket(i: nat, st: seq<(nat, char)>) returns (st': seq<(nat, char)>)
      requires Valid() && 1 <= i <= n && Pointers(1)
      requires OnStack(st, s, Global(s, i - 1)) && BadUpTo(s, badR[..], i - 1)
      modifies badR, dsuNext
      ensures Pointers(1) && OnStack(st', s, Global(s, i)) && BadUpTo(s, badR[..], i)
    {
      OnStackStep(st, s, i);
      assert badR.Length == |s| + 1;
      hide FirstBad, Pointers, Global, OnStack, IsOpen, IsMatch, BadUpTo, Valid;
      var c := s[i];
      if IsOpen(c) {
        BadAfterOpen(s, i, badR[..]);
        st' := st + [(i, c)];
      } else if st != [] && IsMatch(st[|st| - 1].1, c) {
        st' := st[..|st| - 1];
        FailFrom(i, st[|st| - 1].0 + 1);
      } else {
        st' := [];
        FailFrom(i, 1);
      }
    }

    /** A closing bracket fails the left ends that have not failed before, from the given one on. */
    method FailFrom(i: nat, from: nat)
      requires Valid() && 1 <= i <= n && Pointers(1) && BadUpTo(s, badR[..], i - 1) && !IsOpen(s[i])
      requires var g := Global(s, i - 1);
               from == if g != [] && IsMatch(s[g[|g| - 1]], s[i]) then g[|g| - 1] + 1 else 1
      modifies badR, dsuNext
      ensures Pointers(1) && BadUpTo(s, badR[..], i)
    {
      assert badR.Length == |s| + 1 == n + 2;
      hide FirstBad, Pointers, Global, IsOpen, IsMatch, BadUpTo, Valid, Assigned;
      ghost var was := badR[..];
      AssignRange(from, i, i);
      BadAfterClose(s, i, was, badR[..], from);
    }

    /** How often each hash is the residue of a query, for the queries whose residue is all open brackets. */
    method CollectLeftLike() returns (cnt: map<Hash2, int>)
      requires Valid() && forall l | 1 <= l <= n :: badR[l] == n + 1
      modifies badR, dsuNext
      ensures Tallies(cnt, Residues(s, qs, n))
    {
      BuildBadR();
      var qByR := GroupByRight();
      var st: seq<(nat, char)> := [];
      var posStk: seq<nat> := [];
      var pre := [Hash2(0, 0)];
      cnt := map[];
      NoResiduesAtZero(s, qs);
      for r := 1 to n + 1
        invariant BadUpTo(s, badR[..], n)
        invariant posStk == Global(s, r - 1) && OnStack(st, s, posStk) && Stacked(s, posStk, pre)
        invariant Tallies(cnt, Residues(s, qs, r - 1))
      {
        hide FirstBad, Global, OnStack, Stacked, BadUpTo, PowerTable, InRange, Residues, Tallies, ResiduesOf;
        st, posStk, pre := Advance(r, st, posStk, pre);
        cnt := AnswerQueries(r, qByR[r], posStk, pre, cnt, Residues(s, qs, r - 1));
        ResiduesStep(s, qs, r);
      }
    }

    /** The stacks after one more character. */
    method Advance(r: nat, st: seq<(nat, char)>, posStk: seq<nat>, pre: seq<Hash2>)
      returns (st': seq<(nat, char)>, posStk': seq<nat>, pre': seq<Hash2>)
      requires Valid() && 1 <= r <= n
      requires posStk == Global(s, r - 1) && OnStack(st, s, posStk) && Stacked(s, posStk, pre)
      ensures posStk' == Global(s, r) && OnStack(st', s, posStk') && Stacked(s, posStk', pre')
    {
      var c := s[r];
      st', posStk', pre' := st, posStk, pre;
      OnStackStep(st, s, r);
      if IsOpen(c) {
        PushStacked(s, posStk, pre, r);
        hide Global, OnStack, Stacked, CodeOf, AddH, MulH, IsOpen, IsMatch;
        st' := st + [(r, c)];
        posStk' := posStk + [r];
        var v := Hash2(CodeOf(c), CodeOf(c));
        pre' := pre + [AddH(MulH(pre[|pre| - 1], Hash2(BASE1, BASE2)), v)];
      } else if st != [] && IsMatch(st[|st| - 1].1, c) {
        PopStacked(s, posStk, pre);
        assert |pre| == |posStk| + 1;
        hide Global, OnStack, Stacked, IsOpen, IsMatch;
        st' := st[..|st| - 1];
        posStk' := posStk[..|posStk| - 1];
        pre' := pre[..|pre| - 1];
      } else {
        EmptyStacked(s);
        hide Global, OnStack, Stacked, IsOpen, IsMatch;
        st', posStk', pre' := [], [], [Hash2(0, 0)];
      }
    }

    /** The lists of query ids by right end. */
    method GroupByRight() returns (qByR: seq<seq<nat>>)
      requires Valid()
      ensures |qByR| == n + 1 && forall r | 0 <= r <= n :: qByR[r] == Bucket(qs, r)
    {
      qByR := seq(n + 1, _ => []);
      for i := 0 to |qs|
        invariant |qByR| == n + 1 && forall r | 0 <= r <= n :: qByR[r] == Bucket(qs[..i], r)
      {
        assert qs[..i + 1][..i] == qs[..i];
        qByR := qByR[qs[i].r := qByR[qs[i].r] + [i]];
      }
      assert qs[..|qs|] == qs;
    }

    /** std::lower_bound on the increasing positions. */
    method LowerBound(xs: seq<nat>, l: nat) returns (idx: nat)
      requires Increasing(xs)
      ensures idx <= |xs| && (forall k | 0 <= k < idx :: xs[k] < l) && forall k | idx <= k < |xs| :: xs[k] >= l
    {
      var lo, hi := 0, |xs|;
      while lo < hi
        invariant 0 <= lo <= hi <= |xs|
        invariant (forall k | 0 <= k < lo :: xs[k] < l) && forall k | hi <= k < |xs| :: xs[k] >= l
      {
        var mid := (lo + hi) / 2;
        if xs[mid] < l {
          lo := mid + 1;
        } else {
          hi := mid;
        }
      }
      idx := lo;
    }

    /** The queries that end at r, answered from the stacks as they stand. */
    method AnswerQueries(r: nat, ids: seq<nat>, posStk: seq<nat>, pre: seq<Hash2>, before: map<Hash2, int>, ghost m: multiset<Hash2>)
      returns (cnt: map<Hash2, int>)
      requires Valid() && 1 <= r <= n && ids == Bucket(qs, r)
      requires BadUpTo(s, badR[..], n)
      requires posStk == Global(s, r) && Stacked(s, posStk, pre)
      requires Tallies(before, m)
      ensures Tallies(cnt, m + ResiduesOf(s, qs, ids))
    {
      cnt := before;
      hide FirstBad, Global, Stacked, BadUpTo, PowerTable;
      for k := 0 to |ids|
        invariant Tallies(cnt, m + ResiduesOf(s, qs, ids[..k]))
      {
        hide ResiduesOf, Answer, Tallies, Bucket;
        var h := AnswerQuery(r, qs[ids[k]], posStk, pre);
        TallyStep(s, qs, ids, k, cnt, m);
        if h.None? {
          continue;
        }
        cnt := cnt[h.value := (if h.value in cnt then cnt[h.value] else 0) + 1];
      }
      assert ids[..|ids|] == ids;
    }

    /** One query; None when its reduction fails. */
    method AnswerQuery(r: nat, q: Query, posStk: seq<nat>, pre: seq<Hash2>) returns (h: Option<Hash2>)
      requires Valid() && 1 <= q.l <= n && q.r == r && 1 <= r <= n
      requires BadUpTo(s, badR[..], n)
      requires posStk == Global(s, r) && Stacked(s, posStk, pre)
      ensures h == Answer(s, q)
    {
      FirstBadIsFirst(s, q.l, n, r);
      GlobalIncreases(s, r);
      assert badR[..][q.l] == FirstBad(s, q.l, n);
      hide FirstBad, Global, Stacked, BadUpTo, HashOf, Bucket;
      if r >= badR[q.l] {
        return None;
      }
      var idx := LowerBound(posStk, q.l);
      QueryIsAnswered(s, q, posStk, pre, idx, pw);
      h := Some(GetSuffixHash(pre, idx, |posStk|, pw));
    }
  }
}
