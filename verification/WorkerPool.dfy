/** The shared pool of judge workers: round robin over those that are not cooling down. */
module WorkerPool {
  import opened Text
  import opened JudgeProtocol

  /** unavailable_until of each worker and the index at which the next scan starts. */
  datatype Pool = Pool(until: seq<int>, next: nat)
  {
    predicate Valid() {
      next < |until|
    }
  }

  /** One lock section of some thread. */
  datatype Event = Select(now: int) | Fail(worker: nat, now: int)

  /** The division with remainder is unique. */
  lemma ModuloUnique(a: nat, q: nat, r: nat, n: nat)
    requires r < n && a == n * q + r
    ensures a % n == r && a / n == q
  {
    var p := a / n;
    assert a == n * p + a % n;
    Steps(n, q, p);
    Steps(n, p, q);
  }

  lemma Steps(n: nat, a: nat, b: nat)
    ensures a < b ==> n * a + n <= n * b
  {
    if a < b {
      assert n * b == n * (a + 1) + n * (b - a - 1);
    }
  }

  /** x modulo n, for x below 2n. */
  function Wrap(x: nat, n: nat): (r: nat)
    requires x < 2 * n
    ensures r < n
  {
    if x < n then x else x - n
  }

  lemma WrapIsModulo(x: nat, n: nat)
    requires x < 2 * n
    ensures x % n == Wrap(x, n)
  {
    if x < n {
      ModuloUnique(x, 0, x, n);
    } else {
      ModuloUnique(x, 1, x - n, n);
    }
  }

  /** The worker at offset `k` of a scan. */
  function At(p: Pool, k: nat): (i: nat)
    requires p.Valid() && k < |p.until|
    ensures i < |p.until|
  {
    Wrap(p.next + k, |p.until|)
  }

  /** The smallest offset from `k` on at which a worker is available. */
  function Scan(p: Pool, now: int, k: nat): (r: Option<nat>)
    requires p.Valid() && k <= |p.until|
    ensures r.Some? ==> k <= r.value < |p.until| && p.until[At(p, r.value)] <= now
    ensures forall j | k <= j < |p.until| && p.until[At(p, j)] <= now :: r.Some? && r.value <= j
    decreases |p.until| - k
  {
    if k == |p.until| then None
    else if p.until[At(p, k)] <= now then Some(k)
    else Scan(p, now, k + 1)
  }

  lemma ScanStep(p: Pool, now: int, k: nat)
    requires p.Valid() && k < |p.until|
    ensures var n, i := |p.until|, At(p, k);
            && (p.next + k) % n == i && (i + 1) % n == Wrap(i + 1, n)
            && Scan(p, now, k) == if p.until[i] <= now then Some(k) else Scan(p, now, k + 1)
  {
    WrapIsModulo(p.next + k, |p.until|);
    WrapIsModulo(At(p, k) + 1, |p.until|);
  }

  lemma ScanEnd(p: Pool, now: int)
    requires p.Valid()
    ensures Scan(p, now, |p.until|).None?
  {
  }

  function Chosen(p: Pool, now: int): (r: Option<nat>)
    requires p.Valid()
    ensures r.Some? ==> r.value < |p.until| && p.until[r.value] <= now
  {
    match Scan(p, now, 0)
    case None => None
    case Some(k) => Some(At(p, k))
  }

  function Apply(p: Pool, e: Event, cooldown: int): (p': Pool)
    requires p.Valid()
    ensures p'.Valid() && |p'.until| == |p.until|
  {
    match e
    case Select(now) =>
      (match Chosen(p, now) case None => p case Some(i) => p.(next := Wrap(i + 1, |p.until|)))
    case Fail(i, now) =>
      if i < |p.until| then p.(until := p.until[i := now + cooldown]) else p
  }

  function Run(p: Pool, es: seq<Event>, cooldown: int): (p': Pool)
    requires p.Valid()
    ensures p'.Valid() && |p'.until| == |p.until|
    decreases |es|
  {
    if es == [] then p else Run(Apply(p, es[0], cooldown), es[1..], cooldown)
  }

  // ---- Starvation freedom ------------------------------------------------

  /** How many workers the next scan passes before it reaches `w`. */
  function Distance(p: Pool, w: nat): (d: nat)
    requires p.Valid() && w < |p.until|
    ensures d < |p.until| && At(p, d) == w
  {
    if w >= p.next then w - p.next else w + |p.until| - p.next
  }

  /** The worker can be chosen at every selection of the run. */
  predicate StaysAvailable(p: Pool, es: seq<Event>, w: nat, cooldown: int)
    requires p.Valid() && w < |p.until|
    decreases |es|
  {
    es == [] ||
    ((es[0].Select? ==> p.until[w] <= es[0].now) && StaysAvailable(Apply(p, es[0], cooldown), es[1..], w, cooldown))
  }

  function Picks(p: Pool, es: seq<Event>, cooldown: int): seq<nat>
    requires p.Valid()
    decreases |es|
  {
    if es == [] then []
    else
      (if es[0].Select? && Chosen(p, es[0].now).Some? then [Chosen(p, es[0].now).value] else [])
      + Picks(Apply(p, es[0], cooldown), es[1..], cooldown)
  }

  function Selections(es: seq<Event>): nat {
    if es == [] then 0 else (if es[0].Select? then 1 else 0) + Selections(es[1..])
  }

  /** A selection that passes an available worker by brings the scan nearer to it. */
  lemma DistanceFalls(p: Pool, now: int, w: nat, cooldown: int)
    requires p.Valid() && w < |p.until| && p.until[w] <= now
    ensures Chosen(p, now).Some?
    ensures Chosen(p, now) != Some(w) ==> Distance(Apply(p, Select(now), cooldown), w) < Distance(p, w)
  {
    var d := Distance(p, w);
    assert p.until[At(p, d)] <= now;
    var k := Scan(p, now, 0).value;
    assert k <= d;
  }

  lemma {:induction false} PassedByAtMostDistance(p: Pool, es: seq<Event>, w: nat, cooldown: int)
    requires p.Valid() && w < |p.until|
    requires StaysAvailable(p, es, w, cooldown) && w !in Picks(p, es, cooldown)
    ensures Selections(es) + Distance(Run(p, es, cooldown), w) <= Distance(p, w)
    decreases |es|
  {
    if es != [] {
      if es[0].Select? {
        DistanceFalls(p, es[0].now, w, cooldown);
        var first := Chosen(p, es[0].now).value;
        assert first == Picks(p, es, cooldown)[0];
      }
      assert Picks(p, es, cooldown) ==
        (if es[0].Select? && Chosen(p, es[0].now).Some? then [Chosen(p, es[0].now).value] else [])
        + Picks(Apply(p, es[0], cooldown), es[1..], cooldown);
      PassedByAtMostDistance(Apply(p, es[0], cooldown), es[1..], w, cooldown);
    }
  }

  /** Under any interleaving of threads an available worker is chosen within n selections. */
  lemma NoStarvation(p: Pool, es: seq<Event>, w: nat, cooldown: int)
    requires p.Valid() && w < |p.until| && StaysAvailable(p, es, w, cooldown)
    requires Selections(es) >= |p.until|
    ensures w in Picks(p, es, cooldown)
  {
    if w !in Picks(p, es, cooldown) {
      PassedByAtMostDistance(p, es, w, cooldown);
    }
  }

  // ---- Cooling down ------------------------------------------------------

  function Time(e: Event): int {
    match e case Select(now) => now case Fail(_, now) => now
  }

  /** Nothing of the run happens before the given moment. */
  predicate NotBefore(es: seq<Event>, moment: int) {
    forall i | 0 <= i < |es| :: moment <= Time(es[i])
  }

  predicate NeverFails(es: seq<Event>, w: nat) {
    forall i | 0 <= i < |es| :: es[i].Fail? ==> es[i].worker != w
  }

  lemma {:induction false} CoolsAtLeast(p: Pool, es: seq<Event>, w: nat, moment: int, cooldown: int)
    requires p.Valid() && w < |p.until| && NotBefore(es, moment) && p.until[w] >= moment + cooldown
    ensures Run(p, es, cooldown).until[w] >= moment + cooldown
    decreases |es|
  {
    if es != [] {
      assert moment <= Time(es[0]);
      assert forall i | 0 <= i < |es[1..]| :: es[1..][i] == es[i + 1];
      CoolsAtLeast(Apply(p, es[0], cooldown), es[1..], w, moment, cooldown);
    }
  }

  lemma {:induction false} CoolsAtMost(p: Pool, es: seq<Event>, w: nat, cooldown: int)
    requires p.Valid() && w < |p.until| && NeverFails(es, w)
    ensures Run(p, es, cooldown).until[w] == p.until[w]
    decreases |es|
  {
    if es != [] {
      assert es[0].Fail? ==> es[0].worker != w;
      assert forall i | 0 <= i < |es[1..]| :: es[1..][i] == es[i + 1];
      CoolsAtMost(Apply(p, es[0], cooldown), es[1..], w, cooldown);
    }
  }

  /** A worker that failed is left alone until its cooldown is over, whatever happens in the meantime. */
  lemma LeftAlone(p: Pool, w: nat, failed: int, es: seq<Event>, now: int, cooldown: int)
    requires p.Valid() && w < |p.until| && NotBefore(es, failed) && now < failed + cooldown
    ensures Chosen(Run(Apply(p, Fail(w, failed), cooldown), es, cooldown), now) != Some(w)
  {
    CoolsAtLeast(Apply(p, Fail(w, failed), cooldown), es, w, failed, cooldown);
  }

  lemma {:induction false} CooledStaysAvailable(p: Pool, es: seq<Event>, w: nat, moment: int, cooldown: int)
    requires p.Valid() && w < |p.until| && p.until[w] <= moment && NotBefore(es, moment) && NeverFails(es, w)
    ensures StaysAvailable(p, es, w, cooldown)
    decreases |es|
  {
    if es != [] {
      assert moment <= Time(es[0]) && (es[0].Fail? ==> es[0].worker != w);
      assert forall i | 0 <= i < |es[1..]| :: es[1..][i] == es[i + 1];
      CooledStaysAvailable(Apply(p, es[0], cooldown), es[1..], w, moment, cooldown);
    }
  }

  /** From then on, unless it failed again, it is served like any other: within n selections. */
  lemma ServedAgain(p: Pool, w: nat, failed: int, es: seq<Event>, more: seq<Event>, cooldown: int)
    requires p.Valid() && w < |p.until| && NeverFails(es, w)
    requires NotBefore(more, failed + cooldown) && NeverFails(more, w) && Selections(more) >= |p.until|
    ensures w in Picks(Run(Apply(p, Fail(w, failed), cooldown), es, cooldown), more, cooldown)
  {
    var q := Apply(p, Fail(w, failed), cooldown);
    CoolsAtMost(q, es, w, cooldown);
    CooledStaysAvailable(Run(q, es, cooldown), more, w, failed + cooldown, cooldown);
    NoStarvation(Run(q, es, cooldown), more, w, cooldown);
  }

  // ---- Fairness ----------------------------------------------------------

  /** At every selection of the run nobody is cooling down. */
  predicate NobodyCools(p: Pool, es: seq<Event>, cooldown: int)
    requires p.Valid()
    decreases |es|
  {
    es == [] ||
    ((es[0].Select? ==> forall w | 0 <= w < |p.until| :: p.until[w] <= es[0].now)
     && NobodyCools(Apply(p, es[0], cooldown), es[1..], cooldown))
  }

  /** The first k picks of a plain round robin that starts at `next`. */
  function RoundRobin(next: nat, n: nat, k: nat): (s: seq<nat>)
    requires next < n
    ensures |s| == k
    decreases k
  {
    if k == 0 then [] else [next] + RoundRobin(Wrap(next + 1, n), n, k - 1)
  }

  lemma ModuloShift(a: nat, j: nat, n: nat)
    requires n > 0
    ensures (a % n + j) % n == (a + j) % n
  {
    var t := a % n + j;
    assert a == n * (a / n) + a % n && t == n * (t / n) + t % n;
    assert n * (a / n + t / n) == n * (a / n) + n * (t / n);
    ModuloUnique(a + j, a / n + t / n, t % n, n);
  }

  lemma {:induction false} RoundRobinAt(next: nat, n: nat, k: nat, j: nat)
    requires next < n && j < k
    ensures RoundRobin(next, n, k)[j] == (next + j) % n
    decreases k
  {
    WrapIsModulo(next, n);
    if j > 0 {
      RoundRobinAt(Wrap(next + 1, n), n, k - 1, j - 1);
      WrapIsModulo(next + 1, n);
      ModuloShift(next + 1, j - 1, n);
    }
  }

  lemma {:induction false} PicksAreRoundRobin(p: Pool, es: seq<Event>, cooldown: int)
    requires p.Valid() && NobodyCools(p, es, cooldown)
    ensures Picks(p, es, cooldown) == RoundRobin(p.next, |p.until|, Selections(es))
    decreases |es|
  {
    if es != [] {
      PicksAreRoundRobin(Apply(p, es[0], cooldown), es[1..], cooldown);
      if es[0].Select? {
        assert At(p, 0) == p.next;
        assert Scan(p, es[0].now, 0) == Some(0);
      }
    }
  }

  function Count(s: seq<nat>, w: nat): nat {
    if s == [] then 0 else (if s[0] == w then 1 else 0) + Count(s[1..], w)
  }

  /** With `d` still to pass, w has been served floor((k + n - 1 - d) / n) times after k picks. */
  lemma {:induction false} RoundRobinCount(next: nat, n: nat, k: nat, w: nat)
    requires next < n && w < n
    ensures var d := if w >= next then w - next else w + n - next;
            var c := Count(RoundRobin(next, n, k), w);
            n * c <= k + n - 1 - d < n * c + n
    decreases k
  {
    if k > 0 {
      var rest := RoundRobin(Wrap(next + 1, n), n, k - 1);
      RoundRobinCount(Wrap(next + 1, n), n, k - 1, w);
      assert RoundRobin(next, n, k)[1..] == rest;
      assert n * (Count(rest, w) + 1) == n * Count(rest, w) + n;
    }
  }

  /** With nobody cooling, any k selections give each worker floor or ceiling of k / n of them. */
  lemma FairShares(p: Pool, es: seq<Event>, w: nat, cooldown: int)
    requires p.Valid() && w < |p.until| && NobodyCools(p, es, cooldown)
    ensures var k, n := Selections(es), |p.until|;
            k / n <= Count(Picks(p, es, cooldown), w) <= (k + n - 1) / n
  {
    var k, n := Selections(es), |p.until|;
    PicksAreRoundRobin(p, es, cooldown);
    RoundRobinCount(p.next, n, k, w);
    var c := Count(Picks(p, es, cooldown), w);
    assert n * c <= k + n - 1 && k < n * c + n;
    DivisionBounds(k, n, c);
  }

  lemma DivisionBounds(k: nat, n: nat, c: nat)
    requires n > 0 && n * c <= k + n - 1 && k < n * c + n
    ensures k / n <= c <= (k + n - 1) / n
  {
    var q := k / n;
    assert k == n * q + k % n;
    Steps(n, c, q);
    var r := (k + n - 1) / n;
    assert k + n - 1 == n * r + (k + n - 1) % n;
    Steps(n, r, c);
  }

  // ---- The selector of the dispatcher utilities ---------------------------

  const COUNTER_LIMIT: nat := 0x1_0000_0000_0000_0000

  /** RoundRobinSelector: a 64-bit counter that is never reduced. */
  class RoundRobinSelector {
    const n: nat
    var nextIndex: nat

    predicate Valid()
      reads this
    {
      n > 0 && nextIndex < COUNTER_LIMIT
    }

    constructor (endpoints: nat)
      ensures Valid() && n == (if endpoints == 0 then 1 else endpoints) && nextIndex == 0
    {
      n := if endpoints == 0 then 1 else endpoints;
      nextIndex := 0;
    }

    method Next() returns (index: nat)
      requires Valid()
      modifies this
      ensures Valid() && index == old(nextIndex) % n && nextIndex == (old(nextIndex) + 1) % COUNTER_LIMIT
    {
      index := nextIndex % n;
      nextIndex := (nextIndex + 1) % COUNTER_LIMIT;
    }
  }

  /** The j-th pick of the selector from counter value `start` on. */
  function SelectorPick(start: nat, j: nat, n: nat): nat
    requires n > 0
  {
    ((start + j) % COUNTER_LIMIT) % n
  }

  lemma PickAtCounter(start: nat, i: nat, n: nat)
    requires n > 0
    ensures var counter := (start + i) % COUNTER_LIMIT;
            counter % n == SelectorPick(start, i, n) && (counter + 1) % COUNTER_LIMIT == (start + i + 1) % COUNTER_LIMIT
  {
  }

  /** That is what successive calls of next() return. */
  method Draw(selector: RoundRobinSelector, k: nat) returns (picks: seq<nat>)
    requires selector.Valid()
    modifies selector
    ensures selector.Valid() && |picks| == k
    ensures forall j | 0 <= j < k :: picks[j] == SelectorPick(old(selector.nextIndex), j, selector.n)
  {
    picks := [];
    hide SelectorPick;
    for i := 0 to k
      invariant selector.Valid() && |picks| == i
      invariant selector.nextIndex == (old(selector.nextIndex) + i) % COUNTER_LIMIT
      invariant forall j | 0 <= j < i :: picks[j] == SelectorPick(old(selector.nextIndex), j, selector.n)
    {
      PickAtCounter(old(selector.nextIndex), i, selector.n);
      var pick := selector.Next();
      picks := picks + [pick];
    }
  }

  lemma SelectorAgrees(start: nat, n: nat, j: nat)
    requires n > 0 && start < COUNTER_LIMIT && j < COUNTER_LIMIT
    ensures SelectorPick(start, j, n) == (start % n + j) % n <==>
            start + j < COUNTER_LIMIT || COUNTER_LIMIT % n == 0
  {
    var x := start + j;
    ModuloShift(start, j, n);
    if x >= COUNTER_LIMIT {
      var y := x - COUNTER_LIMIT;
      assert x % COUNTER_LIMIT == y;
      ModuloOfSum(y, COUNTER_LIMIT, n);
    }
  }

  /** One selection of the pool and the call of the selector that stands at the same place. */
  lemma PickAgrees(p: Pool, es: seq<Event>, cooldown: int, start: nat, j: nat)
    requires p.Valid() && NobodyCools(p, es, cooldown) && j < Selections(es)
    requires start < COUNTER_LIMIT && j < COUNTER_LIMIT && start % |p.until| == p.next
    ensures |Picks(p, es, cooldown)| == Selections(es)
    ensures Picks(p, es, cooldown)[j] == SelectorPick(start, j, |p.until|) <==>
            start + j < COUNTER_LIMIT || COUNTER_LIMIT % |p.until| == 0
  {
    PicksAreRoundRobin(p, es, cooldown);
    RoundRobinAt(p.next, |p.until|, Selections(es), j);
    SelectorAgrees(start, |p.until|, j);
  }

  /**
   * With nobody cooling down, pool and selector that start at the same worker make the same picks, up to
   * 2^64 of them, if and only if the counter does not wrap or the number of workers divides 2^64.
   */
  lemma SamePicks(p: Pool, es: seq<Event>, cooldown: int, start: nat)
    requires p.Valid() && NobodyCools(p, es, cooldown) && Selections(es) <= COUNTER_LIMIT
    requires start < COUNTER_LIMIT && start % |p.until| == p.next
    ensures |Picks(p, es, cooldown)| == Selections(es)
    ensures (forall j | 0 <= j < Selections(es) :: Picks(p, es, cooldown)[j] == SelectorPick(start, j, |p.until|)) <==>
            start + Selections(es) <= COUNTER_LIMIT || COUNTER_LIMIT % |p.until| == 0
  {
    var k := Selections(es);
    PicksAreRoundRobin(p, es, cooldown);
    hide Picks, SelectorPick, NobodyCools, Selections;
    forall j | 0 <= j < k
      ensures Picks(p, es, cooldown)[j] == SelectorPick(start, j, |p.until|) <==>
              start + j < COUNTER_LIMIT || COUNTER_LIMIT % |p.until| == 0
    {
      PickAgrees(p, es, cooldown, start, j);
    }
    if start + k > COUNTER_LIMIT {
      var last := k - 1;
      assert Picks(p, es, cooldown)[last] == SelectorPick(start, last, |p.until|) <==> COUNTER_LIMIT % |p.until| == 0;
    }
  }

  lemma ModuloOfSum(y: nat, m: nat, n: nat)
    requires n > 0
    ensures y % n == (y + m) % n <==> m % n == 0
  {
    ModuloShift(m, y, n);
    ModuloShift(y, m % n, n);
    var r, s := y % n, m % n;
    assert (y + m) % n == (r + s) % n;
    WrapIsModulo(r + s, n);
  }

  // ---- One judging call --------------------------------------------------

  datatype Reply = Response(verdict: Verdict) | Error(reason: string)

  datatype Outcome = Answered(verdict: Verdict) | Thrown(reason: string)

  const ALL_UNAVAILABLE := "all judge workers are temporarily unavailable"
  const ALL_FAILED := "all judge workers failed"

  /** The clock runs forward through the lock sections of a call and what happens between them. */
  ghost predicate Forward(clock: nat -> int, others: nat -> seq<Event>) {
    (forall k, l | 0 <= k <= l :: clock(k) <= clock(l)) && forall k: nat :: NotBefore(others(k + 1), clock(k))
  }

  /** The reasons of the first n replies, as the message of the exception lists them. */
  function Reasons(replies: nat -> Reply, n: nat): string {
    if n == 0 || replies(n - 1).Response? then ""
    else if n == 1 then replies(0).reason
    else Reasons(replies, n - 1) + "; " + replies(n - 1).reason
  }

  lemma ReasonsMore(replies: nat -> Reply, n: nat)
    ensures replies(n).Error? ==>
              Reasons(replies, n + 1) == if n == 0 then replies(0).reason else Reasons(replies, n) + "; " + replies(n).reason
  {
  }

  /** Whatever worker failed in attempt i is unavailable until the time of its failure plus the cooldown. */
  ghost predicate StillCooling(until: seq<int>, tried: seq<nat>, clock: nat -> int, replies: nat -> Reply, cooldown: int) {
    forall i | 0 <= i < |tried| && replies(i).Error? ::
      tried[i] < |until| && clock(2 * i + 1) + cooldown <= until[tried[i]]
  }

  /** A worker is tried again in the same call only when its cooldown is over. */
  ghost predicate Spaced(tried: seq<nat>, clock: nat -> int, cooldown: int) {
    forall i, j | 0 <= i < j < |tried| && tried[i] == tried[j] :: clock(2 * i + 1) + cooldown <= clock(2 * j)
  }

  lemma NobodyTried(until: seq<int>, clock: nat -> int, replies: nat -> Reply, cooldown: int)
    ensures StillCooling(until, [], clock, replies, cooldown) && Spaced([], clock, cooldown) && Reasons(replies, 0) == ""
  {
  }

  lemma InterferenceCools(
      p: Pool, tried: seq<nat>, k: nat, clock: nat -> int, others: nat -> seq<Event>, replies: nat -> Reply, cooldown: int)
    requires p.Valid() && k >= 2 * |tried|
    ensures Forward(clock, others) && StillCooling(p.until, tried, clock, replies, cooldown) ==>
              StillCooling(Run(p, others(k), cooldown).until, tried, clock, replies, cooldown)
  {
    if Forward(clock, others) && StillCooling(p.until, tried, clock, replies, cooldown) {
      forall i | 0 <= i < |tried| && replies(i).Error?
        ensures clock(2 * i + 1) + cooldown <= Run(p, others(k), cooldown).until[tried[i]]
      {
        var before := k - 1;
        assert NotBefore(others(before + 1), clock(before)) && clock(2 * i + 1) <= clock(before);
        CoolsAtLeast(p, others(k), tried[i], clock(2 * i + 1), cooldown);
      }
    }
  }

  lemma NobodyIsAvailable(p: Pool, now: int)
    requires p.Valid()
    ensures Chosen(p, now).None? ==> forall w | 0 <= w < |p.until| :: now < p.until[w]
  {
    if Chosen(p, now).None? {
      forall w: nat | w < |p.until| ensures now < p.until[w] {
        assert p.until[At(p, Distance(p, w))] > now;
      }
    }
  }

  lemma TriedAgain(until: seq<int>, tried: seq<nat>, selected: nat, clock: nat -> int, replies: nat -> Reply, cooldown: int)
    requires selected < |until| && until[selected] <= clock(2 * |tried|)
    requires forall i | 0 <= i < |tried| :: replies(i).Error?
    ensures StillCooling(until, tried, clock, replies, cooldown) ==>
              && (Spaced(tried, clock, cooldown) ==> Spaced(tried + [selected], clock, cooldown))
              && (replies(|tried|).Response? ==> StillCooling(until, tried + [selected], clock, replies, cooldown))
  {
  }

  lemma FailureCools(
      until: seq<int>, tried: seq<nat>, selected: nat, clock: nat -> int, others: nat -> seq<Event>,
      replies: nat -> Reply, cooldown: int)
    requires selected < |until|
    ensures Forward(clock, others) && StillCooling(until, tried, clock, replies, cooldown) ==>
              StillCooling(until[selected := clock(2 * |tried| + 1) + cooldown], tried + [selected], clock, replies, cooldown)
  {
    if Forward(clock, others) {
      assert forall i: nat | i < |tried| :: clock(2 * i + 1) <= clock(2 * |tried| + 1);
    }
  }

  class WorkerPool {
    var until: seq<int>
    var next: nat
    const cooldown: int

    ghost predicate Valid()
      reads this
    {
      next < |until|
    }

    function State(): Pool
      reads this
    {
      Pool(until, next)
    }

    constructor (endpoints: nat, cooldown: int)
      ensures Valid() && this.cooldown == cooldown && next == 0
      ensures |until| == (if endpoints == 0 then 1 else endpoints) && forall i | 0 <= i < |until| :: until[i] == 0
    {
      this.cooldown := cooldown;
      until := seq(if endpoints == 0 then 1 else endpoints, _ => 0);
      next := 0;
    }

    /** The first lock section of an attempt. */
    method SelectWorker(now: int) returns (selected: nat)
      requires Valid()
      modifies this`next
      ensures Valid() && State() == Apply(old(State()), Select(now), cooldown)
      ensures match Chosen(old(State()), now) { case None => selected == |until| case Some(i) => selected == i }
    {
      selected := |until|;
      var offset := 0;
      ghost var p := State();
      ScanEnd(p, now);
      hide Scan, At, Wrap;
      while offset < |until|
        invariant 0 <= offset <= |until|
        invariant selected == |until| && State() == p && Scan(p, now, 0) == Scan(p, now, offset)
      {
        ScanStep(p, now, offset);
        var index := (next + offset) % |until|;
        if until[index] > now {
          offset := offset + 1;
          continue;
        }
        selected := index;
        next := (index + 1) % |until|;
        return;
      }
    }

    /** The second lock section: the worker that failed starts to cool down. */
    method CoolDown(worker: nat, now: int)
      requires Valid() && worker < |until|
      modifies this`until
      ensures Valid() && State() == Apply(old(State()), Fail(worker, now), cooldown)
      ensures until == old(until)[worker := now + cooldown]
    {
      until := until[worker := now + cooldown];
    }

    /** What other threads do between two lock sections of this one. */
    method Interfere(es: seq<Event>)
      requires Valid()
      modifies this
      ensures Valid() && State() == Run(old(State()), es, cooldown)
    {
      var i := 0;
      ghost var p := State();
      while i < |es|
        invariant 0 <= i <= |es| && Valid() && |until| == |p.until|
        invariant Run(State(), es[i..], cooldown) == Run(p, es, cooldown)
      {
        assert es[i..][0] == es[i] && es[i..][1..] == es[i + 1..];
        match es[i] {
          case Select(now) =>
            var _ := SelectWorker(now);
          case Fail(worker, now) =>
            if worker < |until| {
              CoolDown(worker, now);
            }
        }
        i := i + 1;
      }
    }

    /**
     * WorkerPool::judge. `clock` gives the time of each lock section, `others` what the other threads
     * did before it and `replies` what the chosen worker answered in each attempt.
     */
    method Judge(clock: nat -> int, others: nat -> seq<Event>, replies: nat -> Reply)
      returns (outcome: Outcome, tried: seq<nat>)
      requires Valid()
      modifies this
      ensures Valid() && |until| == old(|until|) && |tried| <= |until|
      ensures forall i | 0 <= i < |tried| :: tried[i] < |until|
      ensures match outcome {
                case Answered(verdict) =>
                  tried != [] && replies(|tried| - 1) == Response(verdict)
                  && forall i | 0 <= i < |tried| - 1 :: replies(i).Error?
                case Thrown(reason) =>
                  && IsTransientWorkerFailure(reason)
                  && (forall i | 0 <= i < |tried| :: replies(i).Error?)
                  && reason == (if tried == [] then "all judge workers are temporarily unavailable"
                                else "all judge workers failed" + (": " + Reasons(replies, |tried|)))
                  && (|tried| < |until| ==> forall w | 0 <= w < |until| :: clock(2 * |tried|) < until[w])
              }
      ensures Forward(clock, others) ==>
                StillCooling(until, tried, clock, replies, cooldown) && Spaced(tried, clock, cooldown)
    {
      hide Apply, Run, Chosen, IsTransientWorkerFailure, Forward, StillCooling, Spaced, Reasons;
      var errors := "";
      tried := [];
      NobodyTried(until, clock, replies, cooldown);
      while |tried| < |until|
        invariant Valid() && |until| == old(|until|) && |tried| <= |until|
        invariant forall i | 0 <= i < |tried| :: tried[i] < |until| && replies(i).Error?
        invariant errors == Reasons(replies, |tried|)
        invariant Forward(clock, others) ==>
                    StillCooling(until, tried, clock, replies, cooldown) && Spaced(tried, clock, cooldown)
      {
        ghost var n, before := |tried|, tried;
        InterferenceCools(State(), tried, 2 * n, clock, others, replies, cooldown);
        Interfere(others(2 * |tried|));
        NobodyIsAvailable(State(), clock(2 * n));
        var selected := SelectWorker(clock(2 * |tried|));
        if selected == |until| {
          break;
        }
        var reply := replies(|tried|);
        tried := tried + [selected];
        ReasonsMore(replies, n);
        TriedAgain(until, before, selected, clock, replies, cooldown);
        if reply.Response? {
          return Answered(reply.verdict), tried;
        }
        InterferenceCools(State(), before, 2 * n + 1, clock, others, replies, cooldown);
        Interfere(others(2 * |tried| - 1));
        FailureCools(until, before, selected, clock, others, replies, cooldown);
        CoolDown(selected, clock(2 * |tried| - 1));
        errors := if |tried| == 1 then reply.reason else errors + "; " + reply.reason;
      }
      ThrownIsTransient(": " + errors);
      outcome := Thrown(if tried == [] then ALL_UNAVAILABLE else ALL_FAILED + (": " + errors));
    }
  }

  /** Both failures that a non-empty pool throws are retried, not turned into a verdict. */
  lemma ThrownIsTransient(details: string)
    ensures IsTransientWorkerFailure(ALL_UNAVAILABLE)
    ensures IsTransientWorkerFailure(ALL_FAILED + details)
    ensures ALL_FAILED + details != ALL_UNAVAILABLE
  {
    assert OccursAt(ALL_UNAVAILABLE, ALL_UNAVAILABLE, 0);
    assert OccursAt(ALL_FAILED + details, ALL_FAILED, 0);
    assert (ALL_FAILED + details)[18] == 'f' && ALL_UNAVAILABLE[18] == 'a';
  }
}
