/** The MySQL connection pool: a mutex, a condition variable, idle connections and a counter. */
module ConnectionPool {

  type Thread = nat
  type Connection = nat

  /**
   * `idle` and `total` are the guarded state. A thread is in `opening` while it dials outside the
   * lock, in `waiting` while it sleeps on the condition variable, in `notified` from its wake-up
   * until it holds the lock again. `lent` maps every connection in use to the thread that holds it,
   * `next` numbers new ones.
   */
  datatype Pool = Pool(
    idle: seq<Connection>, total: int, opening: set<Thread>, waiting: set<Thread>, notified: set<Thread>,
    lent: map<Connection, Thread>, next: Connection)

  const EMPTY := Pool([], 0, {}, {}, {}, map[], 0)

  /**
   * The lock sections. `woken` is the thread that notify_one picks, when it has a choice; a spurious
   * wake-up is a step of its own.
   */
  datatype Step =
    | Enter(t: Thread)
    | Resume(t: Thread)
    | Spurious(t: Thread)
    | Opened(t: Thread)
    | OpenFailed(t: Thread, woken: Thread)
    | Release(c: Connection, woken: Thread)
    | ReleaseClosed(c: Connection, woken: Thread)

  /** The thread is inside create_connection. */
  predicate Knows(p: Pool, t: Thread) {
    t in p.opening || t in p.waiting || t in p.notified
  }

  predicate Enabled(p: Pool, step: Step) {
    match step
    case Enter(t) => !Knows(p, t)
    case Resume(t) => t in p.notified
    case Spurious(t) => t in p.waiting
    case Opened(t) => t in p.opening
    case OpenFailed(t, woken) => t in p.opening && (p.waiting != {} ==> woken in p.waiting)
    case Release(c, woken) => CanRelease(p, c) && (p.waiting != {} ==> woken in p.waiting)
    case ReleaseClosed(c, woken) => CanRelease(p, c) && (p.waiting != {} ==> woken in p.waiting)
  }

  /** A handle is dropped by the thread that holds it, which is not asking for another one meanwhile. */
  predicate CanRelease(p: Pool, c: Connection) {
    c in p.lent && !Knows(p, p.lent[c])
  }

  /** The loop guard and what follows it: take an idle connection, start to open one, or sleep. */
  function Acquire(p: Pool, t: Thread, max: nat): Pool {
    if p.idle == [] && p.total >= max then p.(waiting := p.waiting + {t})
    else if p.idle != [] then
      var c := p.idle[|p.idle| - 1];
      p.(idle := p.idle[..|p.idle| - 1], lent := p.lent[c := t])
    else p.(total := p.total + 1, opening := p.opening + {t})
  }

  function NotifyOne(p: Pool, woken: Thread): Pool {
    if woken in p.waiting then p.(waiting := p.waiting - {woken}, notified := p.notified + {woken}) else p
  }

  function Next(p: Pool, step: Step, max: nat): Pool
    requires Enabled(p, step)
  {
    match step
    case Enter(t) => Acquire(p, t, max)
    case Resume(t) => Acquire(p.(notified := p.notified - {t}), t, max)
    case Spurious(t) => p.(waiting := p.waiting - {t}, notified := p.notified + {t})
    case Opened(t) => p.(opening := p.opening - {t}, lent := p.lent[p.next := t], next := p.next + 1)
    case OpenFailed(t, woken) => NotifyOne(p.(opening := p.opening - {t}, total := p.total - 1), woken)
    case Release(c, woken) => NotifyOne(p.(idle := p.idle + [c], lent := p.lent - {c}), woken)
    case ReleaseClosed(c, woken) => NotifyOne(p.(lent := p.lent - {c}, total := p.total - 1), woken)
  }

  // ---- The invariant -----------------------------------------------------

  /** What a thread that looked now could still get. */
  function Free(p: Pool, max: nat): int {
    |p.idle| + max - p.total
  }

  ghost predicate Accounted(p: Pool, max: nat) {
    // Nothing leaks and the bound holds.
    && p.total == |p.idle| + |p.lent.Keys| + |p.opening| <= max
    // No connection is in two hands.
    && (forall i | 0 <= i < |p.idle| :: p.idle[i] < p.next && p.idle[i] !in p.lent)
    && (forall i, j | 0 <= i < j < |p.idle| :: p.idle[i] != p.idle[j])
    && (forall c | c in p.lent :: c < p.next)
    // A thread is in one place at a time.
    && p.opening !! p.waiting && p.waiting !! p.notified && p.opening !! p.notified
  }

  ghost predicate Inv(p: Pool, max: nat) {
    && Accounted(p, max)
    // No wake-up is lost: whoever sleeps un-notified is outnumbered by wake-ups under way.
    && (p.waiting != {} ==> Free(p, max) <= |p.notified|)
  }

  lemma AcquireIdle(p: Pool, t: Thread, max: nat)
    requires Accounted(p, max) && !Knows(p, t) && p.idle != []
    requires p.waiting != {} ==> Free(p, max) <= |p.notified| + 1
    ensures Inv(Acquire(p, t, max), max)
  {
    var c := p.idle[|p.idle| - 1];
    assert c !in p.lent;
    LendCounts(p.lent, c, t);
    assert Acquire(p, t, max) == p.(idle := p.idle[..|p.idle| - 1], lent := p.lent[c := t]);
    hide Acquire, Knows;
  }

  lemma AcquirePlace(p: Pool, t: Thread, max: nat)
    requires Accounted(p, max) && !Knows(p, t) && p.idle == [] && p.total < max
    requires p.waiting != {} ==> Free(p, max) <= |p.notified| + 1
    ensures Inv(Acquire(p, t, max), max)
  {
    assert Acquire(p, t, max) == p.(total := p.total + 1, opening := p.opening + {t});
    assert |p.opening + {t}| == |p.opening| + 1;
    hide Acquire;
  }

  /** Whoever looks takes a place or finds none, so one wake-up may have been used up before. */
  lemma AcquireInv(p: Pool, t: Thread, max: nat)
    requires Accounted(p, max) && !Knows(p, t)
    requires p.waiting != {} ==> Free(p, max) <= |p.notified| + 1
    ensures Inv(Acquire(p, t, max), max)
  {
    if p.idle != [] {
      hide Accounted, Inv, Acquire, Knows;
      AcquireIdle(p, t, max);
    } else if p.total < max {
      hide Accounted, Inv, Acquire, Knows;
      AcquirePlace(p, t, max);
    }
  }

  lemma LendCounts(lent: map<Connection, Thread>, c: Connection, t: Thread)
    requires c !in lent
    ensures lent[c := t].Keys == lent.Keys + {c} && |lent[c := t].Keys| == |lent.Keys| + 1
  {
    assert lent[c := t].Keys == lent.Keys + {c};
  }

  lemma ReturnCounts(lent: map<Connection, Thread>, c: Connection)
    requires c in lent
    ensures (lent - {c}).Keys == lent.Keys - {c} && |(lent - {c}).Keys| == |lent.Keys| - 1
  {
    assert (lent - {c}).Keys == lent.Keys - {c};
  }

  lemma ResumeInv(p: Pool, t: Thread, max: nat)
    requires Inv(p, max) && t in p.notified
    ensures Inv(Acquire(p.(notified := p.notified - {t}), t, max), max)
  {
    assert |p.notified - {t}| == |p.notified| - 1;
    AcquireInv(p.(notified := p.notified - {t}), t, max);
  }

  /** A place that falls free wakes somebody, if anybody sleeps. */
  lemma NotifyInv(p: Pool, woken: Thread, max: nat)
    requires Inv(p.(waiting := {}), max) && p.opening !! p.waiting && p.waiting !! p.notified
    requires p.waiting != {} ==> woken in p.waiting && Free(p, max) <= |p.notified| + 1
    ensures Inv(NotifyOne(p, woken), max)
  {
    if p.waiting != {} {
      assert |p.notified + {woken}| == |p.notified| + 1;
    }
  }

  lemma SpuriousInv(p: Pool, t: Thread, max: nat)
    requires Inv(p, max) && t in p.waiting
    ensures Inv(Next(p, Spurious(t), max), max)
  {
    assert |p.notified + {t}| == |p.notified| + 1;
  }

  lemma OpenedInv(p: Pool, t: Thread, max: nat)
    requires Inv(p, max) && t in p.opening
    ensures Inv(Next(p, Opened(t), max), max)
  {
    assert |p.opening - {t}| == |p.opening| - 1;
    LendCounts(p.lent, p.next, t);
  }

  lemma OpenFailedInv(p: Pool, t: Thread, woken: Thread, max: nat)
    requires Inv(p, max) && Enabled(p, OpenFailed(t, woken))
    ensures Inv(Next(p, OpenFailed(t, woken), max), max)
  {
    assert |p.opening - {t}| == |p.opening| - 1;
    NotifyInv(p.(opening := p.opening - {t}, total := p.total - 1), woken, max);
  }

  lemma ReleaseInv(p: Pool, c: Connection, woken: Thread, max: nat)
    requires Inv(p, max) && Enabled(p, Release(c, woken))
    ensures Inv(Next(p, Release(c, woken), max), max)
  {
    ReturnCounts(p.lent, c);
    var p' := p.(idle := p.idle + [c], lent := p.lent - {c});
    assert Inv(p'.(waiting := {}), max);
    NotifyInv(p', woken, max);
  }

  lemma CloseInv(p: Pool, c: Connection, woken: Thread, max: nat)
    requires Inv(p, max) && Enabled(p, ReleaseClosed(c, woken))
    ensures Inv(Next(p, ReleaseClosed(c, woken), max), max)
  {
    ReturnCounts(p.lent, c);
    NotifyInv(p.(lent := p.lent - {c}, total := p.total - 1), woken, max);
  }

  lemma StepInv(p: Pool, step: Step, max: nat)
    requires Inv(p, max) && Enabled(p, step)
    ensures Inv(Next(p, step, max), max)
  {
    assert Accounted(p, max) && (p.waiting != {} ==> Free(p, max) <= |p.notified| + 1);
    hide Inv, Accounted, Acquire, NotifyOne;
    match step
    case Enter(t) => AcquireInv(p, t, max);
    case Resume(t) => ResumeInv(p, t, max);
    case Spurious(t) => SpuriousInv(p, t, max);
    case Opened(t) => OpenedInv(p, t, max);
    case OpenFailed(t, woken) => OpenFailedInv(p, t, woken, max);
    case Release(c, woken) => ReleaseInv(p, c, woken, max);
    case ReleaseClosed(c, woken) => CloseInv(p, c, woken, max);
  }

  // ---- Runs --------------------------------------------------------------

  predicate IsRun(p: Pool, steps: seq<Step>, max: nat)
    decreases |steps|
  {
    steps == [] || (Enabled(p, steps[0]) && IsRun(Next(p, steps[0], max), steps[1..], max))
  }

  function After(p: Pool, steps: seq<Step>, max: nat): Pool
    requires IsRun(p, steps, max)
    decreases |steps|
  {
    if steps == [] then p else After(Next(p, steps[0], max), steps[1..], max)
  }

  lemma {:induction false} RunInv(p: Pool, steps: seq<Step>, max: nat)
    requires Inv(p, max) && IsRun(p, steps, max)
    ensures Inv(After(p, steps, max), max)
    decreases |steps|
  {
    hide Inv, Next, Enabled;
    if steps != [] {
      StepInv(p, steps[0], max);
      RunInv(Next(p, steps[0], max), steps[1..], max);
    }
  }

  /** The accounting holds after any interleaving, failed opens and closed connections included. */
  lemma PoolIsBounded(steps: seq<Step>, max: nat)
    requires IsRun(EMPTY, steps, max)
    ensures var p := After(EMPTY, steps, max);
            && p.total == |p.idle| + |p.lent.Keys| + |p.opening|
            && p.total <= max
            && (forall i, j | 0 <= i < j < |p.idle| :: p.idle[i] != p.idle[j])
            && (forall c | c in p.idle :: c !in p.lent)
  {
    RunInv(EMPTY, steps, max);
  }

  /** No wake-up is lost: a sleeper and a free place never meet without somebody on the way to it. */
  lemma NoLostWakeUp(steps: seq<Step>, max: nat)
    requires IsRun(EMPTY, steps, max)
    ensures var p := After(EMPTY, steps, max);
            p.waiting != {} && Free(p, max) > 0 ==> p.notified != {}
  {
    RunInv(EMPTY, steps, max);
    var p := After(EMPTY, steps, max);
    assert p.notified == {} ==> |p.notified| == 0;
  }

  /** With nothing lent, being opened or waking up, nobody sleeps. */
  lemma IdlePoolHasNoSleepers(steps: seq<Step>, max: nat)
    requires IsRun(EMPTY, steps, max) && max > 0
    ensures var p := After(EMPTY, steps, max);
            p.waiting != {} ==> p.lent != map[] || p.opening != {} || p.notified != {}
  {
    RunInv(EMPTY, steps, max);
    var p := After(EMPTY, steps, max);
    if p.lent == map[] && p.opening == {} {
      assert |p.lent.Keys| == 0 && Free(p, max) == max;
    }
  }

  /** A woken thread that finds a free place gets it: it does not go back to sleep. */
  lemma ResumeGetsFreePlace(p: Pool, t: Thread, max: nat)
    requires Inv(p, max) && t in p.notified && Free(p, max) > 0
    ensures var p' := Next(p, Resume(t), max);
            t !in p'.waiting && ((exists c :: c in p'.lent && c !in p.lent && p'.lent == p.lent[c := t]) || t in p'.opening)
  {
    if p.idle != [] {
      var c := p.idle[|p.idle| - 1];
      assert c !in p.lent;
    }
  }

  // ---- Hold and wait -------------------------------------------------------

  predicate Wants(p: Pool, t: Thread) {
    t in p.waiting || t in p.notified
  }

  /** Nothing is free, nobody dials, and whoever holds a connection waits for a further one. */
  predicate Locked(p: Pool, max: nat) {
    p.idle == [] && p.total >= max && p.opening == {} && forall c | c in p.lent :: Wants(p, p.lent[c])
  }

  lemma LockedStep(p: Pool, step: Step, max: nat)
    requires Locked(p, max) && Enabled(p, step)
    ensures var p' := Next(p, step, max);
            Locked(p', max) && p'.lent == p.lent && forall t | Wants(p, t) :: Wants(p', t)
  {
  }

  lemma {:induction false} LockedForEver(p: Pool, steps: seq<Step>, max: nat)
    requires Locked(p, max) && IsRun(p, steps, max)
    ensures var p' := After(p, steps, max);
            Locked(p', max) && p'.lent == p.lent && forall t | Wants(p, t) :: Wants(p', t)
    decreases |steps|
  {
    hide Locked, Next, Enabled;
    if steps != [] {
      LockedStep(p, steps[0], max);
      LockedForEver(Next(p, steps[0], max), steps[1..], max);
    }
  }

  /** Some continuation without a spurious wake-up lets the thread out with a connection or a place to open one. */
  ghost predicate CanLeave(p: Pool, t: Thread, max: nat) {
    exists steps: seq<Step> :: IsRun(p, steps, max) && (forall i | 0 <= i < |steps| :: !steps[i].Spurious?)
                    && !Wants(After(p, steps, max), t)
  }

  lemma LeavesNow(p: Pool, t: Thread, max: nat)
    requires t in p.notified && p.waiting !! p.notified && (p.idle != [] || p.total < max)
    ensures CanLeave(p, t, max)
  {
    var steps := [Resume(t)];
    assert IsRun(Next(p, steps[0], max), steps[1..], max);
    assert After(p, steps, max) == Next(p, steps[0], max);
    assert !steps[0].Spurious? && !Wants(After(p, steps, max), t);
  }

  lemma LeavesLater(p: Pool, step: Step, t: Thread, max: nat)
    requires Enabled(p, step) && !step.Spurious? && CanLeave(Next(p, step, max), t, max)
    ensures CanLeave(p, t, max)
  {
    hide Enabled, Next, Wants;
    var p' := Next(p, step, max);
    var rest: seq<Step> :| IsRun(p', rest, max) && (forall i | 0 <= i < |rest| :: !rest[i].Spurious?)
                && !Wants(After(p', rest, max), t);
    var steps := [step] + rest;
    assert steps[1..] == rest;
    assert IsRun(p, steps, max) && After(p, steps, max) == After(p', rest, max);
  }

  /** A thread that holds or dials gives its place up, and the sleeper is the one woken. */
  lemma LeavesAfterRelease(p: Pool, c: Connection, t: Thread, max: nat)
    requires Inv(p, max) && Wants(p, t) && CanRelease(p, c)
    ensures CanLeave(p, t, max)
  {
    var woken := if p.waiting == {} || t in p.waiting then t else var w :| w in p.waiting; w;
    ReleaseInv(p, c, woken, max);
    LeavesNow(Next(p, Release(c, woken), max), t, max);
    LeavesLater(p, Release(c, woken), t, max);
  }

  lemma LeavesAfterFailure(p: Pool, dialling: Thread, t: Thread, max: nat)
    requires Inv(p, max) && Wants(p, t) && dialling in p.opening
    ensures CanLeave(p, t, max)
  {
    var woken := if p.waiting == {} || t in p.waiting then t else var w :| w in p.waiting; w;
    OpenFailedInv(p, dialling, woken, max);
    LeavesNow(Next(p, OpenFailed(dialling, woken), max), t, max);
    LeavesLater(p, OpenFailed(dialling, woken), t, max);
  }

  /** A free place goes to whoever is notified first, who gives it up again. */
  lemma LeavesAfterOther(p: Pool, first: Thread, t: Thread, max: nat)
    requires Inv(p, max) && t in p.waiting && first in p.notified && (p.idle != [] || p.total < max)
    ensures CanLeave(p, t, max)
  {
    var p' := Next(p, Resume(first), max);
    ResumeInv(p, first, max);
    if p.idle != [] {
      LeavesAfterRelease(p', p.idle[|p.idle| - 1], t, max);
    } else {
      LeavesAfterFailure(p', first, t, max);
    }
    LeavesLater(p, Resume(first), t, max);
  }

  /** A thread that waits can still be served if and only if the pool is not locked. */
  lemma ServedExactly(p: Pool, t: Thread, max: nat)
    requires Inv(p, max) && Wants(p, t)
    ensures CanLeave(p, t, max) <==> !Locked(p, max)
  {
    if Locked(p, max) {
      if CanLeave(p, t, max) {
        var steps :| IsRun(p, steps, max) && !Wants(After(p, steps, max), t);
        LockedForEver(p, steps, max);
        assert false;
      }
    } else if p.idle != [] || p.total < max {
      if t in p.notified {
        LeavesNow(p, t, max);
      } else {
        assert |p.notified| > 0;
        var first :| first in p.notified;
        LeavesAfterOther(p, first, t, max);
      }
    } else if dialling :| dialling in p.opening {
      LeavesAfterFailure(p, dialling, t, max);
    } else {
      var c :| c in p.lent && !Wants(p, p.lent[c]);
      LeavesAfterRelease(p, c, t, max);
    }
  }

  /** Whoever asks for a connection holds none. */
  predicate OneEach(p: Pool, steps: seq<Step>, max: nat)
    requires IsRun(p, steps, max)
    decreases |steps|
  {
    steps == [] || ((steps[0].Enter? ==> steps[0].t !in p.lent.Values) && OneEach(Next(p, steps[0], max), steps[1..], max))
  }

  predicate AskersHoldNothing(p: Pool) {
    forall c | c in p.lent :: !Knows(p, p.lent[c])
  }

  lemma AcquireHoldsNothing(p: Pool, t: Thread, max: nat)
    requires AskersHoldNothing(p) && !Knows(p, t) && t !in p.lent.Values
    ensures AskersHoldNothing(Acquire(p, t, max))
  {
    var p' := Acquire(p, t, max);
    forall c | c in p'.lent ensures !Knows(p', p'.lent[c]) {
      if c in p.lent && p.lent[c] == p'.lent[c] {
        assert p.lent[c] in p.lent.Values && !Knows(p, p.lent[c]);
      }
    }
  }

  lemma OneEachStep(p: Pool, step: Step, max: nat)
    requires Inv(p, max) && AskersHoldNothing(p) && Enabled(p, step)
    requires step.Enter? ==> step.t !in p.lent.Values
    ensures AskersHoldNothing(Next(p, step, max))
  {
    if step.Enter? {
      AcquireHoldsNothing(p, step.t, max);
    } else if step.Resume? {
      AcquireHoldsNothing(p.(notified := p.notified - {step.t}), step.t, max);
    } else {
      hide Acquire, Inv;
      var p' := Next(p, step, max);
      forall c | c in p'.lent ensures !Knows(p', p'.lent[c]) {
        assert c in p.lent && p.lent[c] == p'.lent[c] ==> !Knows(p, p.lent[c]);
      }
    }
  }

  lemma {:induction false} OneEachKept(p: Pool, steps: seq<Step>, max: nat)
    requires Inv(p, max) && AskersHoldNothing(p) && IsRun(p, steps, max) && OneEach(p, steps, max)
    ensures AskersHoldNothing(After(p, steps, max))
    decreases |steps|
  {
    hide Inv, Next, Enabled, AskersHoldNothing;
    if steps != [] {
      StepInv(p, steps[0], max);
      OneEachStep(p, steps[0], max);
      OneEachKept(Next(p, steps[0], max), steps[1..], max);
    }
  }

  /** Among callers that hold at most one connection each, everybody who waits can still be served. */
  lemma OneEachNeverLocks(steps: seq<Step>, max: nat, t: Thread)
    requires IsRun(EMPTY, steps, max) && OneEach(EMPTY, steps, max) && max > 0
    requires Wants(After(EMPTY, steps, max), t)
    ensures CanLeave(After(EMPTY, steps, max), t, max)
  {
    var p := After(EMPTY, steps, max);
    RunInv(EMPTY, steps, max);
    OneEachKept(EMPTY, steps, max);
    ServedExactly(p, t, max);
    SomeHolderIsFree(p, max);
  }

  lemma SomeHolderIsFree(p: Pool, max: nat)
    requires Inv(p, max) && AskersHoldNothing(p) && max > 0
    ensures !Locked(p, max)
  {
    if c :| c in p.lent {
      assert !Knows(p, p.lent[c]);
    } else {
      assert |p.lent.Keys| == 0;
    }
  }

  // ---- A pool of callers that each need a second connection --------------------

  /** The first `held` threads hold a connection each, and the first `asking` of them want another. */
  function Callers(held: nat, asking: nat): Pool {
    Pool([], held, {}, Sleepers(asking), {}, Hands(held), held)
  }

  function Sleepers(n: nat): (r: set<Thread>)
    ensures forall t: nat :: t in r <==> t < n
  {
    if n == 0 then {} else Sleepers(n - 1) + {n - 1}
  }

  function Hands(n: nat): (r: map<Connection, Thread>)
    ensures forall c: nat :: c in r <==> c < n
    ensures forall c | c in r :: r[c] == c
  {
    if n == 0 then map[] else Hands(n - 1)[n - 1 := n - 1]
  }

  function Asking(max: nat, held: nat, asking: nat): seq<Step>
    decreases asking, held
  {
    if asking > 0 then Asking(max, held, asking - 1) + [Enter(asking - 1)]
    else if held > 0 then Asking(max, held - 1, 0) + [Enter(held - 1), Opened(held - 1)]
    else []
  }

  lemma {:induction false} RunAppend(p: Pool, steps: seq<Step>, more: seq<Step>, max: nat)
    requires IsRun(p, steps, max) && IsRun(After(p, steps, max), more, max)
    ensures IsRun(p, steps + more, max) && After(p, steps + more, max) == After(After(p, steps, max), more, max)
    decreases |steps|
  {
    hide Next, Enabled;
    if steps == [] {
      assert steps + more == more;
    } else {
      assert (steps + more)[1..] == steps[1..] + more;
      RunAppend(Next(p, steps[0], max), steps[1..], more, max);
    }
  }

  lemma {:induction false} CallersRun(max: nat, held: nat, asking: nat)
    requires held <= max && asking <= held && (asking > 0 ==> held == max)
    ensures IsRun(EMPTY, Asking(max, held, asking), max)
    ensures After(EMPTY, Asking(max, held, asking), max) == Callers(held, asking)
    decreases asking, held
  {
    if asking > 0 {
      var p := Callers(held, asking - 1);
      CallersRun(max, held, asking - 1);
      RunOfOne(p, Enter(asking - 1), max);
      RunAppend(EMPTY, Asking(max, held, asking - 1), [Enter(asking - 1)], max);
    } else if held > 0 {
      var p, more := Callers(held - 1, 0), [Enter(held - 1), Opened(held - 1)];
      CallersRun(max, held - 1, 0);
      RunOfOne(p, more[0], max);
      RunOfOne(Next(p, more[0], max), more[1], max);
      RunAppend(p, [more[0]], [more[1]], max);
      assert more == [more[0]] + [more[1]];
      RunAppend(EMPTY, Asking(max, held - 1, 0), more, max);
    }
  }

  lemma RunOfOne(p: Pool, step: Step, max: nat)
    requires Enabled(p, step)
    ensures IsRun(p, [step], max) && After(p, [step], max) == Next(p, step, max)
  {
    hide Enabled, Next;
    assert IsRun(Next(p, step, max), [step][1..], max);
  }

  /** As many callers as there are places take one connection each and ask for a second: none is ever served. */
  lemma HoldAndWaitLocks(max: nat, t: Thread)
    requires t < max
    ensures IsRun(EMPTY, Asking(max, max, max), max)
    ensures var p := After(EMPTY, Asking(max, max, max), max);
            Locked(p, max) && Wants(p, t) && !CanLeave(p, t, max)
  {
    CallersRun(max, max, max);
    EmptyInv(max);
    hide Asking, Callers, Inv, Locked, IsRun, After;
    RunInv(EMPTY, Asking(max, max, max), max);
    CallersLocked(max, t);
    ServedExactly(Callers(max, max), t, max);
  }

  lemma EmptyInv(max: nat)
    ensures Inv(EMPTY, max)
  {
  }

  lemma CallersLocked(max: nat, t: Thread)
    requires t < max
    ensures Locked(Callers(max, max), max) && Wants(Callers(max, max), t)
  {
    hide Sleepers, Hands;
  }

  // ---- The monitor -------------------------------------------------------

  class Monitor {
    const maxPoolSize: nat
    var idle: seq<Connection>
    var total: int
    var opening: set<Thread>
    var waiting: set<Thread>
    var notified: set<Thread>
    var lent: map<Connection, Thread>
    var next: Connection

    ghost function State(): Pool
      reads this
    {
      Pool(idle, total, opening, waiting, notified, lent, next)
    }

    constructor (maxPoolSize: nat)
      ensures this.maxPoolSize == maxPoolSize && State() == EMPTY && Inv(State(), maxPoolSize)
    {
      this.maxPoolSize := maxPoolSize;
      idle, total, opening, waiting, notified, lent, next := [], 0, {}, {}, {}, map[], 0;
    }

    /** The loop guard and what follows it; an empty handle is a thread asleep or about to dial. */
    method TakePlace(t: Thread) returns (handle: seq<Connection>)
      modifies this
      ensures State() == Acquire(old(State()), t, maxPoolSize)
      ensures handle == if old(idle) == [] then [] else [old(idle)[|old(idle)| - 1]]
      ensures lent == if old(idle) == [] then old(lent) else old(lent)[old(idle)[|old(idle)| - 1] := t]
    {
      handle := [];
      if idle == [] && total >= maxPoolSize {
        waiting := waiting + {t};
      } else if idle != [] {
        handle := [idle[|idle| - 1]];
        idle := idle[..|idle| - 1];
        lent := lent[handle[0] := t];
      } else {
        total := total + 1;
        opening := opening + {t};
      }
    }

    /** create_connection from the moment the lock is held until it is released or given up to sleep. */
    method CreateConnection(t: Thread) returns (handle: seq<Connection>)
      requires Inv(State(), maxPoolSize) && t !in opening && t !in waiting
      modifies this
      ensures State() == Next(old(State()), if t in old(notified) then Resume(t) else Enter(t), maxPoolSize)
      ensures Inv(State(), maxPoolSize)
      ensures |handle| <= 1 && forall c | c in handle :: c !in old(lent) && lent == old(lent)[c := t]
    {
      assert idle != [] ==> idle[|idle| - 1] !in lent;
      if t in notified {
        StepInv(State(), Resume(t), maxPoolSize);
      } else {
        StepInv(State(), Enter(t), maxPoolSize);
      }
      hide Inv, Acquire;
      assert t !in notified ==> notified - {t} == notified;
      notified := notified - {t};
      handle := TakePlace(t);
    }

    method NotifyOneOf(woken: Thread)
      modifies this`waiting, this`notified
      ensures State() == NotifyOne(old(State()), woken)
    {
      if woken in waiting {
        waiting := waiting - {woken};
        notified := notified + {woken};
      }
    }

    /** What follows open_new_connection, which ran without the lock. */
    method FinishOpening(t: Thread, success: bool, woken: Thread)
      requires Inv(State(), maxPoolSize) && Enabled(State(), OpenFailed(t, woken))
      modifies this
      ensures State() == Next(old(State()), if success then Opened(t) else OpenFailed(t, woken), maxPoolSize)
      ensures Inv(State(), maxPoolSize)
    {
      StepInv(State(), if success then Opened(t) else OpenFailed(t, woken), maxPoolSize);
      opening := opening - {t};
      if success {
        lent := lent[next := t];
        next := next + 1;
      } else {
        total := total - 1;
        NotifyOneOf(woken);
      }
    }

    /** The deleter of a handle; `closed` also covers an exception from isClosed. */
    method ReleaseHandle(c: Connection, closed: bool, woken: Thread)
      requires Inv(State(), maxPoolSize) && Enabled(State(), Release(c, woken))
      modifies this
      ensures State() == Next(old(State()), if closed then ReleaseClosed(c, woken) else Release(c, woken), maxPoolSize)
      ensures Inv(State(), maxPoolSize)
    {
      StepInv(State(), if closed then ReleaseClosed(c, woken) else Release(c, woken), maxPoolSize);
      lent := lent - {c};
      if closed {
        total := total - 1;
      } else {
        idle := idle + [c];
      }
      NotifyOneOf(woken);
    }
  }
}
