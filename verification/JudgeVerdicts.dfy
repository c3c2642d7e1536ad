/** From the answer of a worker to the stored verdict, and back. */
module JudgeVerdicts {
  import opened Text
  import opened JudgeProtocol
  import opened JudgeRuns
  import opened JudgeLoss

  // ---- What one attempt leaves behind -------------------------------------

  /** The attempt ends with a verdict of its own. */
  predicate Decides(attempt: Attempt, status: Status) {
    match status
    case Judged(SystemError) =>
      || attempt == Responded(SystemError) || attempt.ThrewUnknown?
      || (attempt.Threw? && attempt.reason != "problem not found" && !IsTransientWorkerFailure(attempt.reason))
    case Judged(verdict) => attempt == Responded(verdict)
    case NotFound => attempt == ProblemMissing || attempt == Threw("problem not found")
    case _ => false
  }

  /** Entry i is judged, and its verdict is collected without faults. */
  function JudgedAndCollected(w: World, i: nat, attempt: Attempt, cfg: Config): World
    requires Enabled(w, Finish(i, attempt), cfg)
  {
    Next(Next(w, Finish(i, attempt), cfg), Collect(i, NO_FAULTS), cfg)
  }

  /**
   * The verdict of the attempt, and no other, is what the database says afterwards; the delivery is
   * settled, its message is gone, and nothing else has changed.
   */
  lemma VerdictIsStored(w: World, i: nat, attempt: Attempt, status: Status, cfg: Config)
    requires Bounds(w, cfg) && Enabled(w, Finish(i, attempt), cfg) && Decides(attempt, status)
    ensures var p, w' := w.pending[i], JudgedAndCollected(w, i, attempt, cfg);
            && w'.db == w.db[p.task.sid := Record(status, status == Judged(Ok))]
            && w'.settled == w.settled + multiset{p.tag}
            && w'.broker == (if w.connected then w.broker - {p.tag} else w.broker)
            && w' == w.(db := w'.db, settled := w'.settled, broker := w'.broker, pending := Without(w.pending, i))
  {
    var p := w.pending[i];
    assert EntryInv(w, p) && p.task.sid in w.db;
    var w1 := Next(w, Finish(i, attempt), cfg);
    assert w1.pending[i] == p.(future := Result(Record(status, status == Judged(Ok))));
    assert Without(w1.pending, i) == Without(w.pending, i);
    hide Bounds, EntryInv, IsTransientWorkerFailure;
  }

  /** An attempt whose record could not be loaded writes nothing; its message goes back to the queue. */
  lemma NothingIsStored(w: World, i: nat, f: Faults, cfg: Config)
    requires Bounds(w, cfg) && Enabled(w, Finish(i, LoadFailed), cfg)
    ensures var p, w1 := w.pending[i], Next(w, Finish(i, LoadFailed), cfg);
            var w' := Next(w1, Collect(i, f), cfg);
            && w'.db == w.db && w'.settled == w.settled + multiset{p.tag}
            && w'.broker == (if w.connected then w.broker[p.tag := Message(Good(p.task), Main)] else w.broker)
            && w' == w.(settled := w'.settled, broker := w'.broker, pending := Without(w.pending, i))
  {
    var p := w.pending[i];
    assert EntryInv(w, p);
    var w1 := Next(w, Finish(i, LoadFailed), cfg);
    assert w1.pending[i] == p.(future := Broken) && Without(w1.pending, i) == Without(w.pending, i);
    hide Bounds, EntryInv;
  }

  /**
   * After a transient failure of a record not yet terminal: within the budget it is QUEUED and one message
   * with one more retry waits in the retry queue; beyond it is a system error and the message a dead letter.
   */
  lemma TransientIsRetried(w: World, i: nat, reason: string, cfg: Config)
    requires Bounds(w, cfg) && Enabled(w, Finish(i, Threw(reason)), cfg) && w.connected
    requires IsTransientWorkerFailure(reason) && reason != "problem not found"
    requires !Terminal(w.db[w.pending[i].task.sid].status)
    ensures var p, w' := w.pending[i], JudgedAndCollected(w, i, Threw(reason), cfg);
            var exhausted := p.task.retry >= cfg.maxRetry;
            && w'.db == w.db[p.task.sid := if exhausted then Record(Judged(SystemError), false) else Record(Queued, false)]
            && w'.settled == w.settled + multiset{p.tag}
            && w'.broker == (w.broker - {p.tag})[w.next :=
                 Message(Good(Task(p.task.sid, p.task.retry + 1)), if exhausted then Dead else Retry)]
            && w'.pending == Without(w.pending, i)
  {
    var p := w.pending[i];
    assert EntryInv(w, p) && p.tag < w.next;
    var w1 := Next(w, Finish(i, Threw(reason)), cfg);
    assert w1.pending[i] == p.(future := Temporary(reason)) && Without(w1.pending, i) == Without(w.pending, i);
    hide Bounds, EntryInv, IsTransientWorkerFailure;
  }

  /** Found judged already, by a duplicate, the record stays; the message is still passed on and settled. */
  lemma TransientAfterVerdict(w: World, i: nat, reason: string, cfg: Config)
    requires Bounds(w, cfg) && Enabled(w, Finish(i, Threw(reason)), cfg) && w.connected
    requires IsTransientWorkerFailure(reason) && reason != "problem not found"
    requires Terminal(w.db[w.pending[i].task.sid].status)
    ensures var p, w' := w.pending[i], JudgedAndCollected(w, i, Threw(reason), cfg);
            && w'.db == w.db && w'.settled == w.settled + multiset{p.tag} && w'.pending == Without(w.pending, i)
            && w'.broker == (w.broker - {p.tag})[w.next :=
                 Message(Good(Task(p.task.sid, p.task.retry + 1)), if p.task.retry >= cfg.maxRetry then Dead else Retry)]
  {
    var p := w.pending[i];
    assert EntryInv(w, p) && p.tag < w.next;
    var w1 := Next(w, Finish(i, Threw(reason)), cfg);
    assert w1.pending[i] == p.(future := Temporary(reason)) && Without(w1.pending, i) == Without(w.pending, i);
    hide Bounds, EntryInv, IsTransientWorkerFailure;
  }

  /** A submission that could not be published becomes a system error and is never judged. */
  lemma RefusedIsSystemError(w: World, sid: Sid, cfg: Config)
    requires Enabled(w, Submit(sid, Refused), cfg)
    ensures var w1 := Next(w, Submit(sid, Refused), cfg);
            && w1.db == w.db[sid := Record(Queued, false)] && w1.broker == w.broker && w1.published == w.published
            && Enabled(w1, LateWrite(sid, Saved), cfg)
            && Next(w1, LateWrite(sid, Saved), cfg).db == w.db[sid := Record(Judged(SystemError), false)]
  {
  }

  const TRANSIENT := [
    "timed out", "timeout", "failed to connect judge_worker", "all judge workers are temporarily unavailable",
    "all judge workers failed", "send failed", "recv failed"]

  /** A failure is transient exactly if its text has one of seven phrases in it. */
  lemma TransientExactly(reason: string)
    ensures IsTransientWorkerFailure(reason) <==>
            exists phrase, before, after :: phrase in TRANSIENT && reason == before + phrase + after
  {
    forall phrase ensures Contains(reason, phrase) <==> exists before, after :: reason == before + phrase + after {
      ContainsMeans(reason, phrase);
    }
    hide Contains;
    assert TRANSIENT[0] == "timed out" && TRANSIENT[1] == "timeout" && TRANSIENT[2] == "failed to connect judge_worker";
    assert TRANSIENT[3] == "all judge workers are temporarily unavailable" && TRANSIENT[4] == "all judge workers failed";
    assert TRANSIENT[5] == "send failed" && TRANSIENT[6] == "recv failed";
    assert IsTransientWorkerFailure(reason) <==> exists phrase :: phrase in TRANSIENT && Contains(reason, phrase);
  }

  lemma ContainsMeans(s: string, phrase: string)
    ensures Contains(s, phrase) <==> exists before, after :: s == before + phrase + after
  {
    if Contains(s, phrase) {
      var i := Find(s, phrase, 0).value;
      assert s == s[..i] + phrase + s[i + |phrase|..];
    }
    if before, after :| s == before + phrase + after {
      assert s[|before|..] == phrase + after;
      assert OccursAt(s, phrase, |before|);
    }
  }

  // ---- Where a stored verdict comes from -----------------------------------

  /** The verdicts that workers and problem table have pronounced on submissions. */
  function Told(w: World, step: Step): set<(Sid, Status)> {
    match step
    case Finish(i, attempt) =>
      if i >= |w.pending| then {}
      else (match attempt
            case Responded(verdict) => {(w.pending[i].task.sid, Judged(verdict))}
            case ProblemMissing => {(w.pending[i].task.sid, NotFound)}
            case Threw(reason) => if reason == "problem not found" then {(w.pending[i].task.sid, NotFound)} else {}
            case _ => {})
    case Submit(sid, Missing) => {(sid, NotFound)}
    case _ => {}
  }

  function AllTold(w: World, steps: seq<Step>, cfg: Config): set<(Sid, Status)>
    requires IsRun(w, steps, cfg)
    decreases |steps|
  {
    if steps == [] then {} else Told(w, steps[0]) + AllTold(Next(w, steps[0], cfg), steps[1..], cfg)
  }

  /** A status that somebody pronounced, or that the platform gives by itself. */
  predicate Backed(sid: Sid, s: Status, told: set<(Sid, Status)>) {
    s in {Queued, Running, Judged(SystemError)} || (sid, s) in told
  }

  ghost predicate AllBacked(w: World, told: set<(Sid, Status)>) {
    && (forall sid | sid in w.db :: Backed(sid, w.db[sid].status, told))
    && (forall i | 0 <= i < |w.pending| && w.pending[i].future.Result? ::
          Backed(w.pending[i].task.sid, w.pending[i].future.record.status, told))
    && (forall sid | sid in w.rewrites :: w.rewrites[sid].status in {Queued, Judged(SystemError)})
  }

  lemma WriteBacked(w: World, sid: Sid, r: Record, save: Save, told: set<(Sid, Status)>)
    requires AllBacked(w, told) && Backed(sid, r.status, told)
    ensures AllBacked(Write(w, sid, r, save), told)
  {
  }

  lemma MarkBacked(w: World, sid: Sid, r: Record, f: Faults, told: set<(Sid, Status)>)
    requires AllBacked(w, told) && r.status in {Queued, Judged(SystemError)}
    ensures AllBacked(Mark(w, sid, r, f).0, told)
  {
    hide AllBacked, Write;
    WriteBacked(w, sid, r, f.save, told);
  }

  /** Only the table, the vector of attempts and the pending rewrites matter. */
  lemma BackedReads(w: World, w': World, told: set<(Sid, Status)>)
    requires AllBacked(w, told) && w'.db == w.db && w'.pending == w.pending && w'.rewrites == w.rewrites
    ensures AllBacked(w', told)
  {
  }

  lemma ResultBacked(w: World, i: nat, f: Faults, told: set<(Sid, Status)>, cfg: Config)
    requires AllBacked(w, told) && i < |w.pending| && w.pending[i].future.Result?
    ensures AllBacked(Finalize(w, w.pending[i], f, cfg), told)
    ensures Finalize(w, w.pending[i], f, cfg).pending == w.pending
  {
    var p := w.pending[i];
    WriteBacked(w, p.task.sid, p.future.record, f.save, told);
    var written := Write(w, p.task.sid, p.future.record, f.save);
    assert written.pending == w.pending;
    hide AllBacked, Write;
    BackedReads(written, Settle(written, p.tag, f.save.Saved? && p.task.sid in w.db), told);
  }

  lemma RerouteBacked(w: World, task: Task, f: Faults, told: set<(Sid, Status)>, cfg: Config)
    requires AllBacked(w, told)
    ensures AllBacked(Reroute(w, task, f, cfg).0, told) && Reroute(w, task, f, cfg).0.pending == w.pending
  {
    var record := if task.retry + 1 > cfg.maxRetry then SYSTEM_ERROR else Record(Queued, false);
    MarkBacked(w, task.sid, record, f, told);
    var marked := Mark(w, task.sid, record, f).0;
    assert marked.pending == w.pending;
    hide AllBacked, Mark;
    BackedReads(marked, Reroute(w, task, f, cfg).0, told);
  }

  lemma FinalizeBacked(w: World, i: nat, f: Faults, told: set<(Sid, Status)>, cfg: Config)
    requires AllBacked(w, told) && i < |w.pending|
    ensures AllBacked(Finalize(w, w.pending[i], f, cfg), told)
    ensures Finalize(w, w.pending[i], f, cfg).pending == w.pending
  {
    var p := w.pending[i];
    if p.future.Result? {
      ResultBacked(w, i, f, told, cfg);
    } else if p.future.Temporary? {
      RerouteBacked(w, p.task, f, told, cfg);
      var (routed, ok) := Reroute(w, p.task, f, cfg);
      hide AllBacked, Reroute;
      BackedReads(routed, Settle(routed, p.tag, ok), told);
    } else {
      hide AllBacked;
      BackedReads(w, NackRequeue(w, p.tag), told);
    }
  }

  lemma CollectBacked(w: World, i: nat, f: Faults, told: set<(Sid, Status)>, cfg: Config)
    requires AllBacked(w, told) && i < |w.pending|
    ensures AllBacked(CollectOne(w, i, f, cfg), told)
  {
    FinalizeBacked(w, i, f, told, cfg);
    hide Finalize;
  }

  lemma RescueBacked(w: World, tag: nat, body: Body, f: Faults, told: set<(Sid, Status)>)
    requires AllBacked(w, told)
    ensures AllBacked(Rescue(w, tag, body, f), told)
  {
    if body.Good? {
      MarkBacked(w, body.task.sid, SYSTEM_ERROR, f, told);
    }
    hide AllBacked, Mark, DeadLetter;
    DeadLetterTouchesBroker(MarkDead(w, body, f), tag, body, f.sending);
    BackedReads(MarkDead(w, body, f), Rescue(w, tag, body, f), told);
  }

  lemma DispatchBacked(w: World, tag: nat, task: Task, f: DeliveryFaults, told: set<(Sid, Status)>)
    requires AllBacked(w, told)
    ensures AllBacked(DispatchTask(w, tag, task, f).0, told)
  {
    WriteBacked(w, task.sid, Record(Running, false), f.save, told);
    hide Write, Backed;
  }

  lemma DeliveryBacked(w: World, tag: nat, body: Body, f: DeliveryFaults, told: set<(Sid, Status)>)
    requires AllBacked(w, told)
    ensures AllBacked(HandleDelivery(w, tag, body, f), told)
  {
    RescueBacked(w, tag, body, f.rescue, told);
    if body.Good? {
      DispatchBacked(w, tag, body.task, f, told);
      RescueBacked(DispatchTask(w, tag, body.task, f).0, tag, body, f.rescue, told);
    }
    BackedReads(w, Ack(w, tag), told);
    hide AllBacked, Rescue, DispatchTask, Ack;
  }

  lemma FinishBacked(w: World, i: nat, attempt: Attempt, told: set<(Sid, Status)>, cfg: Config)
    requires AllBacked(w, told) && Enabled(w, Finish(i, attempt), cfg)
    ensures AllBacked(Next(w, Finish(i, attempt), cfg), told + Told(w, Finish(i, attempt)))
  {
    hide IsTransientWorkerFailure;
  }

  lemma SubmitBacked(w: World, sid: Sid, how: Submission, told: set<(Sid, Status)>)
    requires AllBacked(w, told)
    ensures AllBacked(SubmitTo(w, sid, how), told + Told(w, Submit(sid, how)))
  {
  }

  lemma LateWriteBacked(w: World, sid: Sid, save: Save, told: set<(Sid, Status)>)
    requires AllBacked(w, told) && sid in w.rewrites
    ensures AllBacked(Write(w, sid, w.rewrites[sid], save).(rewrites := w.rewrites - {sid}), told)
  {
    WriteBacked(w, sid, w.rewrites[sid], save, told);
  }

  lemma StepBacked(w: World, step: Step, told: set<(Sid, Status)>, cfg: Config)
    requires AllBacked(w, told) && Enabled(w, step, cfg)
    ensures AllBacked(Next(w, step, cfg), told + Told(w, step))
  {
    match step
    case Submit(sid, how) =>
      hide AllBacked, SubmitTo, Told;
      SubmitBacked(w, sid, how, told);
    case LateWrite(sid, save) =>
      LateWriteBacked(w, sid, save, told);
      hide AllBacked, Write;
      NothingTold(told);
    case Consume(id, f) =>
      BackedReads(w, Deliver(w, id), told);
      DeliveryBacked(Deliver(w, id), w.next, w.broker[id].body, f, told);
      hide AllBacked, HandleDelivery;
      NothingTold(told);
    case Finish(i, attempt) =>
      hide AllBacked, Told, Next;
      FinishBacked(w, i, attempt, told, cfg);
    case Collect(i, f) =>
      CollectBacked(w, i, f, told, cfg);
      hide AllBacked, CollectOne;
      NothingTold(told);
    case _ =>
      NothingTold(told);
  }

  lemma NothingTold(told: set<(Sid, Status)>)
    ensures told + {} == told
  {
  }

  lemma {:induction false} RunBacked(w: World, steps: seq<Step>, told: set<(Sid, Status)>, cfg: Config)
    requires AllBacked(w, told) && IsRun(w, steps, cfg)
    ensures AllBacked(After(w, steps, cfg), told + AllTold(w, steps, cfg))
    decreases |steps|
  {
    hide AllBacked, Told, Enabled, Next;
    if steps == [] {
      NothingTold(told);
    } else {
      StepBacked(w, steps[0], told, cfg);
      RunBacked(Next(w, steps[0], cfg), steps[1..], told + Told(w, steps[0]), cfg);
      assert told + Told(w, steps[0]) + AllTold(Next(w, steps[0], cfg), steps[1..], cfg) == told + AllTold(w, steps, cfg);
    }
  }

  /**
   * After any run a verdict other than the system error was answered by a worker for that very
   * submission, a missing problem was found missing for it, and accepted means exactly OK.
   */
  lemma NoVerdictIsInvented(steps: seq<Step>, sid: Sid, cfg: Config)
    requires IsRun(INITIAL, steps, cfg) && sid in After(INITIAL, steps, cfg).db
    ensures var record := After(INITIAL, steps, cfg).db[sid];
            && (record.status.Judged? && record.status.verdict != SystemError ==>
                  exists k :: 0 <= k < |steps| && AnsweredAt(INITIAL, steps, k, sid, record.status.verdict, cfg))
            && (record.status.NotFound? ==> (sid, NotFound) in AllTold(INITIAL, steps, cfg))
            && (record.accepted <==> record.status == Judged(Ok))
  {
    var end, told := After(INITIAL, steps, cfg), AllTold(INITIAL, steps, cfg);
    assert {} + told == told;
    RunBacked(INITIAL, steps, {}, cfg);
    ReachableBounds(steps, cfg);
    assert Backed(sid, end.db[sid].status, told);
    hide IsRun, After, AllTold;
    if end.db[sid].status.Judged? && end.db[sid].status.verdict != SystemError {
      var k := ToldByWorker(INITIAL, steps, sid, end.db[sid].status.verdict, cfg);
    }
  }

  /** Step k of the run is a worker's answer to an attempt of the submission. */
  predicate AnsweredAt(w: World, steps: seq<Step>, k: nat, sid: Sid, verdict: Verdict, cfg: Config)
    requires IsRun(w, steps, cfg)
    decreases |steps|
  {
    if steps == [] then false
    else if k > 0 then AnsweredAt(Next(w, steps[0], cfg), steps[1..], k - 1, sid, verdict, cfg)
    else steps[0].Finish? && steps[0].attempt == Responded(verdict) && w.pending[steps[0].i].task.sid == sid
  }

  lemma {:induction false} ToldByWorker(w: World, steps: seq<Step>, sid: Sid, verdict: Verdict, cfg: Config) returns (k: nat)
    requires IsRun(w, steps, cfg) && (sid, Judged(verdict)) in AllTold(w, steps, cfg)
    ensures k < |steps| && AnsweredAt(w, steps, k, sid, verdict, cfg)
    decreases |steps|
  {
    hide Next;
    if (sid, Judged(verdict)) in Told(w, steps[0]) {
      k := 0;
    } else {
      hide Enabled;
      k := ToldByWorker(Next(w, steps[0], cfg), steps[1..], sid, verdict, cfg);
      k := k + 1;
    }
  }
}
