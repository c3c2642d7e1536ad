/** Safety of the delivery protocol over whole runs. */
module JudgeRuns {
  import opened Text
  import opened JudgeProtocol

  lemma SubmitInv(w: World, sid: Sid, how: Submission, cfg: Config)
    requires Inv(w, cfg) && sid !in w.db
    ensures Inv(SubmitTo(w, sid, how), cfg)
  {
    var w' := SubmitTo(w, sid, how);
    SubmitKeepsEntries(w, sid, how, cfg);
    hide EntryInv, PendingInv;
    forall s | s in w'.published && !Terminal(w'.db[s].status) ensures Live(w', s) {
      SubmitKeepsLive(w, sid, how, s);
    }
  }

  lemma SubmitKeepsEntries(w: World, sid: Sid, how: Submission, cfg: Config)
    requires PendingInv(w, cfg) && w.next !in w.broker
    ensures PendingInv(SubmitTo(w, sid, how), cfg)
  {
    var w' := SubmitTo(w, sid, how);
    forall i | 0 <= i < |w'.pending| ensures EntryInv(w', w'.pending[i]) {
      assert EntryInv(w, w.pending[i]);
    }
  }

  lemma SubmitKeepsLive(w: World, sid: Sid, how: Submission, s: Sid)
    requires sid !in w.db && sid !in w.published && w.next !in w.broker
    requires s in w.published && s in w.db && !Terminal(w.db[s].status) ==> Live(w, s)
    requires s in SubmitTo(w, sid, how).published && s in SubmitTo(w, sid, how).db
    requires !Terminal(SubmitTo(w, sid, how).db[s].status) && (s != sid ==> s in w.db)
    ensures Live(SubmitTo(w, sid, how), s)
  {
    var w' := SubmitTo(w, sid, how);
    if s == sid {
      assert how.Accepted? && Carries(w'.broker[w.next], sid);
    } else {
      var id :| id in w.broker && Carries(w.broker[id], s);
      assert Carries(w'.broker[id], s);
    }
  }

  /** Messages may be added or moved between queues, as long as deliveries in use stay put. */
  lemma BrokerStepInv(w: World, w': World, cfg: Config)
    requires Inv(w, cfg) && w' == w.(broker := w'.broker, next := w'.next, connected := w'.connected)
    requires w'.next >= w.next
    requires forall id | id in w.broker ::
               id in w'.broker && w'.broker[id].body == w.broker[id].body
               && (w'.broker[id].place == w.broker[id].place ||
                   (w'.broker[id].place.Main? && (w.broker[id].place.Retry? || (w.broker[id].place.Unacked? && !w.connected))))
    requires forall id | id in w'.broker && id !in w.broker ::
               id < w'.next && w'.broker[id].body.Bad? && !w'.broker[id].place.Unacked?
    requires w'.connected ==> w.connected
    ensures Inv(w', cfg)
  {
    LiveGrows(w, w');
    forall i | 0 <= i < |w'.pending| ensures EntryInv(w', w'.pending[i]) {
      assert EntryInv(w, w.pending[i]);
    }
    forall id | id in w'.broker ensures id < w'.next && Budget(w', w'.broker[id], cfg) {
      if id in w.broker {
        assert Budget(w, w.broker[id], cfg);
      }
    }
    forall id | w'.connected && InPlace(w', id, Unacked) ensures Awaited(w'.pending, id) {
      assert InPlace(w, id, Unacked);
    }
  }

  lemma FinishInv(w: World, i: nat, attempt: Attempt, cfg: Config)
    requires Inv(w, cfg) && i < |w.pending|
    ensures Inv(w.(pending := w.pending[i := w.pending[i].(future := ExecuteJudgeTask(attempt))]), cfg)
  {
    var w' := w.(pending := w.pending[i := w.pending[i].(future := ExecuteJudgeTask(attempt))]);
    LiveGrows(w, w');
    forall j | 0 <= j < |w'.pending| ensures EntryInv(w', w'.pending[j]) {
      assert EntryInv(w, w.pending[j]);
    }
    forall id | Awaited(w.pending, id) ensures Awaited(w'.pending, id) {
      var k :| 0 <= k < |w.pending| && w.pending[k].tag == id;
      assert w'.pending[k].tag == id;
    }
  }

  /** The rewrite does not take the verdict from a submission that nothing would judge again. */
  ghost predicate Harmless(w: World, step: Step) {
    step.LateWrite? ==>
      Timely(w, step) || step.save.Unsaved? || step.sid !in w.published || Live(w, step.sid)
  }

  lemma LateWriteInv(w: World, sid: Sid, save: Save, cfg: Config)
    requires Inv(w, cfg) && sid in w.rewrites && Harmless(w, LateWrite(sid, save))
    ensures Inv(Write(w, sid, w.rewrites[sid], save).(rewrites := w.rewrites - {sid}), cfg)
  {
    var w' := Write(w, sid, w.rewrites[sid], save).(rewrites := w.rewrites - {sid});
    forall s | s in w'.published && !Terminal(w'.db[s].status) ensures Live(w', s) {
      var id :| id in w.broker && Carries(w.broker[id], s);
      assert Carries(w'.broker[id], s);
    }
  }

  lemma RestartInv(w: World, cfg: Config)
    requires Inv(w, cfg) && forall id | id in w.broker :: !w.broker[id].place.Unacked?
    ensures Inv(w.(connected := true, pending := []), cfg)
  {
    LiveGrows(w, w.(connected := true, pending := []));
  }

  /** Every enabled step keeps the invariant, whatever fails in it. */
  lemma StepInv(w: World, step: Step, cfg: Config)
    requires Inv(w, cfg) && Enabled(w, step, cfg) && Harmless(w, step)
    ensures Inv(Next(w, step, cfg), cfg)
  {
    match step
    case Submit(sid, how) => SubmitInv(w, sid, how, cfg);
    case LateWrite(sid, save) => LateWriteInv(w, sid, save, cfg);
    case Inject(empty) =>
      assert w.next !in w.broker;
      BrokerStepInv(w, Next(w, step, cfg), cfg);
    case Consume(id, f) =>
      DeliverHandling(w, id, cfg);
      DeliveryInv(Deliver(w, id), w.next, w.broker[id].body, f, cfg);
    case Finish(i, attempt) => FinishInv(w, i, attempt, cfg);
    case Collect(i, f) => CollectInv(w, i, f, cfg);
    case Expire(id) => BrokerStepInv(w, Next(w, step, cfg), cfg);
    case Lose => BrokerStepInv(w, Next(w, step, cfg), cfg);
    case Requeue(id) => BrokerStepInv(w, Next(w, step, cfg), cfg);
    case Restart => RestartInv(w, cfg);
  }

  ghost predicate AllHarmless(w: World, steps: seq<Step>, cfg: Config)
    requires IsRun(w, steps, cfg)
    decreases |steps|
  {
    steps == [] || (Harmless(w, steps[0]) && AllHarmless(Next(w, steps[0], cfg), steps[1..], cfg))
  }

  lemma {:induction false} RunInv(w: World, steps: seq<Step>, cfg: Config)
    requires Inv(w, cfg) && IsRun(w, steps, cfg) && AllHarmless(w, steps, cfg)
    ensures Inv(After(w, steps, cfg), cfg)
    decreases |steps|
  {
    hide Inv, Next, Enabled, Harmless;
    if steps != [] {
      StepInv(w, steps[0], cfg);
      RunInv(Next(w, steps[0], cfg), steps[1..], cfg);
    }
  }

  // ---- Terminal is absorbing ---------------------------------------------

  ghost predicate KeepsTerminal(w: World, w': World) {
    forall sid | sid in w.db && Terminal(w.db[sid].status) :: sid in w'.db && Terminal(w'.db[sid].status)
  }

  lemma DeliveryKeepsTerminal(w: World, tag: nat, body: Body, f: DeliveryFaults)
    ensures KeepsTerminal(w, HandleDelivery(w, tag, body, f))
  {
    hide Ack, NackRequeue, Publish;
    RescueKeepsTerminal(w, tag, body, f.rescue);
    if body.Good? && body.task.sid in w.db && !Terminal(w.db[body.task.sid].status) {
      var dispatched := DispatchTask(w, tag, body.task, f).0;
      RescueKeepsTerminal(dispatched, tag, body, f.rescue);
    }
    SettleKeepsDb(w, tag);
  }

  lemma RescueKeepsTerminal(w: World, tag: nat, body: Body, f: Faults)
    ensures KeepsTerminal(w, Rescue(w, tag, body, f))
  {
    DeadLetterTouchesBroker(MarkDead(w, body, f), tag, body, f.sending);
    hide DeadLetter;
  }

  lemma SettleKeepsDb(w: World, tag: nat)
    ensures Ack(w, tag).db == NackRequeue(w, tag).db == w.db
  {
  }

  lemma RerouteKeepsTerminal(w: World, task: Task, f: Faults, cfg: Config)
    ensures KeepsTerminal(w, Reroute(w, task, f, cfg).0)
  {
  }

  lemma CollectKeepsTerminal(w: World, i: nat, f: Faults, cfg: Config)
    requires Inv(w, cfg) && i < |w.pending|
    ensures KeepsTerminal(w, CollectOne(w, i, f, cfg))
  {
    assert EntryInv(w, w.pending[i]);
    hide Ack, NackRequeue, Reroute, Inv, EntryInv;
    var p := w.pending[i];
    match p.future
    case Result(record) => SettleKeepsDb(Write(w, p.task.sid, record, f.save), p.tag);
    case Temporary(_) =>
      RerouteKeepsTerminal(w, p.task, f, cfg);
      SettleKeepsDb(Reroute(w, p.task, f, cfg).0, p.tag);
    case _ => SettleKeepsDb(w, p.tag);
  }

  /** No timely step takes a judged submission back, even with duplicate deliveries of it pending. */
  lemma TerminalAbsorbs(w: World, step: Step, cfg: Config)
    requires Inv(w, cfg) && Enabled(w, step, cfg) && Timely(w, step)
    ensures KeepsTerminal(w, Next(w, step, cfg))
  {
    match step
    case Consume(id, f) => DeliveryKeepsTerminal(Deliver(w, id), w.next, w.broker[id].body, f);
    case Collect(i, f) => CollectKeepsTerminal(w, i, f, cfg);
    case _ =>
  }

  lemma {:induction false} RunKeepsTerminal(w: World, steps: seq<Step>, cfg: Config)
    requires Inv(w, cfg) && IsRun(w, steps, cfg) && AllTimely(w, steps, cfg)
    ensures KeepsTerminal(w, After(w, steps, cfg))
    decreases |steps|
  {
    hide Inv, Next, Enabled, Timely;
    if steps != [] {
      StepInv(w, steps[0], cfg);
      TerminalAbsorbs(w, steps[0], cfg);
      RunKeepsTerminal(Next(w, steps[0], cfg), steps[1..], cfg);
    }
  }

  lemma SettleAddsNoRetry(w: World, tag: nat, ok: bool, id: nat)
    requires InPlace(Settle(w, tag, ok), id, Retry)
    ensures InPlace(w, id, Retry)
  {
  }

  lemma RescueAddsNoRetry(w: World, tag: nat, body: Body, f: Faults, id: nat)
    requires InPlace(Rescue(w, tag, body, f), id, Retry)
    ensures InPlace(w, id, Retry)
  {
    hide Settle, Ack, NackRequeue;
    var marked := if body.Good? then Mark(w, body.task.sid, SYSTEM_ERROR, f).0 else w;
    assert marked.broker == w.broker;
    var sent := Send(marked, body, Dead, f.sending);
    if body == Bad(true) {
      AckAddsNoRetry(marked, tag, id);
    } else if w.connected && !f.sending.Unsent? {
      AckAddsNoRetry(sent, tag, id);
    } else {
      NackAddsNoRetry(marked, tag, id);
    }
  }

  lemma AckAddsNoRetry(w: World, tag: nat, id: nat)
    requires InPlace(Ack(w, tag), id, Retry)
    ensures InPlace(w, id, Retry)
  {
  }

  lemma NackAddsNoRetry(w: World, tag: nat, id: nat)
    requires InPlace(NackRequeue(w, tag), id, Retry)
    ensures InPlace(w, id, Retry)
  {
  }

  lemma DeliveryAddsNoRetry(w: World, tag: nat, body: Body, f: DeliveryFaults, id: nat)
    requires InPlace(HandleDelivery(w, tag, body, f), id, Retry)
    ensures InPlace(w, id, Retry)
  {
    hide Rescue, Ack;
    if body.Bad? || !f.loads || body.task.sid !in w.db {
      RescueAddsNoRetry(w, tag, body, f.rescue, id);
    } else if Terminal(w.db[body.task.sid].status) {
      AckAddsNoRetry(w, tag, id);
    } else {
      var (dispatched, ok) := DispatchTask(w, tag, body.task, f);
      assert dispatched.broker == w.broker;
      if !ok {
        RescueAddsNoRetry(dispatched, tag, body, f.rescue, id);
      }
    }
  }

  lemma RerouteRetries(w: World, task: Task, f: Faults, cfg: Config, id: nat)
    requires InPlace(Reroute(w, task, f, cfg).0, id, Retry) && !InPlace(w, id, Retry)
    ensures Reroute(w, task, f, cfg).0.broker[id].body == Good(task.(retry := task.retry + 1))
    ensures task.retry < cfg.maxRetry
  {
    var exhausted := task.retry + 1 > cfg.maxRetry;
    MarkTouchesDb(w, task.sid, if exhausted then SYSTEM_ERROR else Record(Queued, false), f);
    hide Mark;
  }

  lemma MarkTouchesDb(w: World, sid: Sid, r: Record, f: Faults)
    ensures Mark(w, sid, r, f).0 == w.(db := Mark(w, sid, r, f).0.db)
  {
  }

  lemma CollectRetries(w: World, i: nat, f: Faults, cfg: Config, id: nat)
    requires i < |w.pending|
    requires InPlace(CollectOne(w, i, f, cfg), id, Retry) && !InPlace(w, id, Retry)
    ensures w.pending[i].future.Temporary? && w.pending[i].task.retry < cfg.maxRetry
    ensures CollectOne(w, i, f, cfg).broker[id].body == Good(w.pending[i].task.(retry := w.pending[i].task.retry + 1))
  {
    hide Reroute;
    var p := w.pending[i];
    match p.future
    case Result(record) =>
      SettleAddsNoRetry(Write(w, p.task.sid, record, f.save), p.tag, f.save.Saved? && p.task.sid in w.db, id);
    case Temporary(_) =>
      var (routed, ok) := Reroute(w, p.task, f, cfg);
      SettleAddsNoRetry(routed, p.tag, ok, id);
      RerouteRetries(w, p.task, f, cfg, id);
    case _ =>
  }

  /** What enters the retry queue is a collected task with exactly one more retry on it. */
  lemma RetryRaisesCount(w: World, step: Step, cfg: Config, id: nat)
    requires Enabled(w, step, cfg)
    requires InPlace(Next(w, step, cfg), id, Retry) && !InPlace(w, id, Retry)
    ensures step.Collect? && w.pending[step.i].future.Temporary?
    ensures Next(w, step, cfg).broker[id].body ==
            Good(w.pending[step.i].task.(retry := w.pending[step.i].task.retry + 1))
    ensures w.pending[step.i].task.retry < cfg.maxRetry
  {
    hide HandleDelivery, CollectOne;
    match step
    case Consume(m, f) => DeliveryAddsNoRetry(Deliver(w, m), w.next, w.broker[m].body, f, id);
    case Collect(i, f) => CollectRetries(w, i, f, cfg, id);
    case _ =>
  }

  // ---- The late rewrite --------------------------------------------------

  /** Exactly when the rewrite of JudgeService::submit is harmless. */
  lemma LateWriteExact(w: World, sid: Sid, save: Save, cfg: Config)
    requires Inv(w, cfg) && sid in w.rewrites
    ensures var step := LateWrite(sid, save);
            var w' := Next(w, step, cfg);
            && (KeepsTerminal(w, w') <==> Timely(w, step) || save.Unsaved?)
            && (NothingLost(w') <==> Timely(w, step) || save.Unsaved? || sid !in w.published || Live(w, sid))
  {
    var w' := Next(w, LateWrite(sid, save), cfg);
    forall s | s in w.published && Live(w, s) ensures Live(w', s) {
      var id :| id in w.broker && Carries(w.broker[id], s);
      assert Carries(w'.broker[id], s);
    }
    if Live(w', sid) {
      var id :| id in w'.broker && Carries(w'.broker[id], sid);
      assert Carries(w.broker[id], sid);
    }
  }

  const QUEUED := Record(Queued, false)
  const JUDGED := Record(Judged(Ok), true)
  const TASK := Task("s", 0)

  /** Submit, deliver, judge, collect, and only then the rewrite. */
  const OVERTAKEN := [
    Submit("s", Accepted), Consume(0, NO_DELIVERY_FAULTS), Finish(0, Responded(Ok)), Collect(0, NO_FAULTS),
    LateWrite("s", Saved)]

  const SENT := World(
    map["s" := QUEUED], map["s" := QUEUED], map[0 := Message(Good(TASK), Main)], 1, true, [],
    {"s"}, multiset{}, map["s" := 0])
  const JUDGING := World(
    map["s" := Record(Running, false)], map["s" := QUEUED], map[1 := Message(Good(TASK), Unacked)], 2, true,
    [Pending(TASK, 1, Working)], {"s"}, multiset{}, map["s" := 1])
  const ANSWERED := JUDGING.(pending := [Pending(TASK, 1, Result(JUDGED))])
  const SETTLED := World(
    map["s" := JUDGED], map["s" := QUEUED], map[], 2, true, [], {"s"}, multiset{1}, map["s" := 1])
  const LOST := SETTLED.(db := map["s" := QUEUED], rewrites := map[])

  lemma OvertakenDispatch(cfg: Config)
    requires cfg.maxInflight >= 1
    ensures Enabled(INITIAL, OVERTAKEN[0], cfg) && Next(INITIAL, OVERTAKEN[0], cfg) == SENT
    ensures Enabled(SENT, OVERTAKEN[1], cfg) && Next(SENT, OVERTAKEN[1], cfg) == JUDGING
  {
    assert Deliver(SENT, 0).broker == JUDGING.broker;
  }

  lemma OvertakenCollect(cfg: Config)
    ensures Enabled(JUDGING, OVERTAKEN[2], cfg) && Next(JUDGING, OVERTAKEN[2], cfg) == ANSWERED
    ensures Enabled(ANSWERED, OVERTAKEN[3], cfg) && Next(ANSWERED, OVERTAKEN[3], cfg) == SETTLED
  {
    var written := Write(ANSWERED, "s", JUDGED, Saved);
    assert written == ANSWERED.(db := SETTLED.db);
    assert Ack(written, 1).broker == map[];
  }

  /**
   * It is not always harmless: when a dispatcher overtakes the submitting request, an accepted
   * verdict is replaced by QUEUED and nothing is left that would judge the submission again.
   */
  lemma LateWriteCanLose(cfg: Config)
    requires cfg.maxInflight >= 1
    ensures IsRun(INITIAL, OVERTAKEN, cfg) && IsRun(INITIAL, OVERTAKEN[..4], cfg)
    ensures After(INITIAL, OVERTAKEN[..4], cfg) == SETTLED && After(INITIAL, OVERTAKEN, cfg) == LOST
    ensures "s" in LOST.published && !Terminal(LOST.db["s"].status) && LOST.broker == map[]
  {
    OvertakenWrite(cfg);
    hide Next, Enabled, IsRun, After;
    OvertakenPrefix(cfg);
    ChainIsRun([SETTLED, LOST], OVERTAKEN[4..], cfg);
    assert OVERTAKEN == OVERTAKEN[..4] + OVERTAKEN[4..];
    RunInTwo(INITIAL, OVERTAKEN[..4], OVERTAKEN[4..], cfg);
  }

  lemma OvertakenPrefix(cfg: Config)
    requires cfg.maxInflight >= 1
    ensures IsRun(INITIAL, OVERTAKEN[..4], cfg) && After(INITIAL, OVERTAKEN[..4], cfg) == SETTLED
  {
    OvertakenDispatch(cfg);
    OvertakenCollect(cfg);
    hide Next, Enabled, IsRun, After;
    ChainIsRun([INITIAL, SENT, JUDGING, ANSWERED, SETTLED], OVERTAKEN[..4], cfg);
  }

  lemma OvertakenWrite(cfg: Config)
    ensures Enabled(SETTLED, OVERTAKEN[4], cfg) && Next(SETTLED, OVERTAKEN[4], cfg) == LOST
  {
  }

  /** A run continued by another. */
  lemma {:induction false} RunInTwo(w: World, steps: seq<Step>, more: seq<Step>, cfg: Config)
    requires IsRun(w, steps, cfg) && IsRun(After(w, steps, cfg), more, cfg)
    ensures IsRun(w, steps + more, cfg) && After(w, steps + more, cfg) == After(After(w, steps, cfg), more, cfg)
    decreases |steps|
  {
    hide Enabled, Next;
    if steps == [] {
      assert steps + more == more;
    } else {
      assert (steps + more)[1..] == steps[1..] + more;
      RunInTwo(Next(w, steps[0], cfg), steps[1..], more, cfg);
    }
  }

  /** A run given by the worlds it passes through. */
  lemma {:induction false} ChainIsRun(ws: seq<World>, steps: seq<Step>, cfg: Config)
    requires |ws| == |steps| + 1
    requires forall i | 0 <= i < |steps| :: Enabled(ws[i], steps[i], cfg) && ws[i + 1] == Next(ws[i], steps[i], cfg)
    ensures IsRun(ws[0], steps, cfg) && After(ws[0], steps, cfg) == ws[|steps|]
    decreases |steps|
  {
    hide Enabled, Next;
    if steps != [] {
      ChainIsRun(ws[1..], steps[1..], cfg);
    }
  }
}
