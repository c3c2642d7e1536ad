/**
 * Exactly when a submission is lost. `published` only records history, so the invariant of the
 * protocol can be held for any part of it: for one submission, or for none at all.
 */
module JudgeLoss {
  import opened Text
  import opened JudgeProtocol
  import opened JudgeRuns

  /** The invariant with NothingLost asked only of the submissions in `some`. */
  ghost predicate InvFor(w: World, some: set<Sid>, cfg: Config) {
    Inv(w.(published := w.published * some), cfg)
  }

  // ---- No step reads the history --------------------------------------------

  lemma SettleForgets(w: World, tag: nat, ok: bool, ps: set<Sid>)
    ensures Settle(w.(published := ps), tag, ok) == Settle(w, tag, ok).(published := ps)
    ensures Settle(w, tag, ok).published == w.published
  {
  }

  lemma RescueForgets(w: World, tag: nat, body: Body, f: Faults, ps: set<Sid>)
    ensures Rescue(w.(published := ps), tag, body, f) == Rescue(w, tag, body, f).(published := ps)
    ensures Rescue(w, tag, body, f).published == w.published
  {
    MarkDeadForgets(w, body, f, ps);
    hide MarkDead, DeadLetter;
    DeadLetterForgets(MarkDead(w, body, f), tag, body, f.sending, ps);
  }

  lemma MarkDeadForgets(w: World, body: Body, f: Faults, ps: set<Sid>)
    ensures MarkDead(w.(published := ps), body, f) == MarkDead(w, body, f).(published := ps)
    ensures MarkDead(w, body, f).published == w.published
  {
    if body.Good? {
      MarkForgets(w, body.task.sid, SYSTEM_ERROR, f, ps);
      hide Mark;
    }
  }

  lemma DeadLetterForgets(w: World, tag: nat, body: Body, sending: Sending, ps: set<Sid>)
    ensures DeadLetter(w.(published := ps), tag, body, sending) == DeadLetter(w, tag, body, sending).(published := ps)
    ensures DeadLetter(w, tag, body, sending).published == w.published
  {
    SettleForgets(w, tag, true, ps);
    SettleForgets(w, tag, false, ps);
    SettleForgets(Send(w, body, Dead, sending), tag, true, ps);
    assert Send(w.(published := ps), body, Dead, sending) == Send(w, body, Dead, sending).(published := ps);
    hide Ack, NackRequeue, Send;
  }

  lemma DispatchForgets(w: World, tag: nat, task: Task, f: DeliveryFaults, ps: set<Sid>)
    ensures var (dispatched, ok) := DispatchTask(w, tag, task, f);
            && DispatchTask(w.(published := ps), tag, task, f) == (dispatched.(published := ps), ok)
            && dispatched.published == w.published
  {
  }

  lemma DeliveryForgets(w: World, tag: nat, body: Body, f: DeliveryFaults, ps: set<Sid>)
    ensures HandleDelivery(w.(published := ps), tag, body, f) == HandleDelivery(w, tag, body, f).(published := ps)
    ensures HandleDelivery(w, tag, body, f).published == w.published
  {
    RescueForgets(w, tag, body, f.rescue, ps);
    SettleForgets(w, tag, true, ps);
    hide Rescue, Ack, DispatchTask;
    if body.Good? {
      DispatchForgets(w, tag, body.task, f, ps);
      RescueForgets(DispatchTask(w, tag, body.task, f).0, tag, body, f.rescue, ps);
    }
  }

  lemma MarkForgets(w: World, sid: Sid, r: Record, f: Faults, ps: set<Sid>)
    ensures var (marked, ok) := Mark(w, sid, r, f);
            Mark(w.(published := ps), sid, r, f) == (marked.(published := ps), ok) && marked.published == w.published
            && marked.connected == w.connected
  {
  }

  lemma RerouteForgets(w: World, task: Task, f: Faults, cfg: Config, ps: set<Sid>)
    ensures var (routed, ok) := Reroute(w, task, f, cfg);
            Reroute(w.(published := ps), task, f, cfg) == (routed.(published := ps), ok) && routed.published == w.published
  {
    MarkForgets(w, task.sid, if task.retry + 1 > cfg.maxRetry then SYSTEM_ERROR else Record(Queued, false), f, ps);
    hide Mark;
  }

  lemma FinalizeForgets(w: World, p: Pending, f: Faults, cfg: Config, ps: set<Sid>)
    ensures Finalize(w.(published := ps), p, f, cfg) == Finalize(w, p, f, cfg).(published := ps)
    ensures Finalize(w, p, f, cfg).published == w.published
  {
    match p.future
    case Result(record) =>
      var written, ok := Write(w, p.task.sid, record, f.save), f.save.Saved? && p.task.sid in w.db;
      assert Write(w.(published := ps), p.task.sid, record, f.save) == written.(published := ps);
      hide Settle, Write;
      SettleForgets(written, p.tag, ok, ps);
    case Temporary(_) =>
      var (routed, ok) := Reroute(w, p.task, f, cfg);
      RerouteForgets(w, p.task, f, cfg, ps);
      hide Settle, Reroute;
      SettleForgets(routed, p.tag, ok, ps);
    case _ => SettleForgets(w, p.tag, false, ps);
  }

  function Added(step: Step): set<Sid> {
    if step.Submit? && step.how.Accepted? then {step.sid} else {}
  }

  /** The step does the same whatever the history. */
  ghost predicate Forgets(w: World, step: Step, cfg: Config, ps: set<Sid>)
    requires Enabled(w, step, cfg)
  {
    && Enabled(w.(published := ps), step, cfg)
    && Next(w, step, cfg).published == w.published + Added(step)
    && Next(w.(published := ps), step, cfg) == Next(w, step, cfg).(published := ps + Added(step))
  }

  lemma StepForgets(w: World, step: Step, cfg: Config, ps: set<Sid>)
    requires Enabled(w, step, cfg)
    ensures Forgets(w, step, cfg, ps)
  {
    hide Forgets, Enabled;
    match step
    case Consume(id, f) => ConsumeForgets(w, id, f, cfg, ps);
    case Collect(i, f) => CollectForgets(w, i, f, cfg, ps);
    case Submit(sid, how) => SubmitForgets(w, sid, how, cfg, ps);
    case LateWrite(sid, save) => LateWriteForgets(w, sid, save, cfg, ps);
    case _ => BrokerForgets(w, step, cfg, ps);
  }

  lemma BrokerForgets(w: World, step: Step, cfg: Config, ps: set<Sid>)
    requires Enabled(w, step, cfg)
    requires !step.Consume? && !step.Collect? && !step.Submit? && !step.LateWrite?
    ensures Forgets(w, step, cfg, ps)
  {
  }

  lemma SubmitForgets(w: World, sid: Sid, how: Submission, cfg: Config, ps: set<Sid>)
    requires Enabled(w, Submit(sid, how), cfg)
    ensures Forgets(w, Submit(sid, how), cfg, ps)
  {
  }

  lemma LateWriteForgets(w: World, sid: Sid, save: Save, cfg: Config, ps: set<Sid>)
    requires Enabled(w, LateWrite(sid, save), cfg)
    ensures Forgets(w, LateWrite(sid, save), cfg, ps)
  {
  }

  lemma CollectForgets(w: World, i: nat, f: Faults, cfg: Config, ps: set<Sid>)
    requires Enabled(w, Collect(i, f), cfg)
    ensures Forgets(w, Collect(i, f), cfg, ps)
  {
    hide Finalize;
    FinalizeForgets(w, w.pending[i], f, cfg, ps);
  }

  lemma ConsumeForgets(w: World, id: nat, f: DeliveryFaults, cfg: Config, ps: set<Sid>)
    requires Enabled(w, Consume(id, f), cfg)
    ensures Forgets(w, Consume(id, f), cfg, ps)
  {
    hide HandleDelivery;
    DeliveryForgets(Deliver(w, id), w.next, w.broker[id].body, f, ps);
  }

  lemma InvForFewer(w: World, ps: set<Sid>, cfg: Config)
    requires Inv(w, cfg) && ps <= w.published
    ensures Inv(w.(published := ps), cfg)
  {
    var w' := w.(published := ps);
    forall i | 0 <= i < |w'.pending| ensures EntryInv(w', w'.pending[i]) {
      assert EntryInv(w, w.pending[i]);
    }
    forall id | id in w'.broker ensures Budget(w', w'.broker[id], cfg) {
      assert Budget(w, w.broker[id], cfg);
    }
    forall sid | sid in ps ensures sid in w'.db && (Terminal(w'.db[sid].status) || Live(w', sid)) {
      if Live(w, sid) {
        var id :| id in w.broker && Carries(w.broker[id], sid);
        assert Carries(w'.broker[id], sid);
      }
    }
  }

  /** The rewrite takes its verdict from a submission of `some` that no message is left for. */
  ghost predicate Overwrites(w: World, step: Step, some: set<Sid>) {
    && step.LateWrite? && step.sid in w.published * some
    && step.sid in w.rewrites && w.rewrites[step.sid].status.Queued? && !step.save.Unsaved?
    && step.sid in w.db && Terminal(w.db[step.sid].status) && !Live(w, step.sid)
  }

  lemma StepInvFor(w: World, step: Step, some: set<Sid>, cfg: Config)
    requires InvFor(w, some, cfg) && Enabled(w, step, cfg) && !Overwrites(w, step, some)
    ensures InvFor(Next(w, step, cfg), some, cfg)
  {
    var ps := w.published * some;
    var v := w.(published := ps);
    StepForgets(w, step, cfg, ps);
    assert Harmless(v, step) by {
      if step.LateWrite? && Live(w, step.sid) {
        var id :| id in w.broker && Carries(w.broker[id], step.sid);
        assert Carries(v.broker[id], step.sid);
      }
    }
    hide Inv, Next, Enabled;
    StepInv(v, step, cfg);
    var w' := Next(w, step, cfg);
    assert w'.published * some <= ps + Added(step);
    InvForFewer(Next(v, step, cfg), w'.published * some, cfg);
    assert Next(v, step, cfg).(published := w'.published * some) == w'.(published := w'.published * some);
  }

  ghost predicate NeverOverwrites(w: World, steps: seq<Step>, some: set<Sid>, cfg: Config)
    requires IsRun(w, steps, cfg)
    decreases |steps|
  {
    steps == [] ||
    (!Overwrites(w, steps[0], some) && NeverOverwrites(Next(w, steps[0], cfg), steps[1..], some, cfg))
  }

  lemma {:induction false} RunInvFor(w: World, steps: seq<Step>, some: set<Sid>, cfg: Config)
    requires InvFor(w, some, cfg) && IsRun(w, steps, cfg) && NeverOverwrites(w, steps, some, cfg)
    ensures InvFor(After(w, steps, cfg), some, cfg)
    decreases |steps|
  {
    hide InvFor, Next, Enabled, Overwrites;
    if steps != [] {
      StepInvFor(w, steps[0], some, cfg);
      RunInvFor(Next(w, steps[0], cfg), steps[1..], some, cfg);
    }
  }

  lemma InitialInvFor(some: set<Sid>, cfg: Config)
    ensures InvFor(INITIAL, some, cfg)
  {
    InitialInv(cfg);
    assert INITIAL.(published := INITIAL.published * some) == INITIAL;
  }

  lemma {:induction false} NothingToOverwrite(w: World, steps: seq<Step>, cfg: Config)
    requires IsRun(w, steps, cfg)
    ensures NeverOverwrites(w, steps, {}, cfg)
    decreases |steps|
  {
    hide Next, Enabled;
    if steps != [] {
      NothingToOverwrite(Next(w, steps[0], cfg), steps[1..], cfg);
    }
  }

  // ---- Bounds, without any condition -----------------------------------------

  /** The invariant without the clause that nothing is lost. */
  ghost predicate Bounds(w: World, cfg: Config) {
    && PendingInv(w, cfg) && BrokerInv(w, cfg) && RecordInv(w)
    && (w.connected ==> forall id | InPlace(w, id, Unacked) :: Awaited(w.pending, id))
  }

  lemma BoundsAreInvForNone(w: World, cfg: Config)
    ensures Bounds(w, cfg) <==> InvFor(w, {}, cfg)
  {
    var v := w.(published := w.published * {});
    assert forall p :: EntryInv(w, p) <==> EntryInv(v, p);
    assert forall m :: Budget(w, m, cfg) <==> Budget(v, m, cfg);
    assert forall id :: InPlace(w, id, Unacked) <==> InPlace(v, id, Unacked);
    assert NothingLost(v);
  }

  lemma NextBounds(w: World, step: Step, cfg: Config)
    requires Bounds(w, cfg) && Enabled(w, step, cfg)
    ensures Bounds(Next(w, step, cfg), cfg)
  {
    hide Bounds, InvFor, Next, Enabled;
    BoundsAreInvForNone(w, cfg);
    StepBounds(w, step, cfg);
    BoundsAreInvForNone(Next(w, step, cfg), cfg);
  }

  /**
   * Settlement is once, the window is respected, every record is consistent, every retry in budget and
   * no delivery forgotten; whatever the late rewrites do.
   */
  lemma ReachableBounds(steps: seq<Step>, cfg: Config)
    requires IsRun(INITIAL, steps, cfg)
    ensures var w := After(INITIAL, steps, cfg);
            && |w.pending| <= cfg.maxInflight
            && (forall tag | tag in w.settled :: w.settled[tag] == 1)
            && (forall i | 0 <= i < |w.pending| :: w.pending[i].tag !in w.settled)
            && (forall i, j | 0 <= i < j < |w.pending| :: w.pending[i].tag != w.pending[j].tag)
            && (forall sid | sid in w.db :: w.db[sid].accepted <==> w.db[sid].status == Judged(Ok))
            && (forall id | id in w.broker && w.broker[id].body.Good? && !w.broker[id].place.Dead? ::
                  w.broker[id].body.task.retry <= cfg.maxRetry)
            && (w.connected ==> forall id | InPlace(w, id, Unacked) :: Awaited(w.pending, id))
  {
    InitialInvFor({}, cfg);
    NothingToOverwrite(INITIAL, steps, cfg);
    RunInvFor(INITIAL, steps, {}, cfg);
    var w := After(INITIAL, steps, cfg);
    var v := w.(published := w.published * {});
    forall i | 0 <= i < |w.pending| ensures w.pending[i].tag !in w.settled {
      assert EntryInv(v, v.pending[i]);
    }
    forall id | id in w.broker && w.broker[id].body.Good? && !w.broker[id].place.Dead?
      ensures w.broker[id].body.task.retry <= cfg.maxRetry
    {
      assert Budget(v, v.broker[id], cfg);
    }
    forall id | w.connected && InPlace(w, id, Unacked) ensures Awaited(w.pending, id) {
      assert InPlace(v, id, Unacked);
    }
  }

  // ---- A lost submission stays lost ----------------------------------------------

  /** The world after a call in which the submission had no part. */
  ghost predicate Aside(w: World, w': World, sid: Sid) {
    && (sid in w'.db <==> sid in w.db) && (sid in w.db ==> w'.db[sid] == w.db[sid])
    && w'.rewrites == w.rewrites && w'.published == w.published
    && forall id | id in w'.broker && Carries(w'.broker[id], sid) :: Live(w, sid)
  }

  lemma LiveBy(w: World, id: nat, sid: Sid)
    requires id in w.broker && Carries(w.broker[id], sid)
    ensures Live(w, sid)
  {
  }

  lemma SettleAside(w: World, tag: nat, sid: Sid)
    ensures Aside(w, Ack(w, tag), sid) && Aside(w, NackRequeue(w, tag), sid)
  {
    forall id | id in w.broker && Carries(w.broker[id], sid) ensures Live(w, sid) {
      LiveBy(w, id, sid);
    }
  }

  lemma AsideTrans(u: World, v: World, w: World, sid: Sid)
    requires Aside(u, v, sid) && Aside(v, w, sid)
    ensures Aside(u, w, sid)
  {
  }

  lemma WriteAside(w: World, other: Sid, r: Record, save: Save, sid: Sid)
    requires other != sid
    ensures Aside(w, Write(w, other, r, save), sid)
  {
    forall id | id in w.broker && Carries(w.broker[id], sid) ensures Live(w, sid) {
      LiveBy(w, id, sid);
    }
  }

  lemma SendAside(w: World, body: Body, place: Place, sending: Sending, sid: Sid)
    requires !Carries(Message(body, place), sid)
    ensures Aside(w, Send(w, body, place, sending), sid)
  {
    forall id | id in w.broker && Carries(w.broker[id], sid) ensures Live(w, sid) {
      LiveBy(w, id, sid);
    }
  }

  lemma MarkAside(w: World, other: Sid, r: Record, f: Faults, sid: Sid)
    requires other != sid
    ensures Aside(w, Mark(w, other, r, f).0, sid)
  {
    WriteAside(w, other, r, f.save, sid);
    WriteAside(w, other, r, Unsaved, sid);
  }

  lemma RescueAside(w: World, tag: nat, body: Body, f: Faults, sid: Sid)
    requires body.Good? ==> body.task.sid != sid
    ensures Aside(w, Rescue(w, tag, body, f), sid)
  {
    var marked := if body.Good? then Mark(w, body.task.sid, SYSTEM_ERROR, f).0 else w;
    if body.Good? {
      MarkAside(w, body.task.sid, SYSTEM_ERROR, f, sid);
    } else {
      WriteAside(w, sid + "x", SYSTEM_ERROR, Unsaved, sid);
    }
    var sent := Send(marked, body, Dead, f.sending);
    SendAside(marked, body, Dead, f.sending, sid);
    SettleAside(marked, tag, sid);
    SettleAside(sent, tag, sid);
    hide Aside, Mark, Ack, NackRequeue, Send;
    AsideTrans(w, marked, Ack(marked, tag), sid);
    AsideTrans(w, marked, NackRequeue(marked, tag), sid);
    AsideTrans(w, marked, sent, sid);
    AsideTrans(w, sent, Ack(sent, tag), sid);
  }

  lemma DeliveryAside(w: World, tag: nat, body: Body, f: DeliveryFaults, sid: Sid)
    requires body.Good? ==> body.task.sid != sid
    ensures Aside(w, HandleDelivery(w, tag, body, f), sid)
  {
    RescueAside(w, tag, body, f.rescue, sid);
    SettleAside(w, tag, sid);
    if body.Good? && body.task.sid in w.db && !Terminal(w.db[body.task.sid].status) && f.reloads {
      var running := Write(w, body.task.sid, Record(Running, false), f.save);
      WriteAside(w, body.task.sid, Record(Running, false), f.save, sid);
      RescueAside(running, tag, body, f.rescue, sid);
      hide Ack, Rescue;
      AsideTrans(w, running, Rescue(running, tag, body, f.rescue), sid);
    }
  }

  lemma FinalizeAside(w: World, p: Pending, f: Faults, cfg: Config, sid: Sid)
    requires p.task.sid != sid
    ensures Aside(w, Finalize(w, p, f, cfg), sid)
  {
    SettleAside(w, p.tag, sid);
    match p.future
    case Result(record) =>
      var written := Write(w, p.task.sid, record, f.save);
      WriteAside(w, p.task.sid, record, f.save, sid);
      SettleAside(written, p.tag, sid);
      hide Aside, Ack, NackRequeue;
      AsideTrans(w, written, Ack(written, p.tag), sid);
      AsideTrans(w, written, NackRequeue(written, p.tag), sid);
    case Temporary(_) =>
      var (routed, ok) := Reroute(w, p.task, f, cfg);
      RerouteAside(w, p.task, f, cfg, sid);
      SettleAside(routed, p.tag, sid);
      hide Aside, Ack, NackRequeue, Reroute;
      AsideTrans(w, routed, Ack(routed, p.tag), sid);
      AsideTrans(w, routed, NackRequeue(routed, p.tag), sid);
    case _ =>
  }

  lemma RerouteAside(w: World, task: Task, f: Faults, cfg: Config, sid: Sid)
    requires task.sid != sid
    ensures Aside(w, Reroute(w, task, f, cfg).0, sid)
  {
    var again := task.(retry := task.retry + 1);
    var exhausted := again.retry > cfg.maxRetry;
    var record := if exhausted then SYSTEM_ERROR else Record(Queued, false);
    var place := if exhausted then Dead else Retry;
    var marked := Mark(w, task.sid, record, f).0;
    MarkAside(w, task.sid, record, f, sid);
    SendAside(marked, Good(again), place, f.sending, sid);
    hide Aside, Mark, Send;
    AsideTrans(w, marked, Send(marked, Good(again), place, f.sending), sid);
  }

  /** Not judged, no message left, nothing more to be written. */
  ghost predicate Lost(w: World, sid: Sid) {
    && sid in w.published && sid in w.db && !Terminal(w.db[sid].status)
    && !Live(w, sid) && sid !in w.rewrites
  }

  lemma CarriedIsLive(w: World, id: nat, sid: Sid)
    requires id in w.broker
    ensures Carries(w.broker[id], sid) ==> Live(w, sid)
  {
  }

  lemma DeliverLive(w: World, id: nat, sid: Sid)
    requires id in w.broker
    ensures Live(Deliver(w, id), sid) ==> Live(w, sid)
  {
    var held := Deliver(w, id);
    if k :| k in held.broker && Carries(held.broker[k], sid) {
      LiveBy(w, if k == w.next then id else k, sid);
    }
  }

  lemma ConsumeAside(w: World, id: nat, f: DeliveryFaults, sid: Sid)
    requires id in w.broker && !Live(w, sid)
    ensures Aside(w, HandleDelivery(Deliver(w, id), w.next, w.broker[id].body, f), sid)
  {
    DeliverLive(w, id, sid);
    CarriedIsLive(w, id, sid);
    hide HandleDelivery;
    DeliveryAside(Deliver(w, id), w.next, w.broker[id].body, f, sid);
  }

  lemma CollectAside(w: World, i: nat, f: Faults, cfg: Config, sid: Sid)
    requires InvFor(w, {}, cfg) && !Live(w, sid) && i < |w.pending|
    ensures Aside(w, CollectOne(w, i, f, cfg), sid)
  {
    var p := w.pending[i];
    assert EntryInv(w.(published := w.published * {}), p);
    CarriedIsLive(w, p.tag, sid);
    hide Finalize, InvFor;
    FinalizeAside(w, p, f, cfg, sid);
  }

  lemma LostStaysLost(w: World, step: Step, sid: Sid, cfg: Config)
    requires InvFor(w, {}, cfg) && Lost(w, sid) && Enabled(w, step, cfg)
    ensures Lost(Next(w, step, cfg), sid)
  {
    NoNewLife(w, step, sid, cfg);
    match step
    case Consume(id, f) =>
      hide HandleDelivery, InvFor, Deliver;
      ConsumeAside(w, id, f, sid);
    case Collect(i, f) =>
      hide CollectOne, InvFor;
      CollectAside(w, i, f, cfg, sid);
    case _ => hide InvFor;
  }

  /** No step gives a known submission a message if it has none. */
  lemma NoNewLife(w: World, step: Step, sid: Sid, cfg: Config)
    requires InvFor(w, {}, cfg) && sid in w.db && Enabled(w, step, cfg)
    ensures Live(Next(w, step, cfg), sid) ==> Live(w, sid)
  {
    if !Live(w, sid) {
      match step
      case Consume(id, f) =>
        hide HandleDelivery, InvFor, Deliver;
        ConsumeAside(w, id, f, sid);
      case Collect(i, f) =>
        hide CollectOne, InvFor;
        CollectAside(w, i, f, cfg, sid);
      case _ =>
        hide InvFor;
        QuietLive(w, step, sid, cfg);
    }
  }

  lemma QuietLive(w: World, step: Step, sid: Sid, cfg: Config)
    requires Enabled(w, step, cfg) && !step.Consume? && !step.Collect? && sid in w.db
    ensures Live(Next(w, step, cfg), sid) ==> Live(w, sid)
  {
    var w' := Next(w, step, cfg);
    if id :| id in w'.broker && Carries(w'.broker[id], sid) {
      LiveBy(w, id, sid);
    }
  }

  lemma {:induction false} LostForever(w: World, steps: seq<Step>, sid: Sid, cfg: Config)
    requires InvFor(w, {}, cfg) && Lost(w, sid) && IsRun(w, steps, cfg)
    ensures Lost(After(w, steps, cfg), sid)
    decreases |steps|
  {
    hide InvFor, Lost, Next, Enabled;
    if steps != [] {
      LostStaysLost(w, steps[0], sid, cfg);
      StepBounds(w, steps[0], cfg);
      LostForever(Next(w, steps[0], cfg), steps[1..], sid, cfg);
    }
  }

  lemma StepBounds(w: World, step: Step, cfg: Config)
    requires InvFor(w, {}, cfg) && Enabled(w, step, cfg)
    ensures InvFor(Next(w, step, cfg), {}, cfg)
  {
    hide InvFor, Next;
    assert !Overwrites(w, step, {});
    StepInvFor(w, step, {}, cfg);
  }

  /** Taking the verdict from a submission without a message loses it on the spot. */
  lemma OverwriteLoses(w: World, step: Step, sid: Sid, cfg: Config)
    requires Enabled(w, step, cfg) && Overwrites(w, step, {sid})
    ensures Lost(Next(w, step, cfg), sid)
  {
    QuietLive(w, step, sid, cfg);
  }

  lemma {:induction false} OverwrittenIsLost(w: World, steps: seq<Step>, sid: Sid, cfg: Config)
    requires InvFor(w, {}, cfg) && IsRun(w, steps, cfg) && !NeverOverwrites(w, steps, {sid}, cfg)
    ensures Lost(After(w, steps, cfg), sid)
    decreases |steps|
  {
    hide InvFor, Lost, Next, Enabled, Overwrites;
    StepBounds(w, steps[0], cfg);
    if Overwrites(w, steps[0], {sid}) {
      OverwriteLoses(w, steps[0], sid, cfg);
      LostForever(Next(w, steps[0], cfg), steps[1..], sid, cfg);
    } else {
      OverwrittenIsLost(Next(w, steps[0], cfg), steps[1..], sid, cfg);
    }
  }

  /**
   * No submission is lost: after any run from the start, across retries, failed saves and publishes,
   * nacks, duplicates, lost connections and restarts, an accepted submission is judged or still has a
   * message in one of the queues or in an open delivery, if and only if its own late rewrite never took
   * a verdict from it that no message was left to restore.
   */
  lemma NoSubmissionLost(steps: seq<Step>, cfg: Config, sid: Sid)
    requires IsRun(INITIAL, steps, cfg) && sid in After(INITIAL, steps, cfg).published
    ensures var w := After(INITIAL, steps, cfg);
            (sid in w.db && (Terminal(w.db[sid].status) || Live(w, sid)))
            <==> NeverOverwrites(INITIAL, steps, {sid}, cfg)
  {
    if NeverOverwrites(INITIAL, steps, {sid}, cfg) {
      InitialInvFor({sid}, cfg);
      RunInvFor(INITIAL, steps, {sid}, cfg);
      InvForOne(After(INITIAL, steps, cfg), sid, cfg);
    } else {
      InitialInvFor({}, cfg);
      OverwrittenIsLost(INITIAL, steps, sid, cfg);
    }
  }

  lemma InvForOne(w: World, sid: Sid, cfg: Config)
    requires InvFor(w, {sid}, cfg) && sid in w.published
    ensures sid in w.db && (Terminal(w.db[sid].status) || Live(w, sid))
  {
    var v := w.(published := w.published * {sid});
    assert sid in v.published && NothingLost(v);
    if Live(v, sid) {
      var id :| id in v.broker && Carries(v.broker[id], sid);
      LiveBy(w, id, sid);
    }
  }

  // ---- The second load of a delivery ------------------------------------------------

  /** A submission with a message has no failure still to be written over its record. */
  ghost predicate NoFailureToWrite(w: World) {
    forall sid | sid in w.rewrites && Live(w, sid) :: w.rewrites[sid].status.Queued?
  }

  lemma RescueKeepsRewrites(w: World, tag: nat, body: Body, f: Faults)
    ensures Rescue(w, tag, body, f).rewrites == w.rewrites && Ack(w, tag).rewrites == w.rewrites
  {
    DeadLetterTouchesBroker(MarkDead(w, body, f), tag, body, f.sending);
    hide DeadLetter;
  }

  lemma DispatchKeepsRewrites(w: World, tag: nat, task: Task, f: DeliveryFaults)
    ensures DispatchTask(w, tag, task, f).0.rewrites == w.rewrites
  {
  }

  lemma DeliveryKeepsRewrites(w: World, tag: nat, body: Body, f: DeliveryFaults)
    ensures HandleDelivery(w, tag, body, f).rewrites == w.rewrites
  {
    RescueKeepsRewrites(w, tag, body, f.rescue);
    hide Rescue, Ack;
    if body.Good? {
      DispatchKeepsRewrites(w, tag, body.task, f);
      hide DispatchTask;
      RescueKeepsRewrites(DispatchTask(w, tag, body.task, f).0, tag, body, f.rescue);
    }
  }

  lemma RewritesShrink(w: World, step: Step, cfg: Config)
    requires Enabled(w, step, cfg) && !step.Submit?
    ensures var w' := Next(w, step, cfg);
            forall sid | sid in w'.rewrites :: sid in w.rewrites && w'.rewrites[sid] == w.rewrites[sid]
  {
    match step
    case Consume(id, f) =>
      hide HandleDelivery;
      DeliveryKeepsRewrites(Deliver(w, id), w.next, w.broker[id].body, f);
    case Collect(i, f) =>
      hide Finalize;
      FinalizeKeepsRewrites(w, w.pending[i], f, cfg);
    case _ =>
  }

  lemma FinalizeKeepsRewrites(w: World, p: Pending, f: Faults, cfg: Config)
    ensures Finalize(w, p, f, cfg).rewrites == w.rewrites
  {
    match p.future
    case Result(record) =>
      hide Ack, NackRequeue, Write;
      SettleKeepsRewrites(Write(w, p.task.sid, record, f.save), p.tag);
      WriteKeepsRewrites(w, p.task.sid, record, f.save);
    case Temporary(_) =>
      hide Ack, NackRequeue, Mark;
      var exhausted := p.task.retry + 1 > cfg.maxRetry;
      MarkTouchesDb(w, p.task.sid, if exhausted then SYSTEM_ERROR else Record(Queued, false), f);
      SettleKeepsRewrites(Reroute(w, p.task, f, cfg).0, p.tag);
    case _ => SettleKeepsRewrites(w, p.tag);
  }

  lemma WriteKeepsRewrites(w: World, sid: Sid, r: Record, save: Save)
    ensures Write(w, sid, r, save).rewrites == w.rewrites
  {
  }

  lemma SettleKeepsRewrites(w: World, tag: nat)
    ensures Ack(w, tag).rewrites == NackRequeue(w, tag).rewrites == w.rewrites
  {
  }

  lemma StepNoFailure(w: World, step: Step, cfg: Config)
    requires InvFor(w, {}, cfg) && NoFailureToWrite(w) && Enabled(w, step, cfg)
    ensures NoFailureToWrite(Next(w, step, cfg))
  {
    var w' := Next(w, step, cfg);
    var v := w.(published := w.published * {});
    assert forall id | id in w.broker :: Budget(v, v.broker[id], cfg);
    assert forall sid | sid in w.rewrites :: sid in w.db by { assert RecordInv(v); }
    if step.Submit? {
      forall sid | sid in w'.rewrites && Live(w', sid) ensures w'.rewrites[sid].status.Queued? {
        if sid != step.sid {
          hide InvFor;
          QuietLive(w, step, sid, cfg);
        } else {
          SubmitLive(w, step.sid, step.how);
        }
      }
    } else {
      RewritesShrink(w, step, cfg);
      hide Next, InvFor, Live;
      forall sid | sid in w'.rewrites && Live(w', sid) ensures w'.rewrites[sid].status.Queued? {
        NoNewLife(w, step, sid, cfg);
      }
    }
  }

  lemma SubmitLive(w: World, sid: Sid, how: Submission)
    requires forall id | id in w.broker && w.broker[id].body.Good? :: w.broker[id].body.task.sid in w.db
    requires sid !in w.db
    ensures Live(SubmitTo(w, sid, how), sid) ==> how.Accepted?
  {
  }

  lemma {:induction false} RunNoFailure(w: World, steps: seq<Step>, cfg: Config)
    requires InvFor(w, {}, cfg) && NoFailureToWrite(w) && IsRun(w, steps, cfg)
    ensures NoFailureToWrite(After(w, steps, cfg))
    decreases |steps|
  {
    hide InvFor, Next, Enabled, NoFailureToWrite;
    if steps != [] {
      StepNoFailure(w, steps[0], cfg);
      StepBounds(w, steps[0], cfg);
      RunNoFailure(Next(w, steps[0], cfg), steps[1..], cfg);
    }
  }

  /** What happens outside the thread of the dispatcher's loop. */
  predicate Elsewhere(step: Step) {
    !step.Consume? && !step.Collect? && !step.Restart?
  }

  lemma {:induction false} StaysUnjudged(w: World, steps: seq<Step>, sid: Sid, cfg: Config)
    requires sid in w.db && !Terminal(w.db[sid].status)
    requires sid in w.rewrites ==> w.rewrites[sid].status.Queued?
    requires IsRun(w, steps, cfg) && forall i | 0 <= i < |steps| :: Elsewhere(steps[i])
    ensures sid in After(w, steps, cfg).db && !Terminal(After(w, steps, cfg).db[sid].status)
    decreases |steps|
  {
    if steps != [] {
      assert Elsewhere(steps[0]);
      StaysUnjudged(Next(w, steps[0], cfg), steps[1..], sid, cfg);
    }
  }

  /**
   * dispatch_task loads the record a second time. Whatever server, workers and broker do between the two
   * loads, a record that was not terminal is not terminal then: its early return is never taken, so one
   * step may hold both loads.
   */
  lemma EarlyReturnNeverTaken(steps: seq<Step>, id: nat, between: seq<Step>, cfg: Config)
    requires IsRun(INITIAL, steps, cfg)
    requires var w := After(INITIAL, steps, cfg);
             && id in w.broker && w.broker[id].body.Good?
             && w.broker[id].body.task.sid in w.db && !Terminal(w.db[w.broker[id].body.task.sid].status)
             && IsRun(Deliver(w, id), between, cfg)
    requires forall i | 0 <= i < |between| :: Elsewhere(between[i])
    ensures var w := After(INITIAL, steps, cfg);
            var sid, later := w.broker[id].body.task.sid, After(Deliver(w, id), between, cfg);
            sid in later.db && !Terminal(later.db[sid].status)
  {
    InitialInvFor({}, cfg);
    RunNoFailure(INITIAL, steps, cfg);
    var w := After(INITIAL, steps, cfg);
    var sid := w.broker[id].body.task.sid;
    LiveBy(w, id, sid);
    hide InvFor, IsRun, After;
    StaysUnjudged(Deliver(w, id), between, sid, cfg);
  }
}
