/**
 * The retry budget at work: without nacks and requeues every accepted submission is judged after a
 * bounded number of attempts, unless a swallowed failure or a late rewrite leads it astray.
 */
module JudgeTermination {
  import opened Text
  import opened JudgeProtocol
  import opened JudgeRuns
  import opened JudgeLoss

  // ---- Steps without a nack -----------------------------------------------

  /** The handling of the delivery throws: the body is not a task, or a load, the save or the thread fails. */
  predicate Throws(w: World, body: Body, f: DeliveryFaults) {
    || body.Bad? || !f.loads || body.task.sid !in w.db
    || (!Terminal(w.db[body.task.sid].status) && (!f.reloads || !f.save.Saved? || !f.async))
  }

  /** No delivery is nacked in this step, none is requeued and the connection holds. */
  predicate NackFree(w: World, step: Step, cfg: Config)
    requires Enabled(w, step, cfg)
  {
    match step
    case Consume(id, f) =>
      var body := w.broker[id].body;
      Throws(w, body, f) ==> body == Bad(true) || f.rescue.sending.Sent?
    case Collect(i, f) =>
      var p := w.pending[i];
      (match p.future
       case Result(_) => f.save.Saved? && p.task.sid in w.db
       case Temporary(_) => Reroute(w, p.task, f, cfg).1 && f.sending.Sent?
       case _ => false)
    case Lose | Requeue(_) | Restart => false
    case _ => true
  }

  lemma DeadLetterIsSent(w: World, tag: nat, body: Body, sending: Sending)
    requires w.connected && tag in w.broker && w.broker[tag].place.Unacked? && w.next != tag
    ensures var w' := DeadLetter(w, tag, body, sending);
            body == Bad(true) || sending.Sent? <==> w'.connected && !InPlace(w', tag, Main)
  {
  }

  /** In terms of the broker: the connection holds and the delivery in hand does not go back to the queue. */
  lemma ConsumeNackFreeExactly(w: World, id: nat, f: DeliveryFaults, cfg: Config)
    requires Bounds(w, cfg) && Enabled(w, Consume(id, f), cfg)
    ensures var w' := Next(w, Consume(id, f), cfg);
            NackFree(w, Consume(id, f), cfg) <==> w'.connected && !InPlace(w', w.next, Main)
  {
    var held, body := Deliver(w, id), w.broker[id].body;
    hide Bounds, DeadLetter;
    if Throws(w, body, f) {
      var reached := if body.Good? && f.loads && body.task.sid in w.db
                     then DispatchTask(held, w.next, body.task, f).0 else held;
      DeadLetterIsSent(MarkDead(reached, body, f.rescue), w.next, body, f.rescue.sending);
    }
  }

  lemma CollectNackFreeExactly(w: World, i: nat, f: Faults, cfg: Config)
    requires Bounds(w, cfg) && Enabled(w, Collect(i, f), cfg) && w.connected
    ensures var w' := Next(w, Collect(i, f), cfg);
            NackFree(w, Collect(i, f), cfg) <==> w'.connected && !InPlace(w', w.pending[i].tag, Main)
  {
    assert EntryInv(w, w.pending[i]) && w.pending[i].tag < w.next;
    hide Bounds, EntryInv;
    if w.pending[i].future.Result? {
      hide Reroute;
    } else if w.pending[i].future.Temporary? {
      hide Write;
    }
  }

  // ---- Tickets ----------------------------------------------------------------

  /** The message on which the judging of `sid` depends. */
  predicate Ticket(w: World, id: nat, sid: Sid) {
    id in w.broker && Carries(w.broker[id], sid) && !w.broker[id].place.Dead?
  }

  predicate TicketInv(w: World, id: nat)
    requires id in w.broker
  {
    var m := w.broker[id];
    m.body.Good? ==>
      var task := m.body.task;
      && task.sid in w.db && task.sid in w.published && task.sid in w.attempts
      && (!m.place.Dead? ==>
            && !Terminal(w.db[task.sid].status)
            && w.attempts[task.sid] == task.retry + if m.place.Unacked? then 1 else 0)
  }

  ghost predicate Tickets(w: World, cfg: Config) {
    && (forall id | id in w.broker :: TicketInv(w, id))
    && (forall i, j, sid | Ticket(w, i, sid) && Ticket(w, j, sid) :: i == j)
    && (forall sid | sid in w.attempts :: w.attempts[sid] <= cfg.maxRetry + 1)
    && (forall sid | sid in w.rewrites && w.rewrites[sid] == SYSTEM_ERROR :: sid !in w.published)
    && w.published <= w.db.Keys && w.published <= w.attempts.Keys
  }

  ghost predicate CleanInv(w: World, cfg: Config) {
    Bounds(w, cfg) && w.connected && Tickets(w, cfg)
  }

  lemma InitialClean(cfg: Config)
    ensures CleanInv(INITIAL, cfg)
  {
  }

  // ---- The measure -------------------------------------------------------

  predicate Judging(pending: seq<Pending>, tag: nat) {
    exists i | 0 <= i < |pending| :: pending[i].tag == tag && pending[i].future.Working?
  }

  /** Remaining retries first, then the stages of one round: waiting, queued, judging, judged. */
  ghost function Rank(w: World, id: nat, cfg: Config): nat
    requires id in w.broker && w.broker[id].body.Good?
  {
    var m := w.broker[id];
    var left := if m.body.task.retry <= cfg.maxRetry then cfg.maxRetry - m.body.task.retry else 0;
    4 * left + match m.place {
      case Retry => 4
      case Main => 3
      case Unacked => if Judging(w.pending, id) then 2 else 1
      case Dead => 0
    }
  }

  ghost function Potential(w: World, sid: Sid, cfg: Config): nat {
    if exists id :: Ticket(w, id, sid) then (var id :| Ticket(w, id, sid); Rank(w, id, cfg)) else 0
  }

  lemma PotentialIsRank(w: World, id: nat, sid: Sid, cfg: Config)
    requires CleanInv(w, cfg) && Ticket(w, id, sid)
    ensures Potential(w, sid, cfg) == Rank(w, id, cfg)
  {
  }

  /** The steps that move the judging of `sid` forward. */
  predicate Touches(w: World, step: Step, sid: Sid) {
    match step
    case Consume(id, _) => id in w.broker && Carries(w.broker[id], sid)
    case Expire(id) => id in w.broker && Carries(w.broker[id], sid)
    case Finish(i, _) => i < |w.pending| && w.pending[i].task.sid == sid
    case Collect(i, _) => i < |w.pending| && w.pending[i].task.sid == sid
    case _ => false
  }

  // ---- Nack-free steps keep the tickets --------------------------------------

  lemma SubmitTickets(w: World, sid: Sid, how: Submission, cfg: Config)
    requires Tickets(w, cfg) && sid !in w.db && w.next !in w.broker
    ensures Tickets(SubmitTo(w, sid, how), cfg)
  {
    var w' := SubmitTo(w, sid, how);
    forall id | id in w'.broker ensures TicketInv(w', id) {
      assert id in w.broker ==> TicketInv(w, id);
    }
    forall i, s | Ticket(w', i, s) && i != w.next ensures Ticket(w, i, s) && s != sid {
      assert TicketInv(w, i);
    }
  }

  lemma LateWriteTickets(w: World, sid: Sid, save: Save, cfg: Config)
    requires Tickets(w, cfg) && sid in w.rewrites && sid in w.db
    requires w.rewrites[sid] in {Record(Queued, false), SYSTEM_ERROR}
    ensures Tickets(Next(w, LateWrite(sid, save), cfg), cfg)
  {
    var w' := Next(w, LateWrite(sid, save), cfg);
    forall id | id in w'.broker ensures TicketInv(w', id) {
      assert TicketInv(w, id);
    }
    forall i, s | Ticket(w', i, s) ensures Ticket(w, i, s) {
    }
  }

  lemma PublishBadTickets(w: World, empty: bool, place: Place, cfg: Config)
    requires Tickets(w, cfg) && w.next !in w.broker
    ensures Tickets(Publish(w, Bad(empty), place), cfg)
  {
    var w' := Publish(w, Bad(empty), place);
    forall id | id in w'.broker ensures TicketInv(w', id) {
      assert id in w.broker ==> TicketInv(w, id);
    }
    forall i, s | Ticket(w', i, s) ensures Ticket(w, i, s) {
    }
  }

  lemma ExpireTickets(w: World, id: nat, cfg: Config)
    requires Tickets(w, cfg) && InPlace(w, id, Retry)
    ensures Tickets(Next(w, Expire(id), cfg), cfg)
  {
    var w' := Next(w, Expire(id), cfg);
    forall i | i in w'.broker ensures TicketInv(w', i) {
      assert TicketInv(w, i);
    }
    forall i, s | Ticket(w', i, s) ensures Ticket(w, i, s) {
    }
  }

  lemma AckTickets(w: World, tag: nat, cfg: Config)
    requires Tickets(w, cfg)
    ensures Tickets(Ack(w, tag), cfg)
  {
    var w' := Ack(w, tag);
    forall i | i in w'.broker ensures TicketInv(w', i) {
      assert TicketInv(w, i);
    }
    forall i, s | Ticket(w', i, s) ensures Ticket(w, i, s) {
    }
  }

  /** A delivery that does not throw: the attempt begins. */
  function Dispatched(w: World, id: nat): World
    requires id in w.broker && w.broker[id].body.Good?
  {
    var task := w.broker[id].body.task;
    Deliver(w, id).(
      db := w.db[task.sid := Record(Running, false)],
      pending := w.pending + [Pending(task, w.next, Working)],
      attempts := w.attempts[task.sid := (if task.sid in w.attempts then w.attempts[task.sid] else 0) + 1])
  }

  /** mark_submission_dead reaches the record: neither its load nor its update fails. */
  predicate Marks(f: Faults) {
    f.loads && !f.save.Unsaved?
  }

  /** The record after a delivery that throws. */
  function RescuedRecord(w: World, sid: Sid, f: DeliveryFaults): Record
    requires sid in w.db
  {
    if Marks(f.rescue) then SYSTEM_ERROR
    else if f.loads && f.reloads && !f.save.Unsaved? then Record(Running, false)
    else w.db[sid]
  }

  /** A delivery that throws and whose dead letter is published. */
  function Buried(w: World, id: nat, f: DeliveryFaults): World
    requires id in w.broker && w.broker[id].body.Good? && w.broker[id].body.task.sid in w.db
  {
    var body := w.broker[id].body;
    w.(db := w.db[body.task.sid := RescuedRecord(w, body.task.sid, f)],
       broker := (w.broker - {id})[w.next + 1 := Message(body, Dead)],
       next := w.next + 2, settled := w.settled + multiset{w.next})
  }

  /** A delivery of a text that is no task. */
  function Discarded(w: World, id: nat): World
    requires id in w.broker && w.broker[id].body.Bad?
  {
    var held := Deliver(w, id);
    Ack(if w.broker[id].body.empty then held else Publish(held, w.broker[id].body, Dead), w.next)
  }

  lemma DeadLetterBuries(w: World, tag: nat, body: Body)
    requires w.connected && tag in w.broker && w.broker[tag].place.Unacked? && w.next != tag && body.Good?
    ensures DeadLetter(w, tag, body, Sent) ==
            w.(broker := w.broker[w.next := Message(body, Dead)] - {tag}, next := w.next + 1,
               settled := w.settled + multiset{tag})
  {
  }

  lemma ConsumeDispatches(w: World, id: nat, f: DeliveryFaults, cfg: Config)
    requires CleanInv(w, cfg) && Enabled(w, Consume(id, f), cfg) && w.broker[id].body.Good?
    requires !Throws(w, w.broker[id].body, f)
    ensures Next(w, Consume(id, f), cfg) == Dispatched(w, id)
  {
    assert TicketInv(w, id);
    hide CleanInv, Bounds, Tickets;
  }

  lemma ConsumeBuries(w: World, id: nat, f: DeliveryFaults, cfg: Config)
    requires CleanInv(w, cfg) && Enabled(w, Consume(id, f), cfg) && NackFree(w, Consume(id, f), cfg)
    requires w.broker[id].body.Good? && Throws(w, w.broker[id].body, f)
    ensures w.broker[id].body.task.sid in w.db
    ensures Next(w, Consume(id, f), cfg) == Buried(w, id, f)
  {
    assert TicketInv(w, id);
    assert forall k | k in w.broker :: k < w.next;
    hide CleanInv, Bounds, Tickets, DeadLetter;
    var body := w.broker[id].body;
    var marked := MarkedDelivery(w, id, f);
    MarkedRecord(w, id, f);
    DeadLetterBuries(marked, w.next, body);
    hide MarkedDelivery;
    assert marked.broker[w.next + 1 := Message(body, Dead)] - {w.next} == (w.broker - {id})[w.next + 1 := Message(body, Dead)];
  }

  /** The world when the dead letter is about to be published. */
  function MarkedDelivery(w: World, id: nat, f: DeliveryFaults): World
    requires id in w.broker && w.broker[id].body.Good?
  {
    var held, body := Deliver(w, id), w.broker[id].body;
    MarkDead(if f.loads then DispatchTask(held, w.next, body.task, f).0 else held, body, f.rescue)
  }

  lemma MarkedRecord(w: World, id: nat, f: DeliveryFaults)
    requires id in w.broker && w.broker[id].body.Good? && w.broker[id].body.task.sid in w.db
    requires !Terminal(w.db[w.broker[id].body.task.sid].status) && Throws(w, w.broker[id].body, f)
    ensures var sid := w.broker[id].body.task.sid;
            MarkedDelivery(w, id, f) == Deliver(w, id).(db := w.db[sid := RescuedRecord(w, sid, f)])
  {
    var sid := w.broker[id].body.task.sid;
    assert MarkedDelivery(w, id, f).db == w.db[sid := RescuedRecord(w, sid, f)];
  }

  lemma ConsumeDiscards(w: World, id: nat, f: DeliveryFaults, cfg: Config)
    requires Enabled(w, Consume(id, f), cfg) && NackFree(w, Consume(id, f), cfg) && w.broker[id].body.Bad?
    ensures Next(w, Consume(id, f), cfg) == Discarded(w, id)
  {
    hide Ack;
  }

  lemma DispatchTickets(w: World, id: nat, cfg: Config)
    requires Tickets(w, cfg) && InPlace(w, id, Main) && w.next !in w.broker && w.broker[id].body.Good?
    requires w.broker[id].body.task.retry <= cfg.maxRetry
    ensures Tickets(Dispatched(w, id), cfg)
  {
    var w' := Dispatched(w, id);
    var sid := w.broker[id].body.task.sid;
    assert TicketInv(w, id) && Ticket(w, id, sid);
    forall i | i in w'.broker ensures TicketInv(w', i) {
      if i != w.next {
        assert TicketInv(w, i);
        assert Ticket(w, i, sid) ==> i == id;
      }
    }
    forall i, s | Ticket(w', i, s) && i != w.next ensures Ticket(w, i, s) && i != id && s != sid {
    }
  }

  lemma BuriedTickets(w: World, id: nat, f: DeliveryFaults, cfg: Config)
    requires Tickets(w, cfg) && InPlace(w, id, Main) && w.broker[id].body.Good?
    requires forall i | i in w.broker :: i < w.next
    requires w.broker[id].body.task.sid in w.db
    ensures Tickets(Buried(w, id, f), cfg)
  {
    var w' := Buried(w, id, f);
    var sid := w.broker[id].body.task.sid;
    assert TicketInv(w, id) && Ticket(w, id, sid);
    forall i | i in w'.broker ensures TicketInv(w', i) {
      if i != w.next + 1 {
        assert TicketInv(w, i);
        assert Ticket(w, i, sid) ==> i == id;
      }
    }
    forall i, s | Ticket(w', i, s) ensures Ticket(w, i, s) {
    }
  }

  lemma DiscardTickets(w: World, id: nat, cfg: Config)
    requires Tickets(w, cfg) && InPlace(w, id, Main) && w.broker[id].body.Bad?
    requires forall i | i in w.broker :: i < w.next
    ensures Tickets(Discarded(w, id), cfg)
  {
    hide Ack;
    var held := Deliver(w, id);
    forall i | i in held.broker ensures TicketInv(held, i) {
      if i != w.next {
        assert TicketInv(w, i);
      }
    }
    forall i, s | Ticket(held, i, s) ensures Ticket(w, i, s) {
    }
    match w.broker[id].body
    case Bad(empty) =>
      PublishBadTickets(held, empty, Dead, cfg);
      AckTickets(held, w.next, cfg);
      AckTickets(Publish(held, Bad(empty), Dead), w.next, cfg);
  }

  /** A collected result: the verdict is written and the ticket returned. */
  lemma ResultTickets(w: World, i: nat, f: Faults, cfg: Config)
    requires CleanInv(w, cfg) && i < |w.pending| && w.pending[i].future.Result? && f.save.Saved?
    ensures var p := w.pending[i];
            Next(w, Collect(i, f), cfg) ==
              w.(db := w.db[p.task.sid := p.future.record], broker := w.broker - {p.tag},
                 settled := w.settled + multiset{p.tag}, pending := Without(w.pending, i))
    ensures Tickets(Next(w, Collect(i, f), cfg), cfg)
  {
    var p := w.pending[i];
    assert EntryInv(w, p);
    hide Bounds;
    var w' := Next(w, Collect(i, f), cfg);
    assert TicketInv(w, p.tag) && Ticket(w, p.tag, p.task.sid);
    forall k | k in w'.broker ensures TicketInv(w', k) {
      assert TicketInv(w, k);
      assert Ticket(w, k, p.task.sid) ==> k == p.tag;
    }
    forall k, s | Ticket(w', k, s) ensures Ticket(w, k, s) {
    }
  }

  /** A collected temporary failure: the ticket is exchanged for one with a retry more, or is dead. */
  function Exchanged(w: World, i: nat, cfg: Config): World
    requires i < |w.pending|
  {
    var p := w.pending[i];
    var again := p.task.(retry := p.task.retry + 1);
    var exhausted := again.retry > cfg.maxRetry;
    w.(db := w.db[p.task.sid := if exhausted then SYSTEM_ERROR else Record(Queued, false)],
       broker := w.broker[w.next := Message(Good(again), if exhausted then Dead else Retry)] - {p.tag},
       next := w.next + 1,
       settled := w.settled + multiset{p.tag}, pending := Without(w.pending, i))
  }

  lemma TemporaryIsExchange(w: World, i: nat, f: Faults, cfg: Config)
    requires CleanInv(w, cfg) && i < |w.pending| && w.pending[i].future.Temporary?
    requires Reroute(w, w.pending[i].task, f, cfg).1 && f.sending.Sent?
    ensures Next(w, Collect(i, f), cfg) == Exchanged(w, i, cfg)
  {
    var p := w.pending[i];
    assert EntryInv(w, p) && p.tag < w.next;
    hide Bounds;
    assert TicketInv(w, p.tag);
    hide Tickets;
  }

  lemma TemporaryTickets(w: World, i: nat, cfg: Config)
    requires CleanInv(w, cfg) && i < |w.pending| && w.pending[i].future.Temporary?
    ensures Tickets(Exchanged(w, i, cfg), cfg)
  {
    var p := w.pending[i];
    assert EntryInv(w, p) && p.tag < w.next && Budget(w, w.broker[p.tag], cfg);
    assert w.next !in w.broker;
    hide Bounds;
    var w' := Exchanged(w, i, cfg);
    assert TicketInv(w, p.tag) && Ticket(w, p.tag, p.task.sid);
    forall k | k in w'.broker ensures TicketInv(w', k) {
      if k != w.next {
        assert TicketInv(w, k);
        assert Ticket(w, k, p.task.sid) ==> k == p.tag;
      }
    }
    forall k, s | Ticket(w', k, s) && k != w.next ensures Ticket(w, k, s) && k != p.tag && s != p.task.sid {
    }
  }

  lemma FinishTickets(w: World, i: nat, attempt: Attempt, cfg: Config)
    requires Tickets(w, cfg) && Enabled(w, Finish(i, attempt), cfg)
    ensures Tickets(Next(w, Finish(i, attempt), cfg), cfg)
  {
    var w' := Next(w, Finish(i, attempt), cfg);
    forall k | k in w'.broker ensures TicketInv(w', k) {
      assert TicketInv(w, k);
    }
    forall k, s | Ticket(w', k, s) ensures Ticket(w, k, s) {
    }
  }

  lemma StepTickets(w: World, step: Step, cfg: Config)
    requires CleanInv(w, cfg) && Enabled(w, step, cfg) && NackFree(w, step, cfg)
    ensures Tickets(Next(w, step, cfg), cfg)
  {
    match step
    case Submit(sid, how) => SubmitTickets(w, sid, how, cfg);
    case LateWrite(sid, save) => LateWriteTickets(w, sid, save, cfg);
    case Inject(empty) => PublishBadTickets(w, empty, Main, cfg);
    case Consume(id, f) => ConsumeTickets(w, id, f, cfg);
    case Finish(i, attempt) => FinishTickets(w, i, attempt, cfg);
    case Collect(i, f) => CollectTickets(w, i, f, cfg);
    case Expire(id) => ExpireTickets(w, id, cfg);
  }

  lemma ConsumeTickets(w: World, id: nat, f: DeliveryFaults, cfg: Config)
    requires CleanInv(w, cfg) && Enabled(w, Consume(id, f), cfg) && NackFree(w, Consume(id, f), cfg)
    ensures Tickets(Next(w, Consume(id, f), cfg), cfg) && Next(w, Consume(id, f), cfg).connected
  {
    assert Budget(w, w.broker[id], cfg) && forall i | i in w.broker :: i < w.next;
    if w.broker[id].body.Bad? {
      ConsumeDiscards(w, id, f, cfg);
      hide Next, Bounds;
      DiscardTickets(w, id, cfg);
    } else if Throws(w, w.broker[id].body, f) {
      ConsumeBuries(w, id, f, cfg);
      hide Next, Bounds;
      BuriedTickets(w, id, f, cfg);
    } else {
      ConsumeDispatches(w, id, f, cfg);
      hide Next, Bounds;
      DispatchTickets(w, id, cfg);
    }
  }

  lemma CollectTickets(w: World, i: nat, f: Faults, cfg: Config)
    requires CleanInv(w, cfg) && Enabled(w, Collect(i, f), cfg) && NackFree(w, Collect(i, f), cfg)
    ensures Tickets(Next(w, Collect(i, f), cfg), cfg) && Next(w, Collect(i, f), cfg).connected
  {
    if w.pending[i].future.Result? {
      ResultTickets(w, i, f, cfg);
    } else {
      TemporaryIsExchange(w, i, f, cfg);
      TemporaryTickets(w, i, cfg);
    }
    hide Next, Bounds, Tickets;
  }

  lemma StepClean(w: World, step: Step, cfg: Config)
    requires CleanInv(w, cfg) && Enabled(w, step, cfg) && NackFree(w, step, cfg)
    ensures CleanInv(Next(w, step, cfg), cfg)
  {
    StepTickets(w, step, cfg);
    NextBounds(w, step, cfg);
    StaysConnected(w, step, cfg);
    hide Bounds, Tickets, Next, Enabled, NackFree;
  }

  lemma StaysConnected(w: World, step: Step, cfg: Config)
    requires CleanInv(w, cfg) && Enabled(w, step, cfg) && NackFree(w, step, cfg)
    ensures Next(w, step, cfg).connected
  {
    match step
    case Consume(id, f) => ConsumeTickets(w, id, f, cfg);
    case Collect(i, f) => CollectTickets(w, i, f, cfg);
    case _ =>
  }

  // ---- Nack-free steps consume the measure -----------------------------------

  lemma NoTicketNoPotential(w: World, sid: Sid, cfg: Config)
    requires forall id :: !Ticket(w, id, sid)
    ensures Potential(w, sid, cfg) == 0
  {
  }

  /** A step that leaves the ticket of `sid` and its entry alone leaves the potential alone. */
  lemma SamePotential(w: World, w': World, sid: Sid, cfg: Config)
    requires CleanInv(w, cfg) && CleanInv(w', cfg)
    requires forall id :: Ticket(w', id, sid) <==> Ticket(w, id, sid)
    requires forall id | Ticket(w, id, sid) ::
               w'.broker[id] == w.broker[id] && (Judging(w'.pending, id) <==> Judging(w.pending, id))
    ensures Potential(w', sid, cfg) == Potential(w, sid, cfg)
  {
    hide Bounds, Tickets, TicketInv;
    if id :| Ticket(w, id, sid) {
      PotentialIsRank(w, id, sid, cfg);
      PotentialIsRank(w', id, sid, cfg);
    } else {
      NoTicketNoPotential(w, sid, cfg);
      NoTicketNoPotential(w', sid, cfg);
    }
  }

  lemma JudgingWithout(pending: seq<Pending>, i: nat, tag: nat)
    requires i < |pending| && pending[i].tag != tag
    ensures Judging(Without(pending, i), tag) <==> Judging(pending, tag)
  {
    if Judging(pending, tag) {
      var k :| 0 <= k < |pending| && pending[k].tag == tag && pending[k].future.Working?;
      assert Without(pending, i)[if k < i then k else k - 1] == pending[k];
    }
    if Judging(Without(pending, i), tag) {
      var k :| 0 <= k < |pending| - 1 && Without(pending, i)[k].tag == tag && Without(pending, i)[k].future.Working?;
      assert pending[if k < i then k else k + 1] == Without(pending, i)[k];
    }
  }

  lemma JudgingPush(pending: seq<Pending>, p: Pending, tag: nat)
    ensures Judging(pending + [p], tag) <==> Judging(pending, tag) || (p.tag == tag && p.future.Working?)
  {
    var all := pending + [p];
    if Judging(pending, tag) {
      var k :| 0 <= k < |pending| && pending[k].tag == tag && pending[k].future.Working?;
      assert all[k] == pending[k];
    }
    assert all[|pending|] == p;
  }

  /** The measure of one submission: it falls with each step that touches it and with no other. */
  ghost predicate Measured(w: World, step: Step, w': World, sid: Sid, cfg: Config) {
    if Touches(w, step, sid) then Potential(w', sid, cfg) < Potential(w, sid, cfg)
    else Potential(w', sid, cfg) == Potential(w, sid, cfg)
  }

  lemma ConsumeMeasured(w: World, id: nat, f: DeliveryFaults, sid: Sid, cfg: Config)
    requires CleanInv(w, cfg) && Enabled(w, Consume(id, f), cfg) && NackFree(w, Consume(id, f), cfg)
    requires CleanInv(Next(w, Consume(id, f), cfg), cfg)
    ensures Measured(w, Consume(id, f), Next(w, Consume(id, f), cfg), sid, cfg)
  {
    assert forall k | k in w.broker :: k < w.next;
    if w.broker[id].body.Bad? {
      ConsumeDiscards(w, id, f, cfg);
      hide CleanInv, Next, NackFree, Discarded;
      OtherDiscarded(w, id, sid);
      SamePotential(w, Discarded(w, id), sid, cfg);
    } else if Throws(w, w.broker[id].body, f) {
      ConsumeBuries(w, id, f, cfg);
      BuriedMeasured(w, id, f, sid, cfg);
      hide CleanInv, Next, NackFree, Buried;
    } else {
      ConsumeDispatches(w, id, f, cfg);
      DispatchedMeasured(w, id, sid, cfg);
      hide CleanInv, Next, NackFree, Dispatched;
    }
  }

  lemma BuriedMeasured(w: World, id: nat, f: DeliveryFaults, sid: Sid, cfg: Config)
    requires CleanInv(w, cfg) && InPlace(w, id, Main) && w.broker[id].body.Good? && w.broker[id].body.task.sid in w.db
    requires CleanInv(Buried(w, id, f), cfg)
    ensures var w' := Buried(w, id, f);
            if Carries(w.broker[id], sid) then Potential(w', sid, cfg) < Potential(w, sid, cfg)
            else Potential(w', sid, cfg) == Potential(w, sid, cfg)
  {
    var w' := Buried(w, id, f);
    assert forall k | k in w.broker :: k < w.next;
    hide Bounds;
    if Carries(w.broker[id], sid) {
      assert Ticket(w, id, sid);
      PotentialIsRank(w, id, sid, cfg);
      forall k ensures !Ticket(w', k, sid) {
        assert Ticket(w, k, sid) ==> k == id;
      }
      NoTicketNoPotential(w', sid, cfg);
    } else {
      hide Tickets;
      SamePotential(w, w', sid, cfg);
    }
  }

  lemma DispatchedMeasured(w: World, id: nat, sid: Sid, cfg: Config)
    requires CleanInv(w, cfg) && InPlace(w, id, Main) && w.broker[id].body.Good?
    requires CleanInv(Dispatched(w, id), cfg)
    ensures var w' := Dispatched(w, id);
            if Carries(w.broker[id], sid) then Potential(w', sid, cfg) < Potential(w, sid, cfg)
            else Potential(w', sid, cfg) == Potential(w, sid, cfg)
  {
    var w' := Dispatched(w, id);
    var p := Pending(w.broker[id].body.task, w.next, Working);
    assert forall k | k in w.broker :: k < w.next;
    hide Bounds, Tickets;
    if Carries(w.broker[id], sid) {
      assert Ticket(w, id, sid) && Ticket(w', w.next, sid);
      PotentialIsRank(w, id, sid, cfg);
      PotentialIsRank(w', w.next, sid, cfg);
      JudgingPush(w.pending, p, w.next);
    } else {
      forall k | Ticket(w, k, sid) ensures Judging(w'.pending, k) <==> Judging(w.pending, k) {
        JudgingPush(w.pending, p, k);
      }
      SamePotential(w, w', sid, cfg);
    }
  }

  lemma OtherDiscarded(w: World, id: nat, sid: Sid)
    requires id in w.broker && (forall k | k in w.broker :: k < w.next) && w.broker[id].body.Bad?
    ensures var w' := Discarded(w, id);
            && w'.pending == w.pending && (forall k :: Ticket(w', k, sid) <==> Ticket(w, k, sid))
            && (forall k | Ticket(w, k, sid) :: w'.broker[k] == w.broker[k])
  {
  }

  lemma FinishMeasured(w: World, i: nat, attempt: Attempt, sid: Sid, cfg: Config)
    requires CleanInv(w, cfg) && Enabled(w, Finish(i, attempt), cfg)
    requires CleanInv(Next(w, Finish(i, attempt), cfg), cfg)
    ensures Measured(w, Finish(i, attempt), Next(w, Finish(i, attempt), cfg), sid, cfg)
  {
    var w' := Next(w, Finish(i, attempt), cfg);
    var p := w.pending[i];
    assert EntryInv(w, p);
    assert forall j | 0 <= j < |w.pending| && j != i :: w.pending[j].tag != p.tag;
    hide Bounds, Tickets;
    forall k | k != p.tag ensures Judging(w'.pending, k) <==> Judging(w.pending, k) {
      if Judging(w.pending, k) {
        var j :| 0 <= j < |w.pending| && w.pending[j].tag == k && w.pending[j].future.Working?;
        assert w'.pending[j] == w.pending[j];
      }
    }
    if p.task.sid == sid {
      assert Ticket(w, p.tag, sid) && Ticket(w', p.tag, sid);
      PotentialIsRank(w, p.tag, sid, cfg);
      PotentialIsRank(w', p.tag, sid, cfg);
      assert Judging(w.pending, p.tag) && !Judging(w'.pending, p.tag);
    } else {
      SamePotential(w, w', sid, cfg);
    }
  }

  lemma CollectMeasured(w: World, i: nat, f: Faults, sid: Sid, cfg: Config)
    requires CleanInv(w, cfg) && Enabled(w, Collect(i, f), cfg) && NackFree(w, Collect(i, f), cfg)
    requires CleanInv(Next(w, Collect(i, f), cfg), cfg)
    ensures Measured(w, Collect(i, f), Next(w, Collect(i, f), cfg), sid, cfg)
  {
    var w' := Next(w, Collect(i, f), cfg);
    var p := w.pending[i];
    if p.future.Result? {
      ResultTickets(w, i, f, cfg);
    } else {
      TemporaryIsExchange(w, i, f, cfg);
    }
    assert EntryInv(w, p) && Budget(w, w.broker[p.tag], cfg) && w.next !in w.broker;
    hide Bounds, Next;
    if p.task.sid == sid {
      assert Ticket(w, p.tag, sid);
      PotentialIsRank(w, p.tag, sid, cfg);
      if id :| Ticket(w', id, sid) {
        assert id != w.next ==> Ticket(w, id, sid) && id == p.tag;
        PotentialIsRank(w', id, sid, cfg);
      } else {
        NoTicketNoPotential(w', sid, cfg);
      }
    } else {
      forall k | Ticket(w, k, sid) ensures Judging(w'.pending, k) <==> Judging(w.pending, k) {
        JudgingWithout(w.pending, i, k);
      }
      hide Tickets;
      SamePotential(w, w', sid, cfg);
    }
  }

  lemma ExpireMeasured(w: World, id: nat, sid: Sid, cfg: Config)
    requires CleanInv(w, cfg) && Enabled(w, Expire(id), cfg) && sid in w.published
    requires CleanInv(Next(w, Expire(id), cfg), cfg)
    ensures Measured(w, Expire(id), Next(w, Expire(id), cfg), sid, cfg)
  {
    var w' := Next(w, Expire(id), cfg);
    assert sid in w.db;
    hide Bounds, Tickets;
    if Carries(w.broker[id], sid) {
      assert Ticket(w, id, sid) && Ticket(w', id, sid);
      PotentialIsRank(w, id, sid, cfg);
      PotentialIsRank(w', id, sid, cfg);
    } else {
      SamePotential(w, w', sid, cfg);
    }
  }

  lemma SubmitMeasured(w: World, other: Sid, how: Submission, sid: Sid, cfg: Config)
    requires CleanInv(w, cfg) && CleanInv(SubmitTo(w, other, how), cfg)
    requires other !in w.db && sid in w.published
    ensures Potential(SubmitTo(w, other, how), sid, cfg) == Potential(w, sid, cfg)
  {
    assert sid in w.db && w.next !in w.broker;
    hide Bounds, Tickets, TicketInv, Potential;
    SamePotential(w, SubmitTo(w, other, how), sid, cfg);
  }

  lemma QuietMeasured(w: World, step: Step, sid: Sid, cfg: Config)
    requires CleanInv(w, cfg) && Enabled(w, step, cfg) && sid in w.published
    requires step.Submit? || step.LateWrite? || step.Inject?
    requires CleanInv(Next(w, step, cfg), cfg)
    ensures Measured(w, step, Next(w, step, cfg), sid, cfg)
  {
    assert w.next !in w.broker;
    hide Bounds, Tickets, TicketInv, Potential, SubmitTo;
    if step.Submit? {
      SubmitMeasured(w, step.sid, step.how, sid, cfg);
    } else {
      SamePotential(w, Next(w, step, cfg), sid, cfg);
    }
  }

  lemma StepMeasured(w: World, step: Step, sid: Sid, cfg: Config)
    requires CleanInv(w, cfg) && Enabled(w, step, cfg) && NackFree(w, step, cfg)
    requires sid in w.published
    ensures Measured(w, step, Next(w, step, cfg), sid, cfg)
  {
    StepClean(w, step, cfg);
    hide CleanInv, Next, Enabled, Measured;
    match step
    case Consume(id, f) => ConsumeMeasured(w, id, f, sid, cfg);
    case Finish(i, attempt) => FinishMeasured(w, i, attempt, sid, cfg);
    case Collect(i, f) => CollectMeasured(w, i, f, sid, cfg);
    case Expire(id) => ExpireMeasured(w, id, sid, cfg);
    case _ => QuietMeasured(w, step, sid, cfg);
  }

  // ---- Going astray ------------------------------------------------------------

  /** Not judged, and no message left that would be judged. */
  ghost predicate Stray(w: World, sid: Sid) {
    && sid in w.published && sid in w.db && !Terminal(w.db[sid].status)
    && forall id :: !Ticket(w, id, sid)
  }

  /**
   * The step leads the submission astray: a delivery throws and its record cannot be marked, which is
   * swallowed; or the late rewrite of the server takes a verdict.
   */
  predicate Strays(w: World, step: Step, sid: Sid) {
    match step
    case Consume(id, f) =>
      && id in w.broker && Carries(w.broker[id], sid) && sid in w.db && !Terminal(w.db[sid].status)
      && Throws(w, w.broker[id].body, f) && !Marks(f.rescue)
    case LateWrite(s, save) =>
      && s == sid && sid in w.published && sid in w.rewrites && w.rewrites[sid].status.Queued? && !save.Unsaved?
      && sid in w.db && Terminal(w.db[sid].status)
    case _ => false
  }

  lemma ConsumeStrays(w: World, id: nat, f: DeliveryFaults, sid: Sid, cfg: Config)
    requires CleanInv(w, cfg) && Enabled(w, Consume(id, f), cfg) && NackFree(w, Consume(id, f), cfg)
    ensures Stray(Next(w, Consume(id, f), cfg), sid) <==> Stray(w, sid) || Strays(w, Consume(id, f), sid)
  {
    assert (forall k | k in w.broker :: k < w.next) && TicketInv(w, id);
    if w.broker[id].body.Bad? {
      ConsumeDiscards(w, id, f, cfg);
      hide CleanInv, Next, NackFree;
      DiscardStrays(w, id, sid);
    } else if Throws(w, w.broker[id].body, f) {
      ConsumeBuries(w, id, f, cfg);
      BuriedStrays(w, id, f, sid, cfg);
      hide CleanInv, Next, NackFree, Buried;
    } else {
      ConsumeDispatches(w, id, f, cfg);
      hide CleanInv, Next, NackFree;
      DispatchStrays(w, id, sid);
    }
  }

  lemma DiscardStrays(w: World, id: nat, sid: Sid)
    requires id in w.broker && (forall k | k in w.broker :: k < w.next) && w.broker[id].body.Bad?
    ensures Stray(Discarded(w, id), sid) <==> Stray(w, sid)
  {
    OtherDiscarded(w, id, sid);
    var w' := Discarded(w, id);
    assert w'.db == w.db && w'.published == w.published;
    hide Discarded, Ticket;
  }

  lemma BuriedStrays(w: World, id: nat, f: DeliveryFaults, sid: Sid, cfg: Config)
    requires CleanInv(w, cfg) && InPlace(w, id, Main) && w.broker[id].body.Good? && w.broker[id].body.task.sid in w.db
    requires Throws(w, w.broker[id].body, f)
    ensures Stray(Buried(w, id, f), sid) <==> Stray(w, sid) || Strays(w, Consume(id, f), sid)
  {
    var w' := Buried(w, id, f);
    assert (forall k | k in w.broker :: k < w.next) && TicketInv(w, id);
    hide Bounds;
    if Carries(w.broker[id], sid) {
      assert Ticket(w, id, sid);
      forall k ensures !Ticket(w', k, sid) {
        assert Ticket(w, k, sid) ==> k == id;
      }
    } else {
      assert forall k :: Ticket(w', k, sid) <==> Ticket(w, k, sid);
    }
  }

  lemma DispatchStrays(w: World, id: nat, sid: Sid)
    requires id in w.broker && (forall k | k in w.broker :: k < w.next) && w.broker[id].body.Good?
    requires !w.broker[id].place.Dead?
    ensures Stray(Dispatched(w, id), sid) <==> Stray(w, sid)
  {
    var w' := Dispatched(w, id);
    if Carries(w.broker[id], sid) {
      assert Ticket(w, id, sid) && Ticket(w', w.next, sid);
    } else {
      assert forall k :: Ticket(w', k, sid) <==> Ticket(w, k, sid);
    }
  }

  lemma CollectStrays(w: World, i: nat, f: Faults, sid: Sid, cfg: Config)
    requires CleanInv(w, cfg) && Enabled(w, Collect(i, f), cfg) && NackFree(w, Collect(i, f), cfg)
    ensures Stray(Next(w, Collect(i, f), cfg), sid) <==> Stray(w, sid)
  {
    var w', p := Next(w, Collect(i, f), cfg), w.pending[i];
    if p.future.Result? {
      ResultTickets(w, i, f, cfg);
    } else {
      TemporaryIsExchange(w, i, f, cfg);
    }
    assert EntryInv(w, p) && w.next !in w.broker && p.tag < w.next;
    hide Bounds, Next, NackFree, Tickets;
    if p.task.sid == sid {
      assert Ticket(w, p.tag, sid);
      assert Terminal(w'.db[sid].status) || Ticket(w', w.next, sid);
    } else {
      assert forall k :: Ticket(w', k, sid) <==> Ticket(w, k, sid);
    }
  }

  lemma QuietStrays(w: World, step: Step, sid: Sid, cfg: Config)
    requires CleanInv(w, cfg) && Enabled(w, step, cfg)
    requires step.Submit? || step.Inject? || step.Finish? || step.Expire?
    ensures Stray(Next(w, step, cfg), sid) <==> Stray(w, sid)
  {
    var w' := Next(w, step, cfg);
    assert w.next !in w.broker && forall k | k in w.broker :: TicketInv(w, k);
    hide Bounds, Tickets;
    if step.Submit? && step.sid == sid {
      assert step.how.Accepted? ==> Ticket(w', w.next, sid);
    } else {
      forall k ensures Ticket(w', k, sid) <==> Ticket(w, k, sid) {
      }
    }
  }

  lemma LateWriteStrays(w: World, other: Sid, save: Save, sid: Sid, cfg: Config)
    requires CleanInv(w, cfg) && Enabled(w, LateWrite(other, save), cfg)
    ensures Stray(Next(w, LateWrite(other, save), cfg), sid) <==> Stray(w, sid) || Strays(w, LateWrite(other, save), sid)
  {
    var w' := Next(w, LateWrite(other, save), cfg);
    assert forall k | k in w.broker :: TicketInv(w, k);
    assert RecordInv(w);
    assert other in w.published ==> w.rewrites[other] == Record(Queued, false);
    hide Bounds, Tickets;
    forall k ensures Ticket(w', k, sid) <==> Ticket(w, k, sid) {
    }
    if sid in w.db && Terminal(w.db[sid].status) {
      forall k ensures !Ticket(w, k, sid) {
      }
    }
  }

  lemma StepStrays(w: World, step: Step, sid: Sid, cfg: Config)
    requires CleanInv(w, cfg) && Enabled(w, step, cfg) && NackFree(w, step, cfg)
    ensures Stray(Next(w, step, cfg), sid) <==> Stray(w, sid) || Strays(w, step, sid)
  {
    hide CleanInv, Next, Enabled, Stray;
    match step
    case Consume(id, f) => ConsumeStrays(w, id, f, sid, cfg);
    case Collect(i, f) => CollectStrays(w, i, f, sid, cfg);
    case LateWrite(other, save) => LateWriteStrays(w, other, save, sid, cfg);
    case _ => QuietStrays(w, step, sid, cfg);
  }

  // ---- Runs --------------------------------------------------------------------

  predicate AllNackFree(w: World, steps: seq<Step>, cfg: Config)
    requires IsRun(w, steps, cfg)
    decreases |steps|
  {
    steps == [] || (NackFree(w, steps[0], cfg) && AllNackFree(Next(w, steps[0], cfg), steps[1..], cfg))
  }

  /** No step of the run leads the submission astray. */
  predicate NeverStrays(w: World, steps: seq<Step>, sid: Sid, cfg: Config)
    requires IsRun(w, steps, cfg)
    decreases |steps|
  {
    steps == [] || (!Strays(w, steps[0], sid) && NeverStrays(Next(w, steps[0], cfg), steps[1..], sid, cfg))
  }

  lemma {:induction false} CleanRun(w: World, steps: seq<Step>, sid: Sid, cfg: Config)
    requires CleanInv(w, cfg) && IsRun(w, steps, cfg) && AllNackFree(w, steps, cfg)
    ensures CleanInv(After(w, steps, cfg), cfg)
    ensures Stray(After(w, steps, cfg), sid) <==> Stray(w, sid) || !NeverStrays(w, steps, sid, cfg)
    decreases |steps|
  {
    hide CleanInv, Next, Enabled, NackFree, Stray, Strays;
    if steps != [] {
      StepClean(w, steps[0], cfg);
      StepStrays(w, steps[0], sid, cfg);
      CleanRun(Next(w, steps[0], cfg), steps[1..], sid, cfg);
    }
  }

  lemma PotentialBound(w: World, sid: Sid, cfg: Config)
    requires CleanInv(w, cfg)
    ensures Potential(w, sid, cfg) <= 4 * cfg.maxRetry + 4
  {
    if id :| Ticket(w, id, sid) {
      PotentialIsRank(w, id, sid, cfg);
    }
  }

  // ---- Rest ------------------------------------------------------------------------

  /** A nack-free step that moves the judging of some accepted submission. */
  predicate Moving(w: World, step: Step, cfg: Config) {
    Enabled(w, step, cfg) && NackFree(w, step, cfg) && exists sid | sid in w.published :: Touches(w, step, sid)
  }

  ghost predicate AtRest(w: World, cfg: Config) {
    forall step :: !Moving(w, step, cfg)
  }

  /** The attempt could not load the record: its future throws, and only a nack can settle its delivery. */
  predicate BrokenEntry(w: World, tag: nat) {
    exists i | 0 <= i < |w.pending| :: w.pending[i].tag == tag && w.pending[i].future.Broken?
  }

  /** A message that no nack-free step moves. */
  predicate Blocked(w: World, id: nat, cfg: Config)
    requires id in w.broker
  {
    match w.broker[id].place
    case Unacked => BrokenEntry(w, id)
    case Main => |w.pending| >= cfg.maxInflight
    case _ => false
  }

  /** Every message that can move is moved by some step without failures. */
  lemma Unblocked(w: World, id: nat, sid: Sid, cfg: Config) returns (step: Step)
    requires CleanInv(w, cfg) && Ticket(w, id, sid) && !Blocked(w, id, cfg)
    ensures Enabled(w, step, cfg) && NackFree(w, step, cfg) && Touches(w, step, sid) && sid in w.published
    ensures step.Expire? || step == Consume(id, NO_DELIVERY_FAULTS)
            || (step.Finish? && step.attempt == Responded(Ok)) || (step.Collect? && step.faults == NO_FAULTS)
  {
    assert TicketInv(w, id);
    match w.broker[id].place
    case Retry => return Expire(id);
    case Main => return Consume(id, NO_DELIVERY_FAULTS);
    case Unacked =>
      assert Awaited(w.pending, id);
      var i :| 0 <= i < |w.pending| && w.pending[i].tag == id;
      assert EntryInv(w, w.pending[i]);
      return if w.pending[i].future.Working? then Finish(i, Responded(Ok)) else Collect(i, NO_FAULTS);
  }

  /** What a moving step moves is a message that is not blocked. */
  lemma MovingMeansUnblocked(w: World, step: Step, sid: Sid, cfg: Config) returns (id: nat)
    requires CleanInv(w, cfg) && Enabled(w, step, cfg) && NackFree(w, step, cfg) && Touches(w, step, sid)
    ensures Ticket(w, id, sid) && !Blocked(w, id, cfg)
  {
    match step
    case Consume(m, _) => id := m;
    case Expire(m) => id := m;
    case Finish(i, _) => id := EntryTicket(w, i, cfg);
    case Collect(i, _) => id := EntryTicket(w, i, cfg);
  }

  lemma EntryTicket(w: World, i: nat, cfg: Config) returns (id: nat)
    requires CleanInv(w, cfg) && i < |w.pending| && !w.pending[i].future.Broken?
    ensures Ticket(w, id, w.pending[i].task.sid) && !Blocked(w, id, cfg)
  {
    id := w.pending[i].tag;
    assert EntryInv(w, w.pending[i]);
    assert forall j | 0 <= j < |w.pending| && w.pending[j].tag == id :: j == i;
  }

  /** A world is at rest exactly when every message still to be judged is blocked. */
  lemma RestExactly(w: World, cfg: Config)
    requires CleanInv(w, cfg)
    ensures AtRest(w, cfg) <==> forall id, sid | Ticket(w, id, sid) :: Blocked(w, id, cfg)
  {
    hide CleanInv, Touches, Enabled, NackFree, Blocked;
    if id, sid :| Ticket(w, id, sid) && !Blocked(w, id, cfg) {
      var step := Unblocked(w, id, sid, cfg);
      assert Moving(w, step, cfg);
    }
    if step :| Moving(w, step, cfg) {
      var sid :| sid in w.published && Touches(w, step, sid);
      var id := MovingMeansUnblocked(w, step, sid, cfg);
    }
  }

  predicate NoneBroken(w: World) {
    forall i | 0 <= i < |w.pending| :: !w.pending[i].future.Broken?
  }

  /** Unless only a nack is left to do, nothing is left to do at rest. */
  lemma NothingBlocked(w: World, id: nat, sid: Sid, cfg: Config) returns (other: nat, its: Sid)
    requires CleanInv(w, cfg) && NoneBroken(w) && cfg.maxInflight >= 1 && Ticket(w, id, sid)
    ensures Ticket(w, other, its) && !Blocked(w, other, cfg)
  {
    other, its := id, sid;
    if Blocked(w, id, cfg) {
      other := EntryTicket(w, 0, cfg);
      its := w.pending[0].task.sid;
    }
  }

  lemma RestIsJudged(w: World, sid: Sid, cfg: Config)
    requires CleanInv(w, cfg) && NoneBroken(w) && cfg.maxInflight >= 1 && AtRest(w, cfg) && sid in w.published
    ensures sid in w.db && (Terminal(w.db[sid].status) <==> !Stray(w, sid))
  {
    assert sid in w.db;
    RestExactly(w, cfg);
    hide CleanInv, AtRest, Blocked;
    if id :| Ticket(w, id, sid) {
      var other, its := NothingBlocked(w, id, sid, cfg);
    }
  }

  /** The measure is spent exactly when the submission is judged or astray. */
  lemma SpentIsJudged(w: World, sid: Sid, cfg: Config)
    requires CleanInv(w, cfg) && sid in w.published
    ensures sid in w.db && (Potential(w, sid, cfg) == 0 <==> Terminal(w.db[sid].status) || Stray(w, sid))
  {
    if id :| Ticket(w, id, sid) {
      assert TicketInv(w, id);
      PotentialIsRank(w, id, sid, cfg);
    } else {
      NoTicketNoPotential(w, sid, cfg);
    }
  }

  /** The moves still possible for a finite set of submissions. */
  ghost function Total(w: World, some: set<Sid>, cfg: Config): nat {
    if exists sid :: sid in some then var sid :| sid in some; Potential(w, sid, cfg) + Total(w, some - {sid}, cfg)
    else 0
  }

  lemma {:induction false} TotalTakes(w: World, some: set<Sid>, sid: Sid, cfg: Config)
    requires sid in some
    ensures Total(w, some, cfg) == Potential(w, sid, cfg) + Total(w, some - {sid}, cfg)
    decreases |some|
  {
    hide Potential;
    var t :| t in some && Total(w, some, cfg) == Potential(w, t, cfg) + Total(w, some - {t}, cfg);
    if t != sid {
      TotalTakes(w, some - {t}, sid, cfg);
      TotalTakes(w, some - {sid}, t, cfg);
      assert some - {t} - {sid} == some - {sid} - {t};
    }
  }

  /** A step without failures never raises the sum, and lowers it when it touches one of them. */
  lemma {:induction false} TotalFalls(w: World, step: Step, w': World, some: set<Sid>, cfg: Config)
    requires forall sid | sid in some :: Measured(w, step, w', sid, cfg)
    ensures Total(w', some, cfg) <= Total(w, some, cfg)
    ensures (exists sid | sid in some :: Touches(w, step, sid)) ==> Total(w', some, cfg) < Total(w, some, cfg)
    decreases |some|
  {
    hide Potential, Touches;
    if sid :| sid in some {
      TotalTakes(w, some, sid, cfg);
      TotalTakes(w', some, sid, cfg);
      hide Total;
      assert Measured(w, step, w', sid, cfg);
      TotalFalls(w, step, w', some - {sid}, cfg);
      if t :| t in some && Touches(w, step, t) {
        assert t == sid || t in some - {sid};
      }
    }
  }

  lemma {:induction false} TotalBounded(w: World, some: set<Sid>, cfg: Config)
    requires CleanInv(w, cfg)
    ensures Total(w, some, cfg) <= |some| * (4 * cfg.maxRetry + 4)
    decreases |some|
  {
    hide CleanInv, Potential;
    if sid :| sid in some {
      TotalTakes(w, some, sid, cfg);
      hide Total;
      PotentialBound(w, sid, cfg);
      TotalBounded(w, some - {sid}, cfg);
      assert |some| == |some - {sid}| + 1;
      assert (|some - {sid}| + 1) * (4 * cfg.maxRetry + 4) == |some - {sid}| * (4 * cfg.maxRetry + 4) + (4 * cfg.maxRetry + 4);
    }
  }

  /** How many steps of the run moved the judging of any of these submissions forward. */
  ghost function MovesOf(w: World, steps: seq<Step>, some: set<Sid>, cfg: Config): nat
    requires IsRun(w, steps, cfg)
    decreases |steps|
  {
    if steps == [] then 0
    else (if exists sid | sid in some :: Touches(w, steps[0], sid) then 1 else 0)
         + MovesOf(Next(w, steps[0], cfg), steps[1..], some, cfg)
  }

  lemma {:induction false} MovesFitTotal(w: World, steps: seq<Step>, some: set<Sid>, cfg: Config)
    requires CleanInv(w, cfg) && IsRun(w, steps, cfg) && AllNackFree(w, steps, cfg)
    requires some <= w.published
    ensures MovesOf(w, steps, some, cfg) + Total(After(w, steps, cfg), some, cfg) <= Total(w, some, cfg)
    decreases |steps|
  {
    hide CleanInv, Enabled, NackFree, Touches, Total, Measured;
    if steps != [] {
      StepClean(w, steps[0], cfg);
      StepForgets(w, steps[0], cfg, {});
      hide Next;
      var w1 := Next(w, steps[0], cfg);
      forall sid | sid in some ensures Measured(w, steps[0], w1, sid, cfg) {
        StepMeasured(w, steps[0], sid, cfg);
      }
      TotalFalls(w, steps[0], w1, some, cfg);
      MovesFitTotal(w1, steps[1..], some, cfg);
    }
  }

  /** In nack-free runs k accepted submissions of a reachable world move at most k * (4 * maxRetry + 4) times more. */
  lemma MovesAreBounded(steps: seq<Step>, more: seq<Step>, some: set<Sid>, cfg: Config)
    requires IsRun(INITIAL, steps, cfg) && AllNackFree(INITIAL, steps, cfg)
    requires var w := After(INITIAL, steps, cfg);
             some <= w.published && IsRun(w, more, cfg) && AllNackFree(w, more, cfg)
    ensures MovesOf(After(INITIAL, steps, cfg), more, some, cfg) <= |some| * (4 * cfg.maxRetry + 4)
  {
    InitialClean(cfg);
    CleanRun(INITIAL, steps, "", cfg);
    hide CleanInv, IsRun, After, AllNackFree, MovesOf, Total;
    MovesFitTotal(After(INITIAL, steps, cfg), more, some, cfg);
    TotalBounded(After(INITIAL, steps, cfg), some, cfg);
  }

  /**
   * Every accepted submission becomes terminal after at most maxRetry + 1 attempts, in every run without
   * nacks and requeues that comes to rest with no attempt left that only a nack can settle, if and only
   * if no step led it astray.
   */
  lemma EverySubmissionIsJudged(steps: seq<Step>, sid: Sid, cfg: Config)
    requires cfg.maxInflight >= 1
    requires IsRun(INITIAL, steps, cfg) && AllNackFree(INITIAL, steps, cfg)
    requires sid in After(INITIAL, steps, cfg).published
    ensures var end := After(INITIAL, steps, cfg);
            && sid in end.db && sid in end.attempts && end.attempts[sid] <= cfg.maxRetry + 1
            && (AtRest(end, cfg) && NoneBroken(end) ==>
                  (Terminal(end.db[sid].status) <==> NeverStrays(INITIAL, steps, sid, cfg)))
  {
    InitialClean(cfg);
    CleanRun(INITIAL, steps, sid, cfg);
    var end := After(INITIAL, steps, cfg);
    assert end.published <= end.attempts.Keys && end.published <= end.db.Keys && end.attempts[sid] <= cfg.maxRetry + 1;
    assert !Stray(INITIAL, sid);
    hide IsRun, After, AllNackFree, CleanInv, NoneBroken, AtRest, Stray;
    if AtRest(end, cfg) && NoneBroken(end) {
      RestIsJudged(end, sid, cfg);
    }
  }

  /** The step does no harm: nothing goes astray and no attempt breaks. */
  predicate Gentle(w: World, step: Step, cfg: Config)
    requires Enabled(w, step, cfg)
  {
    NackFree(w, step, cfg) && NoneBroken(Next(w, step, cfg)) && forall sid | sid in w.published :: !Strays(w, step, sid)
  }

  lemma OneMove(w: World, sid: Sid, cfg: Config) returns (step: Step)
    requires CleanInv(w, cfg) && NoneBroken(w) && cfg.maxInflight >= 1
    requires exists id :: Ticket(w, id, sid)
    ensures Enabled(w, step, cfg) && Gentle(w, step, cfg)
    ensures var w1 := Next(w, step, cfg);
            && CleanInv(w1, cfg) && w1.published == w.published
            && Total(w1, w1.published, cfg) < Total(w, w.published, cfg)
  {
    hide CleanInv, NoneBroken, Enabled, Touches, NackFree, Total, Measured, Next, Gentle;
    var id :| Ticket(w, id, sid);
    var other, its := NothingBlocked(w, id, sid, cfg);
    step := Unblocked(w, other, its, cfg);
    GentleStep(w, step, cfg);
    hide Ticket;
    StepClean(w, step, cfg);
    StepForgets(w, step, cfg, {});
    var w1 := Next(w, step, cfg);
    forall s | s in w.published ensures Measured(w, step, w1, s, cfg) {
      StepMeasured(w, step, s, cfg);
    }
    TotalFalls(w, step, w1, w.published, cfg);
    assert w1.published == w.published;
  }

  lemma GentleStep(w: World, step: Step, cfg: Config)
    requires CleanInv(w, cfg) && NoneBroken(w) && Enabled(w, step, cfg) && NackFree(w, step, cfg)
    requires match step
             case Expire(_) => true
             case Consume(id, f) => f == NO_DELIVERY_FAULTS && w.broker[id].body.Good?
             case Finish(_, attempt) => attempt == Responded(Ok)
             case Collect(_, f) => f == NO_FAULTS
             case _ => false
    ensures Gentle(w, step, cfg)
  {
    match step
    case Consume(id, f) =>
      assert TicketInv(w, id);
      ConsumeDispatches(w, id, f, cfg);
      hide CleanInv, Next;
    case Collect(i, f) =>
      if w.pending[i].future.Result? {
        ResultTickets(w, i, f, cfg);
      } else {
        TemporaryIsExchange(w, i, f, cfg);
      }
      hide CleanInv, Next;
    case _ =>
  }

  /** Rest is always within reach: some nack-free run without submissions judges all that is not astray. */
  lemma {:induction false} FinishingRun(w: World, cfg: Config) returns (more: seq<Step>)
    requires CleanInv(w, cfg) && NoneBroken(w) && cfg.maxInflight >= 1
    ensures IsRun(w, more, cfg) && AllNackFree(w, more, cfg)
    ensures |more| <= Total(w, w.published, cfg) <= |w.published| * (4 * cfg.maxRetry + 4)
    ensures var end := After(w, more, cfg);
            end.published == w.published <= end.db.Keys
            && forall sid | sid in end.published :: Terminal(end.db[sid].status) <==> !Stray(w, sid)
    decreases Total(w, w.published, cfg)
  {
    TotalBounded(w, w.published, cfg);
    more := [];
    assert forall sid | sid in w.published :: sid in w.db;
    hide CleanInv, Enabled, NackFree, Total, Next;
    if sid, id :| Ticket(w, id, sid) {
      var step := OneMove(w, sid, cfg);
      var w1 := Next(w, step, cfg);
      forall s | s in w.published ensures Stray(w1, s) <==> Stray(w, s) {
        StepStrays(w, step, s, cfg);
      }
      hide Stray;
      var rest := FinishingRun(w1, cfg);
      more := [step] + rest;
      assert more[1..] == rest;
    }
  }
}
