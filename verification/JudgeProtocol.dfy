/**
 * The judge delivery protocol: the submission table, the broker and one dispatcher as a state
 * machine. Every call into the database or the broker may fail; a step carries the outcomes it meets.
 */
module JudgeProtocol {
  import opened Text

  type Sid = string

  datatype Verdict =
    | Ok | CompileError | RuntimeError | TimeLimitExceeded | MemoryLimitExceeded
    | OutputLimitExceeded | WrongAnswer | PresentationError | SystemError

  datatype Status = Queued | Running | NotFound | Judged(verdict: Verdict)

  datatype Record = Record(status: Status, accepted: bool)

  const SYSTEM_ERROR := Record(Judged(SystemError), false)

  predicate Terminal(s: Status) {
    s.NotFound? || s.Judged?
  }

  predicate Consistent(r: Record) {
    r.accepted <==> r.status == Judged(Ok)
  }

  datatype Task = Task(sid: Sid, retry: nat)

  /** A message body: a task, or text that is no task. */
  datatype Body = Good(task: Task) | Bad(empty: bool)

  datatype Place = Main | Retry | Dead | Unacked

  datatype Message = Message(body: Body, place: Place)

  /** The std::future of one judging attempt. */
  datatype Future = Working | Result(record: Record) | Temporary(reason: string) | Broken

  datatype Pending = Pending(task: Task, tag: nat, future: Future)

  datatype Config = Config(maxRetry: nat, maxInflight: nat)

  /**
   * `broker` holds every message under a number of its own; a delivery gets a fresh number, which is
   * its delivery tag. `rewrites` are the records that JudgeService::submit has still to write back
   * after publishing. `published`, `settled` and `attempts` only record history.
   */
  datatype World = World(
    db: map<Sid, Record>, rewrites: map<Sid, Record>,
    broker: map<nat, Message>, next: nat, connected: bool,
    pending: seq<Pending>,
    published: set<Sid>, settled: multiset<nat>, attempts: map<Sid, nat>)

  const INITIAL := World(map[], map[], map[], 0, true, [], {}, multiset{}, map[])

  // ---- Judging -----------------------------------------------------------

  predicate IsTransientWorkerFailure(reason: string) {
    || Contains(reason, "timed out")
    || Contains(reason, "timeout")
    || Contains(reason, "failed to connect judge_worker")
    || Contains(reason, "all judge workers are temporarily unavailable")
    || Contains(reason, "all judge workers failed")
    || Contains(reason, "send failed")
    || Contains(reason, "recv failed")
  }

  datatype Attempt = LoadFailed | ProblemMissing | Threw(reason: string) | ThrewUnknown | Responded(verdict: Verdict)

  /** execute_judge_task: every outcome of one attempt, as its future reports it. */
  function ExecuteJudgeTask(attempt: Attempt): (f: Future)
    ensures f.Result? ==> Terminal(f.record.status) && Consistent(f.record)
    ensures !f.Working?
  {
    match attempt
    case LoadFailed => Broken
    case ProblemMissing => Result(Record(NotFound, false))
    case Responded(verdict) => Result(Record(Judged(verdict), verdict == Ok))
    case ThrewUnknown => Result(SYSTEM_ERROR)
    case Threw(reason) =>
      if reason == "problem not found" then Result(Record(NotFound, false))
      else if IsTransientWorkerFailure(reason) then Temporary(reason)
      else Result(SYSTEM_ERROR)
  }

  // ---- Calls into the database and the broker ----------------------------

  /** The outcome of update_submission; an error after the commit leaves the record written. */
  datatype Save = Saved | Unsaved | SavedThenThrew

  function Write(w: World, sid: Sid, r: Record, save: Save): World {
    if save.Unsaved? || sid !in w.db then w else w.(db := w.db[sid := r])
  }

  function Publish(w: World, body: Body, place: Place): World {
    w.(broker := w.broker[w.next := Message(body, place)], next := w.next + 1)
  }

  predicate Holds(w: World, tag: nat) {
    w.connected && tag in w.broker && w.broker[tag].place.Unacked?
  }

  function Ack(w: World, tag: nat): World {
    w.(settled := w.settled + multiset{tag}, broker := if Holds(w, tag) then w.broker - {tag} else w.broker)
  }

  function NackRequeue(w: World, tag: nat): World {
    w.(settled := w.settled + multiset{tag},
       broker := if Holds(w, tag) then w.broker[tag := Message(w.broker[tag].body, Main)] else w.broker)
  }

  function Settle(w: World, tag: nat, ok: bool): World {
    if ok then Ack(w, tag) else NackRequeue(w, tag)
  }

  // ---- Collecting finished tasks -----------------------------------------

  /** The outcome of one publish. After SentThenLost the broker has the message and the connection is gone. */
  datatype Sending = Sent | Unsent | SentThenLost

  /** `publish_…_task` returning true; what is settled next on a lost connection has no effect. */
  function Send(w: World, body: Body, place: Place, sending: Sending): World {
    var sent := Publish(w, body, place);
    if sending.SentThenLost? then sent.(connected := false) else sent
  }

  datatype Faults = Faults(loads: bool, save: Save, sending: Sending)

  const NO_FAULTS := Faults(true, Saved, Sent)

  /** Writes `r` unless the record is already terminal; false when it throws. */
  function Mark(w: World, sid: Sid, r: Record, f: Faults): (World, bool) {
    if !f.loads || sid !in w.db then (w, false)
    else if Terminal(w.db[sid].status) then (w, true)
    else (Write(w, sid, r, f.save), f.save.Saved?)
  }

  /** A temporary failure: one more retry, or the dead-letter queue. */
  function Reroute(w: World, task: Task, f: Faults, cfg: Config): (World, bool) {
    var again := task.(retry := task.retry + 1);
    var exhausted := again.retry > cfg.maxRetry;
    var (marked, ok) := Mark(w, task.sid, if exhausted then SYSTEM_ERROR else Record(Queued, false), f);
    if ok && w.connected && !f.sending.Unsent?
    then (Send(marked, Good(again), if exhausted then Dead else Retry, f.sending), true)
    else (marked, false)
  }

  function Finalize(w: World, p: Pending, f: Faults, cfg: Config): World {
    match p.future
    case Result(record) =>
      Settle(Write(w, p.task.sid, record, f.save), p.tag, f.save.Saved? && p.task.sid in w.db)
    case Temporary(_) =>
      var (routed, ok) := Reroute(w, p.task, f, cfg);
      Settle(routed, p.tag, ok)
    case _ => NackRequeue(w, p.tag)
  }

  function Without(pending: seq<Pending>, i: nat): seq<Pending>
    requires i < |pending|
  {
    pending[..i] + pending[i + 1..]
  }

  /** One turn of the collecting loop for an entry whose future is ready. */
  function CollectOne(w: World, i: nat, f: Faults, cfg: Config): World
    requires i < |w.pending|
  {
    Finalize(w, w.pending[i], f, cfg).(pending := Without(w.pending, i))
  }

  // ---- Handling one delivery ---------------------------------------------

  /** `loads` and `save` are met by the dispatch, `async` by the thread, `rescue` by the dead-letter path. */
  datatype DeliveryFaults = DeliveryFaults(loads: bool, reloads: bool, save: Save, async: bool, rescue: Faults)

  const NO_DELIVERY_FAULTS := DeliveryFaults(true, true, Saved, true, NO_FAULTS)

  /** mark_submission_dead, whose own failure is swallowed. */
  function MarkDead(w: World, body: Body, f: Faults): World {
    if body.Good? then Mark(w, body.task.sid, SYSTEM_ERROR, f).0 else w
  }

  /** The body becomes a dead letter, unless it is empty, and the delivery is settled. */
  function DeadLetter(w: World, tag: nat, body: Body, sending: Sending): World {
    if body == Bad(true) then Ack(w, tag)
    else if w.connected && !sending.Unsent? then Ack(Send(w, body, Dead, sending), tag)
    else NackRequeue(w, tag)
  }

  /** The handler of a throwing delivery: mark what can be marked, keep the body as a dead letter. */
  function Rescue(w: World, tag: nat, body: Body, f: Faults): World {
    DeadLetter(MarkDead(w, body, f), tag, body, f.sending)
  }

  lemma DeadLetterTouchesBroker(w: World, tag: nat, body: Body, sending: Sending)
    ensures var w' := DeadLetter(w, tag, body, sending);
            && w'.db == w.db && w'.rewrites == w.rewrites && w'.published == w.published
            && w'.pending == w.pending && w'.attempts == w.attempts
  {
  }

  /** dispatch_task; false when it throws. A record found terminal here leaves the delivery unsettled. */
  function DispatchTask(w: World, tag: nat, task: Task, f: DeliveryFaults): (World, bool) {
    if !f.reloads || task.sid !in w.db then (w, false)
    else if Terminal(w.db[task.sid].status) then (w, true)
    else
      var running := Write(w, task.sid, Record(Running, false), f.save);
      if !f.save.Saved? || !f.async then (running, false)
      else
        var tried := if task.sid in w.attempts then w.attempts[task.sid] else 0;
        (running.(pending := w.pending + [Pending(task, tag, Working)],
                  attempts := w.attempts[task.sid := tried + 1]), true)
  }

  function HandleDelivery(w: World, tag: nat, body: Body, f: DeliveryFaults): World {
    if body.Bad? || !f.loads || body.task.sid !in w.db then Rescue(w, tag, body, f.rescue)
    else if Terminal(w.db[body.task.sid].status) then Ack(w, tag)
    else
      var (dispatched, ok) := DispatchTask(w, tag, body.task, f);
      if ok then dispatched else Rescue(dispatched, tag, body, f.rescue)
  }

  /** The broker hands a message of the judge queue over under a fresh tag. */
  function Deliver(w: World, id: nat): World
    requires id in w.broker
  {
    w.(broker := (w.broker - {id})[w.next := Message(w.broker[id].body, Unacked)], next := w.next + 1)
  }

  // ---- Steps and runs ----------------------------------------------------

  datatype Submission = Missing | Refused | Accepted

  datatype Step =
    | Submit(sid: Sid, how: Submission)
    | LateWrite(sid: Sid, save: Save)
    | Inject(empty: bool)
    | Consume(id: nat, delivery: DeliveryFaults)
    | Finish(i: nat, attempt: Attempt)
    | Collect(i: nat, faults: Faults)
    | Expire(id: nat)
    | Lose
    | Requeue(id: nat)
    | Restart

  predicate InPlace(w: World, id: nat, place: Place) {
    id in w.broker && w.broker[id].place == place
  }

  predicate Enabled(w: World, step: Step, cfg: Config) {
    match step
    case Submit(sid, _) => sid !in w.db
    case LateWrite(sid, _) => sid in w.rewrites
    case Inject(_) => true
    case Consume(id, _) => w.connected && |w.pending| < cfg.maxInflight && InPlace(w, id, Main)
    case Finish(i, _) => i < |w.pending| && w.pending[i].future.Working?
    case Collect(i, _) => i < |w.pending| && !w.pending[i].future.Working?
    case Expire(id) => InPlace(w, id, Retry)
    case Lose => true
    case Requeue(id) => !w.connected && InPlace(w, id, Unacked)
    case Restart => !w.connected && forall id | id in w.broker :: !w.broker[id].place.Unacked?
  }

  function SubmitTo(w: World, sid: Sid, how: Submission): World {
    match how
    case Missing => w.(db := w.db[sid := Record(NotFound, false)])
    case Refused => w.(db := w.db[sid := Record(Queued, false)], rewrites := w.rewrites[sid := SYSTEM_ERROR])
    case Accepted =>
      Publish(w.(db := w.db[sid := Record(Queued, false)], rewrites := w.rewrites[sid := Record(Queued, false)],
                 published := w.published + {sid}, attempts := w.attempts[sid := 0]),
              Good(Task(sid, 0)), Main)
  }

  function Next(w: World, step: Step, cfg: Config): World
    requires Enabled(w, step, cfg)
  {
    match step
    case Submit(sid, how) => SubmitTo(w, sid, how)
    case LateWrite(sid, save) => Write(w, sid, w.rewrites[sid], save).(rewrites := w.rewrites - {sid})
    case Inject(empty) => Publish(w, Bad(empty), Main)
    case Consume(id, f) => HandleDelivery(Deliver(w, id), w.next, w.broker[id].body, f)
    case Finish(i, attempt) =>
      w.(pending := w.pending[i := w.pending[i].(future := ExecuteJudgeTask(attempt))])
    case Collect(i, f) => CollectOne(w, i, f, cfg)
    case Expire(id) => w.(broker := w.broker[id := Message(w.broker[id].body, Main)])
    case Lose => w.(connected := false)
    case Requeue(id) => w.(broker := w.broker[id := Message(w.broker[id].body, Main)])
    case Restart => w.(connected := true, pending := [])
  }

  /** The rewrite of JudgeService::submit does not find the submission judged already. */
  predicate Timely(w: World, step: Step) {
    step.LateWrite? && step.sid in w.rewrites && step.sid in w.db && w.rewrites[step.sid].status.Queued? ==>
      !Terminal(w.db[step.sid].status)
  }

  predicate IsRun(w: World, steps: seq<Step>, cfg: Config)
    decreases |steps|
  {
    steps == [] ||
    (Enabled(w, steps[0], cfg) && IsRun(Next(w, steps[0], cfg), steps[1..], cfg))
  }

  function After(w: World, steps: seq<Step>, cfg: Config): World
    requires IsRun(w, steps, cfg)
    decreases |steps|
  {
    if steps == [] then w else After(Next(w, steps[0], cfg), steps[1..], cfg)
  }

  predicate AllTimely(w: World, steps: seq<Step>, cfg: Config)
    requires IsRun(w, steps, cfg)
    decreases |steps|
  {
    steps == [] || (Timely(w, steps[0]) && AllTimely(Next(w, steps[0], cfg), steps[1..], cfg))
  }

  // ---- The invariant -----------------------------------------------------

  predicate Carries(m: Message, sid: Sid) {
    m.body.Good? && m.body.task.sid == sid
  }

  ghost predicate Live(w: World, sid: Sid) {
    exists id :: id in w.broker && Carries(w.broker[id], sid)
  }

  /** Every accepted submission is judged or still has a message somewhere. */
  ghost predicate NothingLost(w: World) {
    forall sid | sid in w.published :: sid in w.db && (Terminal(w.db[sid].status) || Live(w, sid))
  }

  /** A message whose number is `tag`, delivered and not settled, carries `body`. */
  predicate InHand(w: World, tag: nat, body: Body) {
    && tag in w.broker && tag !in w.settled
    && w.broker[tag].body == body && w.broker[tag].place in {Main, Unacked}
    && (w.connected ==> w.broker[tag].place.Unacked?)
  }

  predicate EntryInv(w: World, p: Pending) {
    && InHand(w, p.tag, Good(p.task))
    && (p.future.Result? ==> Terminal(p.future.record.status) && Consistent(p.future.record))
  }

  ghost predicate PendingInv(w: World, cfg: Config) {
    && |w.pending| <= cfg.maxInflight
    && (forall i | 0 <= i < |w.pending| :: EntryInv(w, w.pending[i]))
    && (forall i, j | 0 <= i < j < |w.pending| :: w.pending[i].tag != w.pending[j].tag)
  }

  /** The retry budget of one message; a dead letter may have overdrawn it by one. */
  predicate Budget(w: World, m: Message, cfg: Config) {
    m.body.Good? ==>
      && m.body.task.sid in w.db
      && m.body.task.retry <= cfg.maxRetry + if m.place.Dead? then 1 else 0
  }

  ghost predicate BrokerInv(w: World, cfg: Config) {
    && (forall id | id in w.broker :: id < w.next && Budget(w, w.broker[id], cfg))
    && (forall tag | tag in w.settled :: tag < w.next && w.settled[tag] == 1)
  }

  ghost predicate RecordInv(w: World) {
    && (forall sid | sid in w.db :: Consistent(w.db[sid]))
    && (forall sid | sid in w.rewrites :: sid in w.db && w.rewrites[sid] in {Record(Queued, false), SYSTEM_ERROR})
  }

  predicate Awaited(pending: seq<Pending>, id: nat) {
    exists i | 0 <= i < |pending| :: pending[i].tag == id
  }

  ghost predicate CommonInv(w: World, cfg: Config) {
    PendingInv(w, cfg) && BrokerInv(w, cfg) && RecordInv(w) && NothingLost(w)
  }

  /** Between two turns of the loop every delivery that is not settled is being judged. */
  ghost predicate Inv(w: World, cfg: Config) {
    && CommonInv(w, cfg)
    && (w.connected ==> forall id | InPlace(w, id, Unacked) :: Awaited(w.pending, id))
  }

  /** Inside a turn exactly one delivery is in the hands of the loop. */
  ghost predicate Handling(w: World, tag: nat, body: Body, cfg: Config) {
    && CommonInv(w, cfg)
    && InHand(w, tag, body) && !Awaited(w.pending, tag)
    && (w.connected ==> forall id | InPlace(w, id, Unacked) :: id == tag || Awaited(w.pending, id))
  }

  lemma InitialInv(cfg: Config)
    ensures Inv(INITIAL, cfg)
  {
  }

  // ---- What each call keeps while a delivery is in hand -------------------

  lemma HandlingWrite(w: World, tag: nat, body: Body, r: Record, save: Save, cfg: Config)
    requires Handling(w, tag, body, cfg) && body.Good? && Consistent(r)
    ensures Handling(Write(w, body.task.sid, r, save), tag, body, cfg)
  {
    var w' := Write(w, body.task.sid, r, save);
    assert Carries(w'.broker[tag], body.task.sid);
    forall sid | sid in w'.published && !Terminal(w'.db[sid].status) ensures Live(w', sid) {
      if sid != body.task.sid {
        var id :| id in w.broker && Carries(w.broker[id], sid);
        assert Carries(w'.broker[id], sid);
      }
    }
  }

  lemma LiveGrows(w: World, w': World)
    requires NothingLost(w) && w'.published == w.published && w'.db == w.db
    requires forall id | id in w.broker :: id in w'.broker && w'.broker[id].body == w.broker[id].body
    ensures NothingLost(w')
  {
    forall sid | sid in w'.published && !Terminal(w'.db[sid].status) ensures Live(w', sid) {
      var id :| id in w.broker && Carries(w.broker[id], sid);
      assert Carries(w'.broker[id], sid);
    }
  }

  lemma HandlingSend(w: World, tag: nat, body: Body, sent: Body, place: Place, sending: Sending, cfg: Config)
    requires Handling(w, tag, body, cfg) && place != Unacked && Budget(w, Message(sent, place), cfg)
    ensures Handling(Send(w, sent, place, sending), tag, body, cfg)
  {
    LiveGrows(w, Send(w, sent, place, sending));
  }

  lemma HandlingNack(w: World, tag: nat, body: Body, cfg: Config)
    requires Handling(w, tag, body, cfg)
    ensures Inv(NackRequeue(w, tag), cfg)
  {
    LiveGrows(w, NackRequeue(w, tag));
  }

  /** Acknowledging is safe once the submission is judged or another message carries it. */
  lemma HandlingAck(w: World, tag: nat, body: Body, cfg: Config)
    requires Handling(w, tag, body, cfg)
    requires body.Good? && body.task.sid in w.published && !Terminal(w.db[body.task.sid].status) ==>
               exists id :: id in w.broker && id != tag && Carries(w.broker[id], body.task.sid)
    ensures Inv(Ack(w, tag), cfg)
  {
    var w' := Ack(w, tag);
    forall sid | sid in w'.published && !Terminal(w'.db[sid].status) ensures Live(w', sid) {
      var id :| id in w.broker && Carries(w.broker[id], sid) && id != tag;
      assert Carries(w'.broker[id], sid);
    }
  }

  lemma HandlingMark(w: World, tag: nat, body: Body, r: Record, f: Faults, cfg: Config)
    requires Handling(w, tag, body, cfg) && body.Good? && Consistent(r)
    ensures var (marked, ok) := Mark(w, body.task.sid, r, f);
            && Handling(marked, tag, body, cfg)
            && marked == w.(db := marked.db)
            && (ok && Terminal(r.status) ==> Terminal(marked.db[body.task.sid].status))
  {
    hide Handling;
    assert body.task.sid in w.db by { HandlingKnows(w, tag, body, cfg); }
    HandlingWrite(w, tag, body, r, f.save, cfg);
  }

  lemma HandlingKnows(w: World, tag: nat, body: Body, cfg: Config)
    requires Handling(w, tag, body, cfg)
    ensures body.Good? ==> body.task.sid in w.db
    ensures Budget(w, Message(body, Main), cfg) && tag < w.next
  {
  }

  /** After a successful reroute another message, or the verdict, stands for the submission. */
  lemma HandlingReroute(w: World, tag: nat, task: Task, f: Faults, cfg: Config)
    requires Handling(w, tag, Good(task), cfg)
    ensures var (routed, ok) := Reroute(w, task, f, cfg);
            Inv(Settle(routed, tag, ok), cfg)
  {
    hide Handling, Inv, Mark, Ack, NackRequeue;
    var again := task.(retry := task.retry + 1);
    var exhausted := again.retry > cfg.maxRetry;
    var place := if exhausted then Dead else Retry;
    var record := if exhausted then SYSTEM_ERROR else Record(Queued, false);
    var (marked, ok) := Mark(w, task.sid, record, f);
    HandlingMark(w, tag, Good(task), record, f, cfg);
    HandlingKnows(marked, tag, Good(task), cfg);
    if ok && w.connected && !f.sending.Unsent? {
      HandlingSend(marked, tag, Good(task), Good(again), place, f.sending, cfg);
      var sent := Send(marked, Good(again), place, f.sending);
      assert Carries(sent.broker[marked.next], task.sid);
      HandlingAck(sent, tag, Good(task), cfg);
    } else {
      HandlingNack(marked, tag, Good(task), cfg);
    }
  }

  lemma HandlingFinalize(w: World, p: Pending, f: Faults, cfg: Config)
    requires Handling(w, p.tag, Good(p.task), cfg)
    requires p.future.Result? ==> Terminal(p.future.record.status) && Consistent(p.future.record)
    ensures Inv(Finalize(w, p, f, cfg), cfg)
  {
    hide Handling, Inv, Reroute, Ack, NackRequeue;
    match p.future
    case Result(record) =>
      HandlingWrite(w, p.tag, Good(p.task), record, f.save, cfg);
      var w' := Write(w, p.task.sid, record, f.save);
      if f.save.Saved? && p.task.sid in w.db {
        HandlingAck(w', p.tag, Good(p.task), cfg);
      } else {
        HandlingNack(w', p.tag, Good(p.task), cfg);
      }
    case Temporary(_) => HandlingReroute(w, p.tag, p.task, f, cfg);
    case _ => HandlingNack(w, p.tag, Good(p.task), cfg);
  }

  lemma WithoutAwaits(pending: seq<Pending>, i: nat)
    requires i < |pending|
    ensures forall j | 0 <= j < |pending| - 1 ::
              Without(pending, i)[j] == pending[if j < i then j else j + 1]
    ensures forall id | Awaited(pending, id) :: id == pending[i].tag || Awaited(Without(pending, i), id)
  {
    forall id | Awaited(pending, id) && id != pending[i].tag ensures Awaited(Without(pending, i), id) {
      var k :| 0 <= k < |pending| && pending[k].tag == id;
      assert Without(pending, i)[if k < i then k else k - 1].tag == id;
    }
  }

  /** The finished entry leaves the vector: its delivery is now in the hands of the loop. */
  lemma TakeFinished(w: World, i: nat, cfg: Config)
    requires Inv(w, cfg) && i < |w.pending|
    ensures Handling(w.(pending := Without(w.pending, i)), w.pending[i].tag, Good(w.pending[i].task), cfg)
  {
    WithoutAwaits(w.pending, i);
    var w' := w.(pending := Without(w.pending, i));
    LiveGrows(w, w');
    assert EntryInv(w, w.pending[i]);
    forall j | 0 <= j < |w'.pending| ensures EntryInv(w', w'.pending[j]) && w'.pending[j].tag != w.pending[i].tag {
      assert EntryInv(w, w.pending[if j < i then j else j + 1]);
    }
  }

  lemma SettleKeepsPending(w: World, ps: seq<Pending>, tag: nat, ok: bool)
    ensures Settle(w.(pending := ps), tag, ok) == Settle(w, tag, ok).(pending := ps)
  {
  }

  lemma RerouteIgnoresPending(w: World, task: Task, f: Faults, cfg: Config, ps: seq<Pending>)
    ensures var (routed, ok) := Reroute(w, task, f, cfg);
            Reroute(w.(pending := ps), task, f, cfg) == (routed.(pending := ps), ok)
  {
    MarkIgnoresPending(w, task.sid, if task.retry + 1 > cfg.maxRetry then SYSTEM_ERROR else Record(Queued, false), f, ps);
    hide Mark;
  }

  lemma MarkIgnoresPending(w: World, sid: Sid, r: Record, f: Faults, ps: seq<Pending>)
    ensures var (marked, ok) := Mark(w, sid, r, f);
            Mark(w.(pending := ps), sid, r, f) == (marked.(pending := ps), ok) && marked.connected == w.connected
  {
  }

  lemma FinalizeIgnoresPending(w: World, p: Pending, f: Faults, cfg: Config, ps: seq<Pending>)
    ensures Finalize(w.(pending := ps), p, f, cfg) == Finalize(w, p, f, cfg).(pending := ps)
  {
    match p.future
    case Result(record) =>
      hide Settle;
      SettleKeepsPending(Write(w, p.task.sid, record, f.save), ps, p.tag, f.save.Saved? && p.task.sid in w.db);
    case Temporary(_) =>
      RerouteIgnoresPending(w, p.task, f, cfg, ps);
      hide Settle, Reroute;
      var (routed, ok) := Reroute(w, p.task, f, cfg);
      SettleKeepsPending(routed, ps, p.tag, ok);
    case _ =>
  }

  lemma CollectInv(w: World, i: nat, f: Faults, cfg: Config)
    requires Inv(w, cfg) && i < |w.pending|
    ensures Inv(CollectOne(w, i, f, cfg), cfg)
  {
    assert EntryInv(w, w.pending[i]);
    TakeFinished(w, i, cfg);
    hide Inv, Handling, Finalize;
    HandlingFinalize(w.(pending := Without(w.pending, i)), w.pending[i], f, cfg);
    FinalizeIgnoresPending(w, w.pending[i], f, cfg, Without(w.pending, i));
  }

  // ---- One delivery ------------------------------------------------------

  lemma DeliverHandling(w: World, id: nat, cfg: Config)
    requires Inv(w, cfg) && w.connected && InPlace(w, id, Main)
    ensures Handling(Deliver(w, id), w.next, w.broker[id].body, cfg)
  {
    var w' := Deliver(w, id);
    forall sid | sid in w'.published && !Terminal(w'.db[sid].status) ensures Live(w', sid) {
      var k :| k in w.broker && Carries(w.broker[k], sid);
      assert Carries(w'.broker[if k == id then w.next else k], sid);
    }
    forall i | 0 <= i < |w'.pending| ensures EntryInv(w', w'.pending[i]) {
      assert EntryInv(w, w.pending[i]);
    }
  }

  lemma HandlingRescue(w: World, tag: nat, body: Body, f: Faults, cfg: Config)
    requires Handling(w, tag, body, cfg)
    ensures Inv(Rescue(w, tag, body, f), cfg)
  {
    hide Handling, Inv, Mark, Ack, NackRequeue;
    var marked := if body.Good? then Mark(w, body.task.sid, SYSTEM_ERROR, f).0 else w;
    if body.Good? {
      HandlingMark(w, tag, body, SYSTEM_ERROR, f, cfg);
    }
    HandlingKnows(marked, tag, body, cfg);
    if body == Bad(true) {
      HandlingAck(marked, tag, body, cfg);
    } else if w.connected && !f.sending.Unsent? {
      HandlingSend(marked, tag, body, body, Dead, f.sending, cfg);
      var sent := Send(marked, body, Dead, f.sending);
      assert body.Good? ==> Carries(sent.broker[marked.next], body.task.sid);
      HandlingAck(sent, tag, body, cfg);
    } else {
      HandlingNack(marked, tag, body, cfg);
    }
  }

  lemma HandlingPush(w: World, tag: nat, task: Task, attempts: map<Sid, nat>, cfg: Config)
    requires Handling(w, tag, Good(task), cfg) && |w.pending| < cfg.maxInflight
    ensures Inv(w.(pending := w.pending + [Pending(task, tag, Working)], attempts := attempts), cfg)
  {
    var w' := w.(pending := w.pending + [Pending(task, tag, Working)], attempts := attempts);
    LiveGrows(w, w');
    forall i | 0 <= i < |w'.pending| ensures EntryInv(w', w'.pending[i]) {
      if i < |w.pending| {
        assert EntryInv(w, w.pending[i]);
      }
    }
    assert w'.pending[|w.pending|].tag == tag;
    forall id | Awaited(w.pending, id) ensures Awaited(w'.pending, id) {
      var k :| 0 <= k < |w.pending| && w.pending[k].tag == id;
      assert w'.pending[k].tag == id;
    }
  }

  lemma DeliveryInv(w: World, tag: nat, body: Body, f: DeliveryFaults, cfg: Config)
    requires Handling(w, tag, body, cfg) && |w.pending| < cfg.maxInflight
    ensures Inv(HandleDelivery(w, tag, body, f), cfg)
  {
    hide Handling, Inv, Ack, Rescue;
    if body.Bad? || !f.loads || body.task.sid !in w.db {
      HandlingRescue(w, tag, body, f.rescue, cfg);
    } else if Terminal(w.db[body.task.sid].status) {
      HandlingAck(w, tag, body, cfg);
    } else if !f.reloads {
      HandlingRescue(w, tag, body, f.rescue, cfg);
    } else {
      var running := Write(w, body.task.sid, Record(Running, false), f.save);
      HandlingWrite(w, tag, body, Record(Running, false), f.save, cfg);
      if !f.save.Saved? || !f.async {
        HandlingRescue(running, tag, body, f.rescue, cfg);
      } else {
        HandlingPush(running, tag, body.task, DispatchTask(w, tag, body.task, f).0.attempts, cfg);
      }
    }
  }
}
