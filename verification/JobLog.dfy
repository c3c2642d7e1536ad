/** The event log of an assistant job: a worker appends, polls read, time expires it, browsers follow it. */
module JobLog {
  import opened Text

  datatype Event = Event(id: int, name: string, data: string)

  /** The fields of a job that its mutex guards. */
  datatype Log = Log(events: seq<Event>, done: bool, createdAt: int)

  const TIMEOUT_SECONDS := 240

  predicate Concludes(e: Event) {
    e.name == "done" || e.name == "error"
  }

  predicate Concluded(events: seq<Event>) {
    exists i :: 0 <= i < |events| && Concludes(events[i])
  }

  function NextId(events: seq<Event>): int {
    if events == [] then 1 else events[|events| - 1].id + 1
  }

  function Appended(log: Log, name: string, data: string): Log {
    log.(events := log.events + [Event(NextId(log.events), name, data)])
  }

  predicate Stale(log: Log, now: int) {
    !log.done && now - log.createdAt > TIMEOUT_SECONDS
  }

  const EXPIRED := "the job ran for too long and was stopped"

  function Expired(log: Log, now: int): Log {
    if Stale(log, now) then Appended(log, "error", EXPIRED).(done := true) else log
  }

  function Newer(events: seq<Event>, after: int): seq<Event> {
    if events == [] then []
    else
      var n := |events| - 1;
      Newer(events[..n], after) + if events[n].id <= after then [] else [events[n]]
  }

  // ---- The object -------------------------------------------------------------

  /** One job; each method is one section under the job's mutex. */
  class Job {
    var done: bool
    var createdAt: int
    var events: seq<Event>

    function State(): Log
      reads this
    {
      Log(events, done, createdAt)
    }

    constructor (now: int)
      ensures State() == Log([], false, now)
    {
      done, createdAt, events := false, now, [];
    }

    method Append(name: string, data: string)
      modifies this`events
      ensures State() == Appended(old(State()), name, data)
    {
      var nextId := if events == [] then 1 else events[|events| - 1].id + 1;
      events := events + [Event(nextId, name, data)];
    }

    method Finish()
      modifies this`done
      ensures State() == old(State()).(done := true)
    {
      done := true;
    }

    method ExpireIfStale(now: int)
      modifies this`events, this`done
      ensures State() == Expired(old(State()), now)
    {
      if done || now - createdAt <= TIMEOUT_SECONDS {
        return;
      }
      Append("error", EXPIRED);
      done := true;
    }

    method Read(after: int) returns (answer: Answer)
      ensures answer == Answer(done, Newer(events, after))
    {
      var newer := [];
      for i := 0 to |events|
        invariant newer == Newer(events[..i], after)
      {
        assert events[..i + 1][..i] == events[..i];
        if events[i].id <= after {
          continue;
        }
        newer := newer + [events[i]];
      }
      assert events[..|events|] == events;
      answer := Answer(done, newer);
    }
  }

  datatype Answer = Answer(done: bool, events: seq<Event>)

  // ---- The browser --------------------------------------------------------------

  /** What the page's polling loop holds; `received` is every event it has handled, in order. */
  datatype Client = Client(cursor: int, received: seq<Event>, ended: bool, inFlight: Option<Answer>)

  const NEW_CLIENT := Client(0, [], false, None)

  /** The loop over one answer: an error throws out of it, a done event does not. */
  function Handle(c: Client, events: seq<Event>): Client
    decreases |events|
  {
    if events == [] then c
    else
      var e := events[0];
      var c1 := c.(cursor := if e.id > c.cursor then e.id else c.cursor, received := c.received + [e]);
      if e.name == "error" then c1.(ended := true)
      else Handle(c1.(ended := c1.ended || e.name == "done"), events[1..])
  }

  /** One answer taken in: the loop over its events, then its done flag. */
  function Absorb(c: Client, answer: Answer): Client {
    var c1 := Handle(c.(inFlight := None), answer.events);
    c1.(ended := c1.ended || answer.done)
  }

  // ---- The system -----------------------------------------------------------------

  datatype Phase = Working | Settled | Returned

  datatype System = System(log: Log, phase: Phase, clients: map<nat, Client>, clock: int)

  datatype Step =
    | Forward(name: string, data: string)
    | Conclude(ok: bool, data: string)
    | Finish
    | Expire
    | Ask(client: nat)
    | Deliver(client: nat)
    | Lose(client: nat)
    | Tick(now: int)

  predicate Enabled(s: System, step: Step) {
    match step
    case Forward(name, _) => s.phase == Working && name != "done"
    case Conclude(_, _) => s.phase == Working
    case Finish => s.phase == Settled
    case Expire => true
    case Ask(c) => c in s.clients && !s.clients[c].ended && s.clients[c].inFlight.None?
    case Deliver(c) => c in s.clients && !s.clients[c].ended && s.clients[c].inFlight.Some?
    case Lose(c) => c in s.clients && !s.clients[c].ended && s.clients[c].inFlight.Some?
    case Tick(now) => now >= s.clock
  }

  function Next(s: System, step: Step): System
    requires Enabled(s, step)
  {
    match step
    case Forward(name, data) => s.(log := Appended(s.log, name, data))
    case Conclude(ok, data) => s.(log := Appended(s.log, if ok then "done" else "error", data), phase := Settled)
    case Finish => s.(log := s.log.(done := true), phase := Returned)
    case Expire => s.(log := Expired(s.log, s.clock))
    case Ask(c) =>
      var client := s.clients[c];
      s.(clients := s.clients[c := client.(inFlight := Some(Answer(s.log.done, Newer(s.log.events, client.cursor))))])
    case Deliver(c) => s.(clients := s.clients[c := Absorb(s.clients[c], s.clients[c].inFlight.value)])
    case Lose(c) => s.(clients := s.clients[c := s.clients[c].(inFlight := None, ended := true)])
    case Tick(now) => s.(clock := now)
  }

  /** A job just created: the queued status is its first event. */
  predicate Initial(s: System) {
    && s.log == Appended(Log([], false, s.clock), "status", "queued")
    && s.phase == Working
    && (forall c | c in s.clients :: s.clients[c] == NEW_CLIENT)
  }

  // ---- The invariant -----------------------------------------------------------------

  predicate Numbered(events: seq<Event>) {
    forall i | 0 <= i < |events| :: events[i].id == i + 1
  }

  predicate LogInv(s: System) {
    && Numbered(s.log.events)
    && (s.log.done || s.phase != Working ==> Concluded(s.log.events))
    && (s.phase == Returned ==> s.log.done)
  }

  /** The client holds a prefix of the log; an answer under way continues it, and says done only with a conclusion. */
  predicate Follows(c: Client, events: seq<Event>) {
    && c.received <= events && c.cursor == |c.received|
    && (!c.ended ==> !Concluded(c.received))
    && (c.inFlight.Some? ==>
          && c.received + c.inFlight.value.events <= events
          && (c.inFlight.value.done ==> Concluded(c.received + c.inFlight.value.events)))
  }

  predicate Inv(s: System) {
    LogInv(s) && forall c | c in s.clients :: Follows(s.clients[c], s.log.events)
  }

  lemma {:induction false} NewerIsSuffix(events: seq<Event>, after: nat)
    requires Numbered(events) && after <= |events|
    ensures Newer(events, after) == events[after..]
  {
    if events != [] {
      var n := |events| - 1;
      if after <= n {
        NewerIsSuffix(events[..n], after);
        assert events[after..] == events[..n][after..] + [events[n]];
      } else {
        NewerIsNothing(events, after);
      }
    }
  }

  lemma {:induction false} NewerIsNothing(events: seq<Event>, after: nat)
    requires forall i | 0 <= i < |events| :: events[i].id <= after
    ensures Newer(events, after) == []
  {
    if events != [] {
      NewerIsNothing(events[..|events| - 1], after);
    }
  }

  lemma ConcludedMore(events: seq<Event>, more: seq<Event>)
    ensures Concluded(events + more) <==> Concluded(events) || Concluded(more)
  {
    var all := events + more;
    if i :| 0 <= i < |events| && Concludes(events[i]) {
      assert Concludes(all[i]);
    }
    if i :| 0 <= i < |more| && Concludes(more[i]) {
      assert Concludes(all[|events| + i]);
    }
    if i :| 0 <= i < |all| && Concludes(all[i]) {
      assert if i < |events| then Concludes(events[i]) else Concludes(more[i - |events|]);
    }
  }

  /** What the loop over one answer owes: a prefix of the log, and an end exactly at a conclusion. */
  predicate Handled(c: Client, r: Client, events: seq<Event>, log: seq<Event>) {
    && c.received <= r.received <= log && r.cursor == |r.received| && r.inFlight == c.inFlight
    && (r.ended <==> c.ended || Concluded(events))
    && (Concluded(events) ==> Concluded(r.received))
    && (r.received == c.received + events
        || (Concluded(events) && r.received != [] && r.received[|r.received| - 1].name == "error"))
  }

  lemma ConcludedOne(e: Event)
    ensures Concluded([e]) <==> Concludes(e)
  {
    assert [e][0] == e;
  }

  lemma ConcludedPrefix(events: seq<Event>, more: seq<Event>)
    requires events <= more && Concluded(events)
    ensures Concluded(more)
  {
    ConcludedMore(events, more[|events|..]);
    assert more == events + more[|events|..];
  }

  /** One event handled, and the rest handled after it. */
  lemma HandledMore(c: Client, e: Event, r: Client, rest: seq<Event>, log: seq<Event>)
    requires Handled(c.(cursor := e.id, received := c.received + [e], ended := c.ended || Concludes(e)), r, rest, log)
    ensures Handled(c, r, [e] + rest, log)
  {
    var received := c.received + [e];
    ConcludedMore([e], rest);
    ConcludedOne(e);
    ConcludedMore(c.received, [e]);
    if Concludes(e) {
      hide Concluded, Concludes;
      ConcludedPrefix(received, r.received);
    }
    hide Concluded, Concludes;
    assert c.received <= received;
    assert c.received + ([e] + rest) == received + rest;
  }

  lemma {:induction false} HandleFollows(c: Client, events: seq<Event>, log: seq<Event>)
    requires Numbered(log) && c.cursor == |c.received| && c.received + events <= log
    ensures Handled(c, Handle(c, events), events, log)
    decreases |events|
  {
    if events != [] {
      var e, rest := events[0], events[1..];
      assert events == [e] + rest && e == log[|c.received|] && e.id == |c.received| + 1;
      var c1 := c.(cursor := e.id, received := c.received + [e], ended := c.ended || Concludes(e));
      assert c1.received + rest == c.received + events;
      var r := Handle(c, events);
      if e.name == "error" {
        ConcludedMore(c.received, [e]);
        ConcludedMore([e], rest);
        ConcludedOne(e);
        assert r == c1;
      } else {
        assert r == Handle(c1, rest);
        hide Handle, Handled, Concluded, Concludes;
        HandleFollows(c1, rest, log);
        HandledMore(c, e, r, rest, log);
      }
    } else {
      assert c.received + events == c.received;
    }
  }

  lemma AppendInv(s: System, name: string, data: string)
    requires Inv(s)
    ensures var log := Appended(s.log, name, data);
            Numbered(log.events) && s.log.events <= log.events
            && (Concluded(s.log.events) || name == "done" || name == "error" ==> Concluded(log.events))
  {
    var e := Event(NextId(s.log.events), name, data);
    ConcludedMore(s.log.events, [e]);
    assert Concludes([e][0]) ==> Concluded([e]);
  }

  /** Clients are not disturbed when the log grows. */
  lemma GrowthKeepsFollowers(s: System, s': System)
    requires Inv(s) && s'.clients == s.clients && s.log.events <= s'.log.events
    ensures forall c | c in s'.clients :: Follows(s'.clients[c], s'.log.events)
  {
    forall c | c in s'.clients ensures Follows(s'.clients[c], s'.log.events) {
      assert Follows(s.clients[c], s.log.events);
    }
  }

  lemma AskInv(s: System, c: nat)
    requires Inv(s) && Enabled(s, Ask(c))
    ensures var client := Next(s, Ask(c)).clients[c];
            && Follows(client, s.log.events)
            && client.received + client.inFlight.value.events == s.log.events
  {
    var client := s.clients[c];
    assert Follows(client, s.log.events);
    NewerIsSuffix(s.log.events, client.cursor);
    assert client.received + s.log.events[client.cursor..] == s.log.events;
  }

  lemma DeliverInv(s: System, c: nat)
    requires Inv(s) && Enabled(s, Deliver(c))
    ensures var was, now := s.clients[c], Next(s, Deliver(c)).clients[c];
            && Follows(now, s.log.events)
            && (now.ended <==> Concluded(now.received))
            && was.received <= now.received
            && (was.inFlight.value.done ==> now.ended)
  {
    var was := s.clients[c];
    var answer := was.inFlight.value;
    assert Follows(was, s.log.events);
    HandleFollows(was.(inFlight := None), answer.events, s.log.events);
    ConcludedMore(was.received, answer.events);
  }

  lemma StepInv(s: System, step: Step)
    requires Inv(s) && Enabled(s, step)
    ensures Inv(Next(s, step))
  {
    var s' := Next(s, step);
    match step
    case Forward(name, data) =>
      AppendInv(s, name, data);
      GrowthKeepsFollowers(s, s');
    case Conclude(ok, data) =>
      AppendInv(s, if ok then "done" else "error", data);
      GrowthKeepsFollowers(s, s');
    case Expire =>
      AppendInv(s, "error", EXPIRED);
      GrowthKeepsFollowers(s, s');
    case Finish =>
    case Ask(c) => AskInv(s, c);
    case Deliver(c) => DeliverInv(s, c);
    case Lose(c) => assert Follows(s.clients[c], s.log.events);
    case Tick(_) =>
  }

  // ---- Runs -------------------------------------------------------------------------------

  predicate IsRun(s: System, steps: seq<Step>)
    decreases |steps|
  {
    steps == [] || (Enabled(s, steps[0]) && IsRun(Next(s, steps[0]), steps[1..]))
  }

  function After(s: System, steps: seq<Step>): System
    requires IsRun(s, steps)
    decreases |steps|
  {
    if steps == [] then s else After(Next(s, steps[0]), steps[1..])
  }

  /** In every run ids count from one and each client holds a duplicate-free prefix of the log. */
  lemma {:induction false} RunInv(s: System, steps: seq<Step>)
    requires Initial(s) || Inv(s)
    requires IsRun(s, steps)
    ensures Inv(After(s, steps))
    decreases |steps|
  {
    if Initial(s) {
      assert Inv(s);
    }
    hide Initial, Next, Enabled;
    if steps != [] {
      StepInv(s, steps[0]);
      RunInv(Next(s, steps[0]), steps[1..]);
    }
  }

  lemma PrefixHasNoDuplicates(s: System, c: nat)
    requires Inv(s) && c in s.clients
    ensures var received := s.clients[c].received;
            forall i, j | 0 <= i < j < |received| :: received[i].id < received[j].id
  {
    assert Follows(s.clients[c], s.log.events);
  }

  /** An answer that says done brings the client everything logged so far, a conclusion included. */
  lemma DoneAnswerIsComplete(s: System, c: nat)
    requires Inv(s) && Enabled(s, Ask(c)) && s.log.done
    ensures var client := Next(s, Ask(c)).clients[c];
            && client.inFlight.value.done
            && client.received + client.inFlight.value.events == s.log.events
            && Concluded(client.inFlight.value.events)
  {
    AskInv(s, c);
    var client := Next(s, Ask(c)).clients[c];
    assert Follows(s.clients[c], s.log.events);
    ConcludedMore(client.received, client.inFlight.value.events);
  }

  /** The log is final: the job is marked done and its worker has appended its last event. */
  predicate Final(s: System) {
    s.log.done && s.phase != Working
  }

  lemma FinalStaysFinal(s: System, step: Step)
    requires Final(s) && Enabled(s, step)
    ensures Final(Next(s, step)) && Next(s, step).log.events == s.log.events
  {
  }

  lemma {:induction false} FinalRun(s: System, steps: seq<Step>)
    requires Final(s) && IsRun(s, steps)
    ensures After(s, steps).log.events == s.log.events
    decreases |steps|
  {
    hide Next, Enabled, Final;
    if steps != [] {
      FinalStaysFinal(s, steps[0]);
      FinalRun(Next(s, steps[0]), steps[1..]);
    }
  }

  /** What is still to come in a log that is not final: the worker's last event, or the expiry. */
  lemma GrowingRun(s: System) returns (steps: seq<Step>)
    requires Inv(s) && !Final(s)
    ensures IsRun(s, steps) && After(s, steps).log.events != s.log.events
  {
    if s.phase == Working {
      steps := [Conclude(true, "")];
      assert steps[1..] == [];
      assert |After(s, steps).log.events| == |s.log.events| + 1;
    } else {
      var late := if s.clock > s.log.createdAt then s.clock + 241 else s.log.createdAt + 241;
      steps := [Tick(late), Expire];
      assert steps[1..] == [Expire] && steps[1..][1..] == [];
      var s1 := Next(s, Tick(late));
      var s2 := Next(s1, Expire);
      assert Stale(s1.log, late) && |s2.log.events| == |s.log.events| + 1;
      hide Next;
      assert After(s2, []) == s2;
      assert After(s1, [Expire]) == s2;
    }
  }

  /** No run changes the log any more exactly when the job is done and its worker has appended its last event. */
  lemma FrozenExactly(s: System)
    requires Inv(s)
    ensures (forall steps | IsRun(s, steps) :: After(s, steps).log.events == s.log.events) <==> Final(s)
  {
    hide Inv, Final, IsRun, After;
    if Final(s) {
      forall steps | IsRun(s, steps) ensures After(s, steps).log.events == s.log.events {
        FinalRun(s, steps);
      }
    } else {
      var steps := GrowingRun(s);
    }
  }

  /** All that a client that has ended can have missed of these events lies behind its first error. */
  predicate HasAll(c: Client, events: seq<Event>) {
    c.received == events
    || (c.received <= events && c.received != [] && c.received[|c.received| - 1].name == "error")
  }

  /** A poll answered once a done or error event is logged ends the client, with all that is logged. */
  lemma PollAfterConclusionEnds(s: System, c: nat)
    requires Inv(s) && Concluded(s.log.events) && Enabled(s, Ask(c))
    ensures Enabled(Next(s, Ask(c)), Deliver(c))
    ensures var client := Next(Next(s, Ask(c)), Deliver(c)).clients[c];
            client.ended && HasAll(client, s.log.events)
  {
    AskInv(s, c);
    var s1 := Next(s, Ask(c));
    var was := s1.clients[c];
    assert Follows(s.clients[c], s.log.events);
    ConcludedMore(was.received, was.inFlight.value.events);
    HandleFollows(was.(inFlight := None), was.inFlight.value.events, s.log.events);
  }

  /** What it then holds is all there will ever be, whatever happens, exactly when the log was final. */
  lemma PollOfFinalLog(s: System, c: nat)
    requires Inv(s) && Concluded(s.log.events) && Enabled(s, Ask(c))
    ensures Enabled(Next(s, Ask(c)), Deliver(c))
    ensures var s2 := Next(Next(s, Ask(c)), Deliver(c));
            && s2.clients[c].ended
            && ((forall steps | IsRun(s2, steps) :: HasAll(s2.clients[c], After(s2, steps).log.events)
                                                    && After(s2, steps).log.events == s.log.events) <==> Final(s))
  {
    PollAfterConclusionEnds(s, c);
    StepInv(s, Ask(c));
    var s1 := Next(s, Ask(c));
    StepInv(s1, Deliver(c));
    var s2 := Next(s1, Deliver(c));
    assert s2.log == s.log && s2.phase == s.phase;
    FrozenExactly(s2);
  }

  const QUEUED := Event(1, "status", "queued")
  const TIMED_OUT := Event(2, "error", EXPIRED)

  /** A job just created with one client; five steps later the client has ended and the answer is logged. */
  const FRESH := System(Log([QUEUED], false, 0), Working, map[0 := NEW_CLIENT], 0)

  function OutlivingRun(answer: string): seq<Step> {
    [Tick(241), Expire, Ask(0), Deliver(0), Conclude(true, answer)]
  }

  function Outlived(answer: string): System {
    System(
      Log([QUEUED, TIMED_OUT, Event(3, "done", answer)], true, 0), Settled,
      map[0 := Client(2, [QUEUED, TIMED_OUT], true, None)], 241)
  }

  lemma RunCons(s: System, step: Step, rest: seq<Step>)
    requires Enabled(s, step) && IsRun(Next(s, step), rest)
    ensures IsRun(s, [step] + rest) && After(s, [step] + rest) == After(Next(s, step), rest)
  {
    assert ([step] + rest)[1..] == rest;
  }

  /** A job that is still running is stopped by the first look at it more than four minutes after its creation. */
  lemma StoppedAfterFourMinutes(s: System, moment: int)
    requires Initial(s) && moment >= s.clock
    ensures IsRun(s, [Tick(moment), Expire])
    ensures var log := After(s, [Tick(moment), Expire]).log;
            if moment - s.clock <= 4 * 60 then log == s.log
            else log.done && log.events == s.log.events + [Event(2, "error", EXPIRED)]
  {
    var ticked := Next(s, Tick(moment));
    assert IsRun(Next(ticked, Expire), []);
    RunCons(ticked, Expire, []);
    RunCons(s, Tick(moment), [Expire]);
    assert [Expire] + [] == [Expire] && [Tick(moment)] + [Expire] == [Tick(moment), Expire];
  }

  lemma ExpiredAnswerEnds()
    ensures Newer([QUEUED, TIMED_OUT], 0) == [QUEUED, TIMED_OUT]
    ensures Absorb(NEW_CLIENT, Answer(true, [QUEUED, TIMED_OUT])) == Client(2, [QUEUED, TIMED_OUT], true, None)
  {
    NewerIsSuffix([QUEUED, TIMED_OUT], 0);
    assert [QUEUED, TIMED_OUT][0..] == [QUEUED, TIMED_OUT];
    assert [QUEUED, TIMED_OUT][1..] == [TIMED_OUT];
    assert [] + [QUEUED] == [QUEUED] && [QUEUED] + [TIMED_OUT] == [QUEUED, TIMED_OUT];
    assert |"status"| == 6 && |"error"| == 5 && |"done"| == 4;
    var first := Client(1, [QUEUED], false, None);
    assert Handle(first, [TIMED_OUT]) == Client(2, [QUEUED, TIMED_OUT], true, None);
    assert Handle(NEW_CLIENT, [QUEUED, TIMED_OUT]) == Handle(first, [TIMED_OUT]);
  }

  /**
   * Expiry is not the end of the log: a worker that outlives it still appends its answer, and a client
   * that was told done never sees it.
   */
  lemma AppendAfterExpiry(answer: string)
    ensures Initial(FRESH) && IsRun(FRESH, OutlivingRun(answer))
    ensures After(FRESH, OutlivingRun(answer)) == Outlived(answer)
  {
    assert FRESH.log == Appended(Log([], false, 0), "status", "queued");
    var last := Conclude(true, answer);
    OutlivingSteps(answer);
    hide Next, Absorb, Newer, Appended, Initial, Enabled;
    RunCons(ANSWERED, last, []);
    RunCons(ASKED, Deliver(0), [last]);
    RunCons(EXPIRED_JOB, Ask(0), [Deliver(0), last]);
    RunCons(LATE, Expire, [Ask(0), Deliver(0), last]);
    RunCons(FRESH, Tick(241), [Expire, Ask(0), Deliver(0), last]);
    assert [last] + [] == [last];
    assert [Deliver(0)] + [last] == [Deliver(0), last];
    assert [Ask(0)] + [Deliver(0), last] == [Ask(0), Deliver(0), last];
    assert [Expire] + [Ask(0), Deliver(0), last] == [Expire, Ask(0), Deliver(0), last];
    assert [Tick(241)] + [Expire, Ask(0), Deliver(0), last] == OutlivingRun(answer);
  }

  const LATE := FRESH.(clock := 241)
  const EXPIRED_JOB := LATE.(log := Log([QUEUED, TIMED_OUT], true, 0))
  const ASKED := EXPIRED_JOB.(clients := map[0 := NEW_CLIENT.(inFlight := Some(Answer(true, [QUEUED, TIMED_OUT])))])
  const ANSWERED := EXPIRED_JOB.(clients := map[0 := Client(2, [QUEUED, TIMED_OUT], true, None)])

  lemma OutlivingSteps(answer: string)
    ensures Enabled(FRESH, Tick(241)) && Next(FRESH, Tick(241)) == LATE
    ensures Enabled(LATE, Expire) && Next(LATE, Expire) == EXPIRED_JOB
    ensures Enabled(EXPIRED_JOB, Ask(0)) && Next(EXPIRED_JOB, Ask(0)) == ASKED
    ensures Enabled(ASKED, Deliver(0)) && Next(ASKED, Deliver(0)) == ANSWERED
    ensures Enabled(ANSWERED, Conclude(true, answer)) && Next(ANSWERED, Conclude(true, answer)) == Outlived(answer)
  {
    ExpiredAnswerEnds();
    hide Newer, Handle;
    assert [QUEUED] + [TIMED_OUT] == [QUEUED, TIMED_OUT];
    assert LATE.clients[0] == NEW_CLIENT;
    assert map[0 := NEW_CLIENT][0 := ASKED.clients[0]] == ASKED.clients;
    assert ASKED.clients[0 := ANSWERED.clients[0]] == ANSWERED.clients;
    assert NextId(ANSWERED.log.events) == 3;
    assert [QUEUED, TIMED_OUT] + [Event(3, "done", answer)] == [QUEUED, TIMED_OUT, Event(3, "done", answer)];
  }

  // ---- An ordinary conversation ---------------------------------------------------

  function Conversation(name: string, data: string, answer: string): seq<Step> {
    [Forward(name, data), Conclude(true, answer), Finish, Ask(0), Deliver(0)]
  }

  function Log3(name: string, data: string, answer: string): seq<Event> {
    [QUEUED, Event(2, name, data), Event(3, "done", answer)]
  }

  lemma ConversationSteps(name: string, data: string, answer: string)
    requires name != "done" && name != "error"
    ensures var log := Log3(name, data, answer);
            var s1 := FRESH.(log := Log([QUEUED, Event(2, name, data)], false, 0));
            var s2 := FRESH.(log := Log(log, false, 0), phase := Settled);
            && Enabled(FRESH, Forward(name, data)) && Next(FRESH, Forward(name, data)) == s1
            && Enabled(s1, Conclude(true, answer)) && Next(s1, Conclude(true, answer)) == s2
            && Enabled(s2, Finish) && Next(s2, Finish) == s2.(log := Log(log, true, 0), phase := Returned)
  {
    assert [QUEUED] + [Event(2, name, data)] == [QUEUED, Event(2, name, data)];
    assert [QUEUED, Event(2, name, data)] + [Event(3, "done", answer)] == Log3(name, data, answer);
  }

  lemma ConversationAnswer(name: string, data: string, answer: string)
    requires name != "done" && name != "error"
    ensures var log := Log3(name, data, answer);
            Newer(log, 0) == log && Absorb(NEW_CLIENT, Answer(true, log)) == Client(3, log, true, None)
  {
    var log := Log3(name, data, answer);
    NewerIsSuffix(log, 0);
    assert log[0..] == log && log[1..] == [log[1], log[2]] && log[1..][1..] == [log[2]];
    assert [] + [QUEUED] == [QUEUED] && [QUEUED] + [log[1]] == [QUEUED, log[1]] && [QUEUED, log[1]] + [log[2]] == log;
    assert |"status"| == 6 && |"error"| == 5 && |"done"| == 4;
    assert Handle(Client(2, [QUEUED, log[1]], false, None), [log[2]]) == Client(3, log, true, None);
    assert Handle(Client(1, [QUEUED], false, None), [log[1], log[2]]) == Client(3, log, true, None);
  }

  /** What the worker forwards and concludes with reaches a client that asks afterwards, whole and in order. */
  lemma ConversationArrives(name: string, data: string, answer: string)
    requires name != "done" && name != "error"
    ensures IsRun(FRESH, Conversation(name, data, answer))
    ensures After(FRESH, Conversation(name, data, answer)) ==
            System(Log(Log3(name, data, answer), true, 0), Returned, map[0 := Client(3, Log3(name, data, answer), true, None)], 0)
  {
    var log := Log3(name, data, answer);
    ConversationSteps(name, data, answer);
    ConversationAnswer(name, data, answer);
    var s1 := FRESH.(log := Log([QUEUED, Event(2, name, data)], false, 0));
    var s2 := FRESH.(log := Log(log, false, 0), phase := Settled);
    var s3 := s2.(log := Log(log, true, 0), phase := Returned);
    AskAndDeliver(s3, log);
    hide Next, Enabled, Absorb, Newer, Log3;
    RunCons(s2, Finish, [Ask(0), Deliver(0)]);
    RunCons(s1, Conclude(true, answer), [Finish, Ask(0), Deliver(0)]);
    RunCons(FRESH, Forward(name, data), [Conclude(true, answer), Finish, Ask(0), Deliver(0)]);
    assert [Finish] + [Ask(0), Deliver(0)] == [Finish, Ask(0), Deliver(0)];
    assert [Conclude(true, answer)] + [Finish, Ask(0), Deliver(0)] == [Conclude(true, answer), Finish, Ask(0), Deliver(0)];
    assert [Forward(name, data)] + [Conclude(true, answer), Finish, Ask(0), Deliver(0)] == Conversation(name, data, answer);
  }

  lemma AskAndDeliver(s: System, log: seq<Event>)
    requires s.clients == map[0 := NEW_CLIENT] && s.log.events == log && s.log.done && Newer(log, 0) == log
    ensures IsRun(s, [Ask(0), Deliver(0)])
    ensures After(s, [Ask(0), Deliver(0)]) == s.(clients := map[0 := Absorb(NEW_CLIENT, Answer(true, log))])
  {
    var asked := Next(s, Ask(0));
    assert asked == s.(clients := map[0 := NEW_CLIENT.(inFlight := Some(Answer(true, log)))]);
    AbsorbsAnswer(NEW_CLIENT, Answer(true, log));
    assert Next(asked, Deliver(0)) == s.(clients := map[0 := Absorb(NEW_CLIENT, Answer(true, log))]);
    assert IsRun(Next(asked, Deliver(0)), []);
    hide Next, Enabled, Absorb;
    RunCons(asked, Deliver(0), []);
    RunCons(s, Ask(0), [Deliver(0)]);
    assert [Deliver(0)] + [] == [Deliver(0)] && [Ask(0)] + [Deliver(0)] == [Ask(0), Deliver(0)];
  }

  lemma AbsorbsAnswer(c: Client, answer: Answer)
    ensures Absorb(c.(inFlight := Some(answer)), answer) == Absorb(c, answer)
  {
  }

  /** A client that has ended is never touched again. */
  lemma {:induction false} EndedStays(s: System, steps: seq<Step>, c: nat)
    requires c in s.clients && s.clients[c].ended && IsRun(s, steps)
    ensures c in After(s, steps).clients && After(s, steps).clients[c] == s.clients[c]
    decreases |steps|
  {
    if steps != [] {
      EndedStays(Next(s, steps[0]), steps[1..], c);
    }
  }

  /** A poll that fails ends the client with what it had, for good. */
  lemma LostPollEnds(s: System, c: nat, steps: seq<Step>)
    requires Enabled(s, Lose(c)) && IsRun(Next(s, Lose(c)), steps)
    ensures var end := After(Next(s, Lose(c)), steps);
            && c in end.clients && end.clients[c].ended && end.clients[c].inFlight.None?
            && end.clients[c].received == s.clients[c].received
  {
    EndedStays(Next(s, Lose(c)), steps, c);
  }
}
