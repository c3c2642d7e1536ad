/** The dispatcher process as it is written: its vector of pending tasks, updated in place. */
module Dispatcher {
  import opened Text
  import opened JudgeProtocol
  import opened JudgeRuns

  /** The collecting loop from position `i` on; `faults` are the failures met for each delivery tag. */
  function CollectFrom(w: World, i: nat, faults: nat -> Faults, cfg: Config): World
    decreases |w.pending| - i
  {
    if i >= |w.pending| then w
    else if w.pending[i].future.Working? then CollectFrom(w, i + 1, faults, cfg)
    else CollectFrom(CollectOne(w, i, faults(w.pending[i].tag), cfg), i, faults, cfg)
  }

  class Process {
    /** The database and the broker. */
    var env: World
    var pending: seq<Pending>

    ghost function State(): World
      reads this
    {
      env.(pending := pending)
    }

    method UpdateSubmission(sid: Sid, r: Record, save: Save) returns (ok: bool)
      modifies this`env
      ensures env == Write(old(env), sid, r, save) && ok == (save.Saved? && sid in old(env).db)
    {
      if sid in env.db && !save.Unsaved? {
        env := env.(db := env.db[sid := r]);
      }
      ok := save.Saved? && sid in env.db;
    }

    method MarkUnlessTerminal(sid: Sid, r: Record, f: Faults) returns (ok: bool)
      modifies this`env
      ensures (env, ok) == Mark(old(env), sid, r, f)
    {
      if !f.loads || sid !in env.db {
        return false;
      }
      if Terminal(env.db[sid].status) {
        return true;
      }
      ok := UpdateSubmission(sid, r, f.save);
    }

    method PublishTo(body: Body, place: Place, f: Faults) returns (ok: bool)
      modifies this`env
      ensures ok == (old(env).connected && !f.sending.Unsent?)
      ensures env == if ok then Send(old(env), body, place, f.sending) else old(env)
    {
      ok := env.connected && !f.sending.Unsent?;
      if ok {
        env := env.(broker := env.broker[env.next := Message(body, place)], next := env.next + 1);
        if f.sending.SentThenLost? {
          env := env.(connected := false);
        }
      }
    }

    /** The branch for a temporary failure; false when any call in it throws. */
    method RerouteTask(task: Task, f: Faults, cfg: Config) returns (ok: bool)
      modifies this`env
      ensures (env, ok) == Reroute(old(env), task, f, cfg)
    {
      var again := task.(retry := task.retry + 1);
      if again.retry > cfg.maxRetry {
        ok := MarkUnlessTerminal(task.sid, SYSTEM_ERROR, f);
        if ok {
          ok := PublishTo(Good(again), Dead, f);
        }
      } else {
        ok := MarkUnlessTerminal(task.sid, Record(Queued, false), f);
        if ok {
          ok := PublishTo(Good(again), Retry, f);
        }
      }
    }

    method FinalizeEntry(p: Pending, f: Faults, cfg: Config)
      modifies this`env
      ensures env == Finalize(old(env), p, f, cfg)
    {
      var ok := false;
      match p.future {
        case Result(record) => ok := UpdateSubmission(p.task.sid, record, f.save);
        case Temporary(_) => ok := RerouteTask(p.task, f, cfg);
        case _ =>
      }
      env := if ok then Ack(env, p.tag) else NackRequeue(env, p.tag);
    }

    /** collect_finished_tasks: settles every ready entry and erases it while iterating. */
    method CollectFinishedTasks(faults: nat -> Faults, cfg: Config)
      modifies this
      ensures State() == CollectFrom(old(State()), 0, faults, cfg)
    {
      hide Finalize;
      var i := 0;
      while i < |pending|
        invariant CollectFrom(State(), i, faults, cfg) == CollectFrom(old(State()), 0, faults, cfg)
        decreases |pending| - i
      {
        var p := pending[i];
        if p.future.Working? {
          i := i + 1;
          continue;
        }
        ghost var before := State();
        FinalizeIgnoresPending(env, p, faults(p.tag), cfg, pending);
        FinalizeIgnoresPending(env, p, faults(p.tag), cfg, Without(pending, i));
        FinalizeEntry(p, faults(p.tag), cfg);
        pending := pending[..i] + pending[i + 1..];
        assert State() == CollectOne(before, i, faults(p.tag), cfg);
      }
    }

    /** dispatch_task; false when it throws. */
    method Dispatch(tag: nat, task: Task, f: DeliveryFaults) returns (ok: bool)
      modifies this
      ensures (State(), ok) == DispatchTask(old(State()), tag, task, f)
    {
      if !f.reloads || task.sid !in env.db {
        return false;
      }
      if Terminal(env.db[task.sid].status) {
        return true;
      }
      ok := UpdateSubmission(task.sid, Record(Running, false), f.save);
      if !ok || !f.async {
        return false;
      }
      var tried := if task.sid in env.attempts then env.attempts[task.sid] else 0;
      env := env.(attempts := env.attempts[task.sid := tried + 1]);
      pending := pending + [Pending(task, tag, Working)];
    }

    method RescueDelivery(tag: nat, body: Body, f: Faults)
      modifies this`env
      ensures env == Rescue(old(env), tag, body, f)
    {
      if body.Good? {
        var _ := MarkUnlessTerminal(body.task.sid, SYSTEM_ERROR, f);
      }
      var kept := true;
      if body != Bad(true) {
        kept := PublishTo(body, Dead, f);
      }
      env := if kept then Ack(env, tag) else NackRequeue(env, tag);
    }

    /** The body of the main loop for one delivery. */
    method Handle(tag: nat, body: Body, f: DeliveryFaults)
      modifies this
      ensures State() == HandleDelivery(old(State()), tag, body, f)
    {
      hide Rescue, Ack;
      var failed := body.Bad? || !f.loads || body.task.sid !in env.db;
      if !failed {
        if Terminal(env.db[body.task.sid].status) {
          AckIgnoresPending(env, tag, pending);
          env := Ack(env, tag);
          return;
        }
        var ok := Dispatch(tag, body.task, f);
        failed := !ok;
      }
      if failed {
        RescueIgnoresPending(env, tag, body, f.rescue, pending);
        RescueDelivery(tag, body, f.rescue);
      }
    }
  }

  lemma AckIgnoresPending(w: World, tag: nat, ps: seq<Pending>)
    ensures Ack(w.(pending := ps), tag) == Ack(w, tag).(pending := ps)
  {
  }

  lemma RescueIgnoresPending(w: World, tag: nat, body: Body, f: Faults, ps: seq<Pending>)
    ensures Rescue(w.(pending := ps), tag, body, f) == Rescue(w, tag, body, f).(pending := ps)
  {
    hide Ack, NackRequeue;
    var marked := if body.Good? then Mark(w, body.task.sid, SYSTEM_ERROR, f).0 else w;
    var twin := if body.Good? then Mark(w.(pending := ps), body.task.sid, SYSTEM_ERROR, f).0 else w.(pending := ps);
    assert twin == marked.(pending := ps);
    AckIgnoresPending(marked, tag, ps);
    AckIgnoresPending(Send(marked, body, Dead, f.sending), tag, ps);
    NackIgnoresPending(marked, tag, ps);
  }

  lemma NackIgnoresPending(w: World, tag: nat, ps: seq<Pending>)
    ensures NackRequeue(w.(pending := ps), tag) == NackRequeue(w, tag).(pending := ps)
  {
  }

  // ---- The loop as a run --------------------------------------------------

  /** The steps that one pass of the loop takes. */
  ghost function CollectSteps(w: World, i: nat, faults: nat -> Faults, cfg: Config): seq<Step>
    decreases |w.pending| - i
  {
    if i >= |w.pending| then []
    else if w.pending[i].future.Working? then CollectSteps(w, i + 1, faults, cfg)
    else
      var f := faults(w.pending[i].tag);
      [Collect(i, f)] + CollectSteps(CollectOne(w, i, f, cfg), i, faults, cfg)
  }

  /**
   * One pass is a run of single steps, so everything proved about runs holds of it; and it leaves
   * no entry behind whose future was ready.
   */
  lemma {:induction false} PassIsRun(w: World, i: nat, faults: nat -> Faults, cfg: Config)
    ensures var steps := CollectSteps(w, i, faults, cfg);
            && IsRun(w, steps, cfg) && AllHarmless(w, steps, cfg)
            && After(w, steps, cfg) == CollectFrom(w, i, faults, cfg)
    ensures var ps := CollectFrom(w, i, faults, cfg).pending;
            && (forall k | i <= k < |ps| :: ps[k].future.Working?)
            && (i <= |w.pending| ==> i <= |ps| && ps[..i] == w.pending[..i])
    decreases |w.pending| - i
  {
    hide Finalize;
    if i < |w.pending| {
      if w.pending[i].future.Working? {
        PassIsRun(w, i + 1, faults, cfg);
        var ps := CollectFrom(w, i + 1, faults, cfg).pending;
        assert ps[..i + 1][i] == ps[i] && ps[..i] == ps[..i + 1][..i];
      } else {
        var f := faults(w.pending[i].tag);
        PassIsRun(CollectOne(w, i, f, cfg), i, faults, cfg);
        var steps := CollectSteps(w, i, faults, cfg);
        assert steps[0] == Collect(i, f) && steps[1..] == CollectSteps(CollectOne(w, i, f, cfg), i, faults, cfg);
      }
    }
  }

  /** A whole pass of collect_finished_tasks keeps the invariant of the protocol. */
  lemma PassKeepsInv(w: World, faults: nat -> Faults, cfg: Config)
    requires Inv(w, cfg)
    ensures var w' := CollectFrom(w, 0, faults, cfg);
            Inv(w', cfg) && forall p | p in w'.pending :: p.future.Working?
  {
    PassIsRun(w, 0, faults, cfg);
    hide Inv;
    RunInv(w, CollectSteps(w, 0, faults, cfg), cfg);
  }
}
