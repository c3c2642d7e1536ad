/** At-least-once delivery at work: a lost acknowledgement leaves two messages of one submission. */
module JudgeDuplicates {
  import opened Text
  import opened JudgeProtocol
  import opened JudgeRuns

  const TIMED_OUT := "timed out"
  const RETRIED := Task("s", 1)
  const ACK_LOST := Faults(true, Saved, SentThenLost)

  /** The retry is published and the connection drops before the ack. */
  const LOSING := [
    Submit("s", Accepted), Consume(0, NO_DELIVERY_FAULTS), Finish(0, Threw(TIMED_OUT)), Collect(0, ACK_LOST)]

  /** The broker requeues the original, the process restarts, the retry expires, and both are delivered. */
  const REPEATING := [Requeue(1), Restart, Expire(2), Consume(1, NO_DELIVERY_FAULTS), Consume(2, NO_DELIVERY_FAULTS)]

  const FAILED := JUDGING.(pending := [Pending(TASK, 1, Temporary(TIMED_OUT))])
  const UNSETTLED := World(
    map["s" := QUEUED], map["s" := QUEUED], map[1 := Message(Good(TASK), Unacked), 2 := Message(Good(RETRIED), Retry)],
    3, false, [], {"s"}, multiset{1}, map["s" := 1])
  const REQUEUED := UNSETTLED.(broker := map[1 := Message(Good(TASK), Main), 2 := Message(Good(RETRIED), Retry)])
  const RESTARTED := REQUEUED.(connected := true)
  const DOUBLED := RESTARTED.(broker := map[1 := Message(Good(TASK), Main), 2 := Message(Good(RETRIED), Main)])
  const ONE_HELD := World(
    map["s" := Record(Running, false)], map["s" := QUEUED],
    map[2 := Message(Good(RETRIED), Main), 3 := Message(Good(TASK), Unacked)], 4, true,
    [Pending(TASK, 3, Working)], {"s"}, multiset{1}, map["s" := 2])
  const BOTH_HELD := World(
    map["s" := Record(Running, false)], map["s" := QUEUED],
    map[3 := Message(Good(TASK), Unacked), 4 := Message(Good(RETRIED), Unacked)], 5, true,
    [Pending(TASK, 3, Working), Pending(RETRIED, 4, Working)], {"s"}, multiset{1}, map["s" := 3])

  lemma TimeoutIsTransient()
    ensures IsTransientWorkerFailure(TIMED_OUT) && TIMED_OUT != "problem not found"
  {
    assert OccursAt(TIMED_OUT, "timed out", 0);
    assert |TIMED_OUT| != |"problem not found"|;
  }

  lemma FailingAttempt(cfg: Config)
    ensures Enabled(JUDGING, LOSING[2], cfg) && Next(JUDGING, LOSING[2], cfg) == FAILED
  {
    TimeoutIsTransient();
  }

  lemma LosingReroute(cfg: Config)
    requires cfg.maxRetry >= 1
    ensures Reroute(FAILED, TASK, ACK_LOST, cfg) ==
            (FAILED.(db := UNSETTLED.db, broker := UNSETTLED.broker, next := 3, connected := false), true)
  {
    assert Mark(FAILED, "s", QUEUED, ACK_LOST).0.db == map["s" := QUEUED];
    assert Reroute(FAILED, TASK, ACK_LOST, cfg).0.broker == UNSETTLED.broker;
  }

  lemma LosingAck(cfg: Config)
    requires cfg.maxRetry >= 1
    ensures Enabled(FAILED, LOSING[3], cfg) && Next(FAILED, LOSING[3], cfg) == UNSETTLED
  {
    LosingReroute(cfg);
    hide Reroute;
  }

  lemma Requeueing(cfg: Config)
    ensures Enabled(UNSETTLED, REPEATING[0], cfg) && Next(UNSETTLED, REPEATING[0], cfg) == REQUEUED
    ensures Enabled(REQUEUED, REPEATING[1], cfg) && Next(REQUEUED, REPEATING[1], cfg) == RESTARTED
    ensures Enabled(RESTARTED, REPEATING[2], cfg) && Next(RESTARTED, REPEATING[2], cfg) == DOUBLED
  {
  }

  lemma FirstAgain(cfg: Config)
    requires cfg.maxInflight >= 2
    ensures Enabled(DOUBLED, REPEATING[3], cfg) && Next(DOUBLED, REPEATING[3], cfg) == ONE_HELD
  {
    assert Deliver(DOUBLED, 1).broker == ONE_HELD.broker;
  }

  lemma SecondToo(cfg: Config)
    requires cfg.maxInflight >= 2
    ensures Enabled(ONE_HELD, REPEATING[4], cfg) && Next(ONE_HELD, REPEATING[4], cfg) == BOTH_HELD
  {
    assert Deliver(ONE_HELD, 2).broker == BOTH_HELD.broker;
  }

  /** A run from the start after which two deliveries of one submission are being judged at once. */
  lemma JudgedTwiceAtOnce(cfg: Config)
    requires cfg.maxRetry >= 1 && cfg.maxInflight >= 2
    ensures IsRun(INITIAL, LOSING + REPEATING, cfg) && After(INITIAL, LOSING + REPEATING, cfg) == BOTH_HELD
  {
    LosingRun(cfg);
    RepeatingRun(cfg);
    hide Next, Enabled, IsRun, After;
    RunInTwo(INITIAL, LOSING, REPEATING, cfg);
  }

  lemma LosingRun(cfg: Config)
    requires cfg.maxRetry >= 1 && cfg.maxInflight >= 1
    ensures IsRun(INITIAL, LOSING, cfg) && After(INITIAL, LOSING, cfg) == UNSETTLED
  {
    OvertakenDispatch(cfg);
    FailingAttempt(cfg);
    LosingAck(cfg);
    hide Next, Enabled, IsRun, After;
    ChainIsRun([INITIAL, SENT, JUDGING, FAILED, UNSETTLED], LOSING, cfg);
  }

  lemma RepeatingRun(cfg: Config)
    requires cfg.maxInflight >= 2
    ensures IsRun(UNSETTLED, REPEATING, cfg) && After(UNSETTLED, REPEATING, cfg) == BOTH_HELD
  {
    Requeueing(cfg);
    FirstAgain(cfg);
    SecondToo(cfg);
    hide Next, Enabled, IsRun, After;
    ChainIsRun([UNSETTLED, REQUEUED, RESTARTED, DOUBLED, ONE_HELD, BOTH_HELD], REPEATING, cfg);
  }

  // ---- A connection lost while judging ---------------------------------------

  /** The connection drops during the attempt; after the restart the same message is delivered and judged again. */
  const INTERRUPTED := [Submit("s", Accepted), Consume(0, NO_DELIVERY_FAULTS), Lose, Requeue(1), Restart]

  /** Behind it an empty message is dropped. */
  const RESUMED := [
    Consume(1, NO_DELIVERY_FAULTS), Finish(0, Responded(WrongAnswer)), Collect(0, NO_FAULTS), Inject(true),
    Consume(3, NO_DELIVERY_FAULTS)]

  const CUT := JUDGING.(connected := false)
  const RETURNED := CUT.(broker := map[1 := Message(Good(TASK), Main)])
  const WAITING := RETURNED.(connected := true, pending := [])
  const JUDGING_AGAIN := World(
    map["s" := Record(Running, false)], map["s" := QUEUED], map[2 := Message(Good(TASK), Unacked)], 3, true,
    [Pending(TASK, 2, Working)], {"s"}, multiset{}, map["s" := 2])
  const WRONG := Record(Judged(WrongAnswer), false)
  const ANSWERED_AGAIN := JUDGING_AGAIN.(pending := [Pending(TASK, 2, Result(WRONG))])
  const DECIDED := World(
    map["s" := WRONG], map["s" := QUEUED], map[], 3, true, [], {"s"}, multiset{2}, map["s" := 2])
  const EMPTY_SENT := DECIDED.(broker := map[3 := Message(Bad(true), Main)], next := 4)
  const EMPTY_DROPPED := DECIDED.(next := 5, settled := multiset{2, 4})

  lemma Interruption(cfg: Config)
    ensures Enabled(JUDGING, Lose, cfg) && Next(JUDGING, Lose, cfg) == CUT
    ensures Enabled(CUT, Requeue(1), cfg) && Next(CUT, Requeue(1), cfg) == RETURNED
    ensures Enabled(RETURNED, Restart, cfg) && Next(RETURNED, Restart, cfg) == WAITING
  {
  }

  lemma Resumption(cfg: Config)
    requires cfg.maxInflight >= 1
    ensures Enabled(WAITING, RESUMED[0], cfg) && Next(WAITING, RESUMED[0], cfg) == JUDGING_AGAIN
    ensures Enabled(JUDGING_AGAIN, RESUMED[1], cfg) && Next(JUDGING_AGAIN, RESUMED[1], cfg) == ANSWERED_AGAIN
  {
    assert Deliver(WAITING, 1).broker == JUDGING_AGAIN.broker;
  }

  lemma Decision(cfg: Config)
    requires cfg.maxInflight >= 1
    ensures Enabled(ANSWERED_AGAIN, RESUMED[2], cfg) && Next(ANSWERED_AGAIN, RESUMED[2], cfg) == DECIDED
  {
    var written := Write(ANSWERED_AGAIN, "s", WRONG, Saved);
    assert written == ANSWERED_AGAIN.(db := DECIDED.db);
    assert Ack(written, 2).broker == map[];
  }

  lemma EmptyMessage(cfg: Config)
    requires cfg.maxInflight >= 1
    ensures Enabled(DECIDED, RESUMED[3], cfg) && Next(DECIDED, RESUMED[3], cfg) == EMPTY_SENT
    ensures Enabled(EMPTY_SENT, RESUMED[4], cfg) && Next(EMPTY_SENT, RESUMED[4], cfg) == EMPTY_DROPPED
  {
    var held := Deliver(EMPTY_SENT, 3);
    assert held.broker == map[4 := Message(Bad(true), Unacked)];
    assert held.broker - {4} == map[];
  }

  /** The attempt that was cut off leaves nothing behind: the second one decides, and every message is settled. */
  lemma JudgedAgainAfterLoss(cfg: Config)
    requires cfg.maxInflight >= 1
    ensures IsRun(INITIAL, INTERRUPTED + RESUMED, cfg) && After(INITIAL, INTERRUPTED + RESUMED, cfg) == EMPTY_DROPPED
  {
    InterruptedRun(cfg);
    ResumedRun(cfg);
    hide Next, Enabled, IsRun, After;
    RunInTwo(INITIAL, INTERRUPTED, RESUMED, cfg);
  }

  lemma ResumedRun(cfg: Config)
    requires cfg.maxInflight >= 1
    ensures IsRun(WAITING, RESUMED, cfg) && After(WAITING, RESUMED, cfg) == EMPTY_DROPPED
  {
    DecidedRun(cfg);
    EmptyMessage(cfg);
    hide Next, Enabled, IsRun, After;
    ChainIsRun([DECIDED, EMPTY_SENT, EMPTY_DROPPED], RESUMED[3..], cfg);
    RunInTwo(WAITING, RESUMED[..3], RESUMED[3..], cfg);
    assert RESUMED == RESUMED[..3] + RESUMED[3..];
  }

  lemma DecidedRun(cfg: Config)
    requires cfg.maxInflight >= 1
    ensures IsRun(WAITING, RESUMED[..3], cfg) && After(WAITING, RESUMED[..3], cfg) == DECIDED
  {
    Resumption(cfg);
    Decision(cfg);
    hide Next, Enabled, IsRun, After;
    ChainIsRun([WAITING, JUDGING_AGAIN, ANSWERED_AGAIN, DECIDED], RESUMED[..3], cfg);
  }

  lemma InterruptedRun(cfg: Config)
    requires cfg.maxInflight >= 1
    ensures IsRun(INITIAL, INTERRUPTED, cfg) && After(INITIAL, INTERRUPTED, cfg) == WAITING
  {
    OvertakenDispatch(cfg);
    Interruption(cfg);
    hide Next, Enabled, IsRun, After;
    ChainIsRun([INITIAL, SENT, JUDGING, CUT, RETURNED, WAITING], INTERRUPTED, cfg);
  }
}
