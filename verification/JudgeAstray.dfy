/** Two runs without a nack that leave an accepted submission unjudged for ever. */
module JudgeAstray {
  import opened Text
  import opened JudgeProtocol
  import opened JudgeRuns
  import opened JudgeTermination

  /** The first load of the delivery throws, the load that would mark it dead throws too, and both are swallowed. */
  const LOADS_FAIL := DeliveryFaults(false, true, Saved, true, Faults(false, Saved, Sent))

  const SWALLOWED := [Submit("s", Accepted), Consume(0, LOADS_FAIL)]

  const BURIED := World(
    map["s" := QUEUED], map["s" := QUEUED], map[2 := Message(Good(TASK), Dead)], 3, true, [],
    {"s"}, multiset{1}, map["s" := 0])

  lemma BuryingStep(cfg: Config)
    requires cfg.maxInflight >= 1
    ensures Enabled(INITIAL, SWALLOWED[0], cfg) && Next(INITIAL, SWALLOWED[0], cfg) == SENT
    ensures Enabled(SENT, SWALLOWED[1], cfg) && Next(SENT, SWALLOWED[1], cfg) == BURIED
  {
    OvertakenDispatch(cfg);
    var held := Deliver(SENT, 0);
    assert held.broker == map[1 := Message(Good(TASK), Unacked)];
    assert MarkDead(held, Good(TASK), LOADS_FAIL.rescue) == held;
    assert Send(held, Good(TASK), Dead, Sent).broker - {1} == BURIED.broker;
  }

  lemma RestsInAnyCase(w: World, cfg: Config)
    requires CleanInv(w, cfg) && forall id, sid :: !Ticket(w, id, sid)
    ensures AtRest(w, cfg)
  {
    RestExactly(w, cfg);
  }

  /**
   * No delivery is nacked or requeued, no attempt is made and nothing more will happen; the record says
   * QUEUED and the only message is a dead letter.
   */
  lemma DeadLetterStrands(cfg: Config)
    requires cfg.maxInflight >= 1
    ensures IsRun(INITIAL, SWALLOWED, cfg) && AllNackFree(INITIAL, SWALLOWED, cfg)
    ensures After(INITIAL, SWALLOWED, cfg) == BURIED
    ensures AtRest(BURIED, cfg) && NoneBroken(BURIED) && BURIED.db["s"].status == Queued && BURIED.attempts["s"] == 0
    ensures !NeverStrays(INITIAL, SWALLOWED, "s", cfg)
  {
    BuryingStep(cfg);
    assert NackFree(INITIAL, SWALLOWED[0], cfg) && NackFree(SENT, SWALLOWED[1], cfg);
    hide Next, Enabled, NackFree, CleanInv;
    hide IsRun, After, AllNackFree;
    ChainIsRun([INITIAL, SENT, BURIED], SWALLOWED, cfg);
    ChainIsNackFree([INITIAL, SENT, BURIED], SWALLOWED, cfg);
    InitialClean(cfg);
    CleanRun(INITIAL, SWALLOWED, "s", cfg);
    hide NeverStrays;
    assert Stray(BURIED, "s") && !Stray(INITIAL, "s");
    RestsInAnyCase(BURIED, cfg);
  }

  /** The late rewrite does the same without any failure at all. */
  lemma RewriteStrands(cfg: Config)
    requires cfg.maxInflight >= 1
    ensures IsRun(INITIAL, OVERTAKEN, cfg) && AllNackFree(INITIAL, OVERTAKEN, cfg)
    ensures After(INITIAL, OVERTAKEN, cfg) == LOST && AtRest(LOST, cfg) && NoneBroken(LOST)
    ensures LOST.db["s"].status == Queued && !NeverStrays(INITIAL, OVERTAKEN, "s", cfg)
  {
    LateWriteCanLose(cfg);
    OvertakenNackFree(cfg);
    hide Next, Enabled, NackFree, CleanInv, IsRun, After;
    InitialClean(cfg);
    CleanRun(INITIAL, OVERTAKEN, "s", cfg);
    hide AllNackFree, NeverStrays;
    assert Stray(LOST, "s") && !Stray(INITIAL, "s");
    RestsInAnyCase(LOST, cfg);
  }

  lemma {:induction false} ChainIsNackFree(ws: seq<World>, steps: seq<Step>, cfg: Config)
    requires |ws| == |steps| + 1
    requires forall i | 0 <= i < |steps| ::
               Enabled(ws[i], steps[i], cfg) && ws[i + 1] == Next(ws[i], steps[i], cfg) && NackFree(ws[i], steps[i], cfg)
    ensures IsRun(ws[0], steps, cfg) && AllNackFree(ws[0], steps, cfg)
    decreases |steps|
  {
    hide Enabled, Next, NackFree;
    ChainIsRun(ws, steps, cfg);
    if steps != [] {
      ChainIsNackFree(ws[1..], steps[1..], cfg);
    }
  }

  lemma OvertakenNackFree(cfg: Config)
    requires cfg.maxInflight >= 1
    ensures IsRun(INITIAL, OVERTAKEN, cfg) && AllNackFree(INITIAL, OVERTAKEN, cfg)
  {
    OvertakenDispatch(cfg);
    OvertakenCollect(cfg);
    OvertakenWrite(cfg);
    assert NackFree(INITIAL, OVERTAKEN[0], cfg) && NackFree(SENT, OVERTAKEN[1], cfg) && NackFree(JUDGING, OVERTAKEN[2], cfg);
    assert NackFree(ANSWERED, OVERTAKEN[3], cfg) && NackFree(SETTLED, OVERTAKEN[4], cfg);
    hide Next, Enabled, NackFree, IsRun, AllNackFree;
    ChainIsNackFree([INITIAL, SENT, JUDGING, ANSWERED, SETTLED, LOST], OVERTAKEN, cfg);
  }
}
