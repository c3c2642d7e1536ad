/** Whole runs of leaderboard transactions: when the tables are exact, and what they never get wrong. */
module LeaderboardSafety {
  import opened Text
  import Judge = JudgeProtocol
  import opened Leaderboard
  import opened LeaderboardRuns

  // ---- Runs -----------------------------------------------------------------

  ghost predicate IsRun(t: Tables, steps: seq<Step>)
    decreases |steps|
  {
    steps == [] || (Enabled(t, steps[0]) && IsRun(Next(t, steps[0]), steps[1..]))
  }

  ghost function After(t: Tables, steps: seq<Step>): Tables
    requires IsRun(t, steps)
    decreases |steps|
  {
    if steps == [] then t else After(Next(t, steps[0]), steps[1..])
  }

  /** The step widens a window over submissions judged already. */
  ghost predicate Lagging(t: Tables, step: Step) {
    step.UpdateSchedule? && step.id in t.schedules
    && TakesInJudged(t, step.id, GetOr(step.newEnd, t.schedules[step.id].end))
  }

  /** No step of the run renumbers a problem whose old number some stored row carries. */
  ghost predicate NeverOrphans(t: Tables, steps: seq<Step>)
    requires IsRun(t, steps)
    decreases |steps|
  {
    steps == [] || (!Orphans(t, steps[0]) && NeverOrphans(Next(t, steps[0]), steps[1..]))
  }

  /**
   * The keys left behind: those some widening took judged submissions of into the window and no judgement
   * has rebuilt since. Neither the rows nor the ranks are consulted.
   */
  ghost function StaleRun(t: Tables, steps: seq<Step>, stale: iset<Key>): iset<Key>
    requires IsRun(t, steps)
    decreases |steps|
  {
    if steps == [] then stale
    else StaleRun(Next(t, steps[0]), steps[1..], StaleNext(t, steps[0], stale))
  }

  lemma MaterialisedMeans(t: Tables)
    ensures Materialised(t) <==> Safe(t) && StaleKeys(t) == iset{}
  {
    if Materialised(t) {
      MaterialisedIsSafe(t);
      hide Exact;
      assert forall k: Key :: k in StaleKeys(t) ==> !Exact(t, k);
    } else if Safe(t) && StaleKeys(t) == iset{} {
      hide WellFormed, RanksExact, RowSafe, Exact;
      forall k: Key ensures Exact(t, k) {
        assert k !in StaleKeys(t);
      }
    }
  }

  lemma StepStale(t: Tables, step: Step)
    requires Safe(t) && Enabled(t, step) && !Orphans(t, step)
    ensures StaleKeys(Next(t, step)) == StaleNext(t, step, StaleKeys(t))
  {
    hide Safe, Enabled, Next, Orphans, Exact, StaleNext;
    forall k: Key ensures k in StaleKeys(Next(t, step)) <==> k in StaleNext(t, step, StaleKeys(t)) {
      StepExact(t, step, k);
    }
  }

  lemma NothingStale(t: Tables, step: Step)
    requires Enabled(t, step)
    ensures StaleNext(t, step, iset{}) == iset{} <==> !Lagging(t, step)
  {
    hide Enabled, TakesInFor, Rebuilds;
    if step.UpdateSchedule? {
      if Lagging(t, step) {
        var k: Key :| TakesInFor(t, step.id, GetOr(step.newEnd, t.schedules[step.id].end), k);
        assert Staled(t, step, k);
        assert k in StaleNext(t, step, iset{});
      } else {
        assert forall k: Key :: k !in StaleNext(t, step, iset{});
      }
    }
  }

  /**
   * A transaction keeps exact tables exact if and only if it neither widens a window over judged submissions
   * nor renumbers a problem that has a row.
   */
  lemma StepMaterialised(t: Tables, step: Step)
    requires Materialised(t) && Enabled(t, step)
    ensures Materialised(Next(t, step)) <==> !Lagging(t, step) && !Orphans(t, step)
  {
    hide Materialised, Safe, StaleKeys, Enabled, Next, Orphans, Lagging, StaleNext;
    MaterialisedMeans(t);
    MaterialisedMeans(Next(t, step));
    StepSafe(t, step);
    NothingStale(t, step);
    if !Orphans(t, step) {
      StepStale(t, step);
    }
  }

  /** An extension keeps the tables exact if and only if the added stretch holds no judged submission. */
  lemma RescheduleExact(t: Tables, id: int, newStart: Option<int>, newEnd: Option<int>)
    requires Materialised(t) && Enabled(t, UpdateSchedule(id, newStart, newEnd))
    ensures Materialised(Next(t, UpdateSchedule(id, newStart, newEnd)))
            <==> !TakesInJudged(t, id, GetOr(newEnd, t.schedules[id].end))
  {
    hide Materialised, Next, TakesInJudged;
    StepMaterialised(t, UpdateSchedule(id, newStart, newEnd));
  }

  lemma {:induction false} RunSafe(t: Tables, steps: seq<Step>)
    requires Safe(t) && IsRun(t, steps) && NeverOrphans(t, steps)
    ensures Safe(After(t, steps)) && StaleKeys(After(t, steps)) == StaleRun(t, steps, StaleKeys(t))
    decreases |steps|
  {
    hide Safe, StaleKeys, StaleNext, Orphans, Enabled, Next;
    if steps != [] {
      StepSafe(t, steps[0]);
      StepStale(t, steps[0]);
      RunSafe(Next(t, steps[0]), steps[1..]);
    }
  }

  /** Whatever is renumbered, the records stay well formed and the ranks stay the view of the rows. */
  lemma {:induction false} RunWellFormed(t: Tables, steps: seq<Step>)
    requires WellFormed(t) && RanksExact(t) && IsRun(t, steps)
    ensures WellFormed(After(t, steps)) && RanksExact(After(t, steps))
    decreases |steps|
  {
    hide WellFormed, RanksExact, Enabled, Next;
    if steps != [] {
      StepWellFormed(t, steps[0]);
      RunWellFormed(Next(t, steps[0]), steps[1..]);
    }
  }

  /** A database with no assignment and no submission. */
  lemma EmptyMaterialised(clock: int)
    ensures Materialised(Empty(clock))
  {
    hide Snapshot, RankOf;
  }

  /**
   * From an empty database, while no renumbering orphans a row: the tables are safe, and they are exact
   * if and only if every key left behind by a widening has been rebuilt since.
   */
  lemma Reachable(clock: int, steps: seq<Step>)
    requires IsRun(Empty(clock), steps)
    ensures var t := After(Empty(clock), steps);
            && WellFormed(t) && RanksExact(t)
            && (NeverOrphans(Empty(clock), steps) ==>
                  && Safe(t) && StaleKeys(t) == StaleRun(Empty(clock), steps, iset{})
                  && (Materialised(t) <==> StaleRun(Empty(clock), steps, iset{}) == iset{}))
  {
    EmptyMaterialised(clock);
    hide Safe, Materialised, IsRun, NeverOrphans, StaleRun, StaleKeys, After;
    MaterialisedMeans(Empty(clock));
    RunWellFormed(Empty(clock), steps);
    if NeverOrphans(Empty(clock), steps) {
      RunSafe(Empty(clock), steps);
      MaterialisedMeans(After(Empty(clock), steps));
    }
  }

  /** The tables are a function of the schedules, the problem lists and the submissions alone. */
  lemma ExactTablesAgree(t: Tables, t': Tables)
    requires Materialised(t) && Materialised(t')
    requires t.schedules == t'.schedules && t.problems == t'.problems && t.submissions == t'.submissions
    ensures t.rows == t'.rows && t.ranks == t'.ranks
  {
    hide Materialised;
    forall k ensures (k in t.rows <==> k in t'.rows) && (k in t.rows ==> t.rows[k] == t'.rows[k]) {
      RowAgrees(t, t', k);
    }
    assert t.rows == t'.rows;
    RanksAgree(t, t');
  }

  lemma RowAgrees(t: Tables, t': Tables, k: Key)
    requires Materialised(t) && Materialised(t')
    requires t.schedules == t'.schedules && t.problems == t'.problems && t.submissions == t'.submissions
    ensures (k in t.rows <==> k in t'.rows) && (k in t.rows ==> t.rows[k] == t'.rows[k])
  {
    SameCounted(t, t', k);
    assert Exact(t, k) && Exact(t', k);
    if k in t.rows {
      CountedIsScheduled(t, k);
      SnapshotReads(t, t', k, t.schedules[k.assignment].start, t.schedules[k.assignment].end);
    }
    hide RanksExact, WellFormed, Snapshot, Counted;
  }

  lemma RanksAgree(t: Tables, t': Tables)
    requires Materialised(t) && Materialised(t') && t.rows == t'.rows
    ensures t.ranks == t'.ranks
  {
    hide RankOf, WellFormed, Counted, Snapshot;
    forall u ensures u in t.ranks <==> u in t'.ranks {
      if u in t.ranks {
        var p :| Key(u.assignment, u.user, p) in t.rows;
      }
      if u in t'.ranks {
        var p :| Key(u.assignment, u.user, p) in t'.rows;
      }
    }
  }

  ghost predicate OnlyJudges(steps: seq<Step>) {
    forall i | 0 <= i < |steps| :: steps[i].Update?
  }

  lemma {:induction false} JudgingRun(t: Tables, steps: seq<Step>)
    requires Materialised(t) && IsRun(t, steps) && OnlyJudges(steps)
    ensures var t' := After(t, steps);
            Materialised(t') && t'.schedules == t.schedules && t'.problems == t.problems
    decreases |steps|
  {
    hide Materialised, UpdateSubmission;
    if steps != [] {
      assert steps[0].Update?;
      UpdateMaterialised(t, steps[0].index, steps[0].status, steps[0].accepted);
      assert Materialised(Next(t, steps[0]));
      UpdateKeepsSettings(t, steps[0].index, steps[0].status, steps[0].accepted);
      JudgingRun(Next(t, steps[0]), steps[1..]);
    }
  }

  lemma UpdateKeepsSettings(t: Tables, index: nat, status: Judge.Status, accepted: bool)
    requires index < |t.submissions|
    ensures var t' := UpdateSubmission(t, index, status, accepted);
            t'.schedules == t.schedules && t'.problems == t.problems
  {
  }

  /** The order in which submissions were judged leaves no trace in the tables. */
  lemma JudgingOrderIrrelevant(t: Tables, one: seq<Step>, other: seq<Step>)
    requires Materialised(t)
    requires IsRun(t, one) && OnlyJudges(one) && IsRun(t, other) && OnlyJudges(other)
    requires After(t, one).submissions == After(t, other).submissions
    ensures After(t, one).rows == After(t, other).rows && After(t, one).ranks == After(t, other).ranks
  {
    JudgingRun(t, one);
    JudgingRun(t, other);
    ExactTablesAgree(After(t, one), After(t, other));
  }

  // ---- What the aggregates mean -----------------------------------------------

  predicate Chosen(subs: seq<Submission>, k: Key, listed: bool, start: int, end: int, i: int) {
    0 <= i < |subs| && listed && Selected(subs[i], k, start, end)
  }

  ghost function ChosenSet(subs: seq<Submission>, k: Key, listed: bool, start: int, end: int): set<int> {
    set i | 0 <= i < |subs| && Chosen(subs, k, listed, start, end, i)
  }

  lemma {:induction false} FoldCounts(subs: seq<Submission>, k: Key, listed: bool, start: int, end: int)
    ensures Fold(subs, k, listed, start, end).count == |ChosenSet(subs, k, listed, start, end)|
  {
    if subs != [] {
      var n := |subs| - 1;
      FoldCounts(subs[..n], k, listed, start, end);
      var less := ChosenSet(subs[..n], k, listed, start, end);
      assert forall i | 0 <= i < n ::
          Chosen(subs, k, listed, start, end, i) <==> Chosen(subs[..n], k, listed, start, end, i);
      if Chosen(subs, k, listed, start, end, n) {
        assert ChosenSet(subs, k, listed, start, end) == less + {n};
      } else {
        assert ChosenSet(subs, k, listed, start, end) == less;
      }
    }
  }

  /** The earliest acceptance, the newest status by (time, id) and the largest id, each attained and each extreme. */
  lemma {:induction false} FoldMeans(subs: seq<Submission>, k: Key, listed: bool, start: int, end: int)
    ensures var a := Fold(subs, k, listed, start, end);
            && (a.firstAccepted.None? ==> forall i :: Chosen(subs, k, listed, start, end, i) ==> !subs[i].accepted)
            && (a.firstAccepted.Some? ==>
                  && (exists i :: Chosen(subs, k, listed, start, end, i) && subs[i].accepted
                                  && subs[i].createdAt == a.firstAccepted.value)
                  && (forall i :: Chosen(subs, k, listed, start, end, i) && subs[i].accepted ==>
                                  a.firstAccepted.value <= subs[i].createdAt))
            && (a.latest.None? ==>
                  a.lastId == 0 && a.lastSubmitted.None? && forall i :: !Chosen(subs, k, listed, start, end, i))
            && (a.latest.Some? ==>
                  var l := a.latest.value;
                  && Chosen(subs, k, listed, start, end, l.id - 1)
                  && l.status == subs[l.id - 1].status && l.createdAt == subs[l.id - 1].createdAt
                  && a.lastSubmitted == Some(l.createdAt)
                  && (forall i :: Chosen(subs, k, listed, start, end, i) ==>
                        subs[i].createdAt < l.createdAt || (subs[i].createdAt == l.createdAt && i <= l.id - 1))
                  && Chosen(subs, k, listed, start, end, a.lastId - 1)
                  && (forall i :: Chosen(subs, k, listed, start, end, i) ==> i <= a.lastId - 1))
  {
    if subs != [] {
      var n := |subs| - 1;
      FoldMeans(subs[..n], k, listed, start, end);
      forall i | 0 <= i < n
        ensures Chosen(subs, k, listed, start, end, i) <==> Chosen(subs[..n], k, listed, start, end, i)
      {
      }
      var a, b := Fold(subs[..n], k, listed, start, end), Fold(subs, k, listed, start, end);
      if b.firstAccepted.Some? && b.firstAccepted == a.firstAccepted {
        var i :| Chosen(subs[..n], k, listed, start, end, i) && subs[i].accepted && subs[i].createdAt == a.firstAccepted.value;
        assert Chosen(subs, k, listed, start, end, i);
      } else if b.firstAccepted.Some? {
        assert Chosen(subs, k, listed, start, end, n);
      }
    }
  }

  // ---- What lagging rows still say ---------------------------------------------

  /** The window end that a stored row was computed for. */
  lemma RowWindow(t: Tables, k: Key) returns (e: int)
    requires Safe(t) && k in t.rows
    ensures k.assignment in t.schedules && (k.assignment, k.problem) in t.problems
    ensures 0 < t.schedules[k.assignment].start < t.schedules[k.assignment].end && e <= t.schedules[k.assignment].end
    ensures t.rows[k] == Snapshot(t, k, t.schedules[k.assignment].start, e)
  {
    hide RanksExact, Snapshot;
    assert RowSafe(t, k);
    CountedIsListed(t, k);
    hide WellFormed, Counted;
    e :| e <= t.schedules[k.assignment].end && IsSnapshot(t, k, e);
  }

  /**
   * However far the rows lag behind a widened window, a stored row never counts a submission too many,
   * and what it says of an accepted problem is what the current window says of it.
   */
  lemma NeverOverCounts(t: Tables, k: Key)
    requires Safe(t) && k in t.rows
    ensures k.assignment in t.schedules
    ensures var sched := t.schedules[k.assignment];
            var row, exact := t.rows[k], Snapshot(t, k, sched.start, sched.end);
            && row.count <= exact.count && row.score <= exact.score
            && (row.accepted ==>
                  && exact.accepted && row.firstAccepted == exact.firstAccepted
                  && row.penalty == exact.penalty && row.score == exact.score)
  {
    hide Safe, Fold;
    var e := RowWindow(t, k);
    var sched := t.schedules[k.assignment];
    FoldWidens(t.submissions, k, (k.assignment, k.problem) in t.problems, sched.start, e, sched.end);
  }

  /** The penalty of an accepted problem is its distance from the start, so at most the window's length. */
  lemma PenaltyBounded(t: Tables, k: Key)
    requires Safe(t) && k in t.rows
    ensures k.assignment in t.schedules && (k.assignment, k.problem) in t.problems
    ensures var sched, row := t.schedules[k.assignment], t.rows[k];
            && 0 <= row.penalty <= sched.end - sched.start
            && (!row.accepted ==> row.penalty == 0 && row.score == 0)
            && (row.accepted ==> row.score == 100 && row.penalty == row.firstAccepted - sched.start)
  {
    hide Safe, Snapshot;
    var e := RowWindow(t, k);
    SnapshotBounded(t, k, t.schedules[k.assignment].start, e);
  }

  lemma CountedIsListed(t: Tables, k: Key)
    requires WellFormed(t) && Counted(t, k)
    ensures k.assignment in t.schedules && (k.assignment, k.problem) in t.problems
    ensures 0 < t.schedules[k.assignment].start < t.schedules[k.assignment].end
  {
    var i :| 0 <= i < |t.submissions| && Matches(t.submissions[i], k);
    assert AssignmentWellFormed(t, t.submissions[i]);
  }

  lemma SnapshotBounded(t: Tables, k: Key, start: int, e: int)
    requires 0 < start
    ensures var row := Snapshot(t, k, start, e);
            && (row.accepted ==>
                  row.score == 100 && row.penalty == row.firstAccepted - start && 0 <= row.penalty <= e - start)
            && (!row.accepted ==> row.penalty == 0 && row.score == 0)
  {
    var listed := (k.assignment, k.problem) in t.problems;
    FirstAcceptedInside(t.submissions, k, listed, start, e);
    hide Fold;
  }

  lemma FirstAcceptedInside(subs: seq<Submission>, k: Key, listed: bool, start: int, e: int)
    ensures var a := Fold(subs, k, listed, start, e);
            a.firstAccepted.Some? ==> start <= a.firstAccepted.value <= e
  {
    FoldMeans(subs, k, listed, start, e);
    hide Fold;
  }

  // ---- An exact row, without the aggregates --------------------------------------

  /** Submission i is one that the leaderboard counts for this key. */
  predicate CountedAt(t: Tables, k: Key, i: int) {
    && 0 <= i < |t.submissions| && k.assignment in t.schedules
    && Matches(t.submissions[i], k) && ShouldCount(t.submissions[i], t.schedules[k.assignment])
  }

  lemma ChosenIsCounted(t: Tables, k: Key, i: int)
    requires WellFormed(t) && k.assignment in t.schedules && (k.assignment, k.problem) in t.problems
    ensures var sched := t.schedules[k.assignment];
            Chosen(t.submissions, k, true, sched.start, sched.end, i) <==> CountedAt(t, k, i)
  {
    if 0 <= i < |t.submissions| && Matches(t.submissions[i], k) {
      FiltersAgree(t, t.submissions[i], k);
    }
  }

  /** What a row says of the submissions counted for its key. */
  ghost predicate Describes(row: ProblemRow, t: Tables, k: Key)
    requires k.assignment in t.schedules
  {
    var subs := t.submissions;
    && row.count == |set i | 0 <= i < |subs| && CountedAt(t, k, i)|
    && (row.accepted <==> exists i :: CountedAt(t, k, i) && subs[i].accepted)
    && (row.accepted ==>
          && (exists i :: CountedAt(t, k, i) && subs[i].accepted && subs[i].createdAt == row.firstAccepted)
          && (forall i :: CountedAt(t, k, i) && subs[i].accepted ==> row.firstAccepted <= subs[i].createdAt)
          && row.score == 100 && row.penalty == row.firstAccepted - t.schedules[k.assignment].start)
    && (!row.accepted ==> row.firstAccepted == 0 && row.score == 0 && row.penalty == 0)
    && CountedAt(t, k, row.lastId - 1) && (forall i :: CountedAt(t, k, i) ==> i <= row.lastId - 1)
    && (forall i :: CountedAt(t, k, i) ==> subs[i].createdAt <= row.lastSubmitted)
    && (exists i :: NewestOf(t, k, i) && row.lastStatus == Some(subs[i].status) && row.lastSubmitted == subs[i].createdAt)
  }

  /** The counted submission that is last by (time, id). */
  ghost predicate NewestOf(t: Tables, k: Key, i: int) {
    CountedAt(t, k, i) &&
    forall j :: CountedAt(t, k, j) ==>
      t.submissions[j].createdAt < t.submissions[i].createdAt
      || (t.submissions[j].createdAt == t.submissions[i].createdAt && j <= i)
  }

  /** In exact tables every row describes the counted submissions of its key. */
  lemma ExactRow(t: Tables, k: Key)
    requires Materialised(t) && k in t.rows
    ensures k.assignment in t.schedules && Describes(t.rows[k], t, k)
  {
    assert Exact(t, k);
    CountedIsListed(t, k);
    var sched, subs := t.schedules[k.assignment], t.submissions;
    forall i ensures Chosen(subs, k, true, sched.start, sched.end, i) <==> CountedAt(t, k, i) {
      ChosenIsCounted(t, k, i);
    }
    assert t.rows[k] == Snapshot(t, k, sched.start, sched.end);
    assert exists i :: CountedAt(t, k, i) by {
      var i :| 0 <= i < |subs| && Matches(subs[i], k) && ShouldCount(subs[i], sched);
      assert CountedAt(t, k, i);
    }
    hide Materialised, WellFormed, Counted, RanksExact, CountedAt, Chosen;
    ExactAggregate(t, k, sched);
  }

  lemma ExactAggregate(t: Tables, k: Key, sched: Schedule)
    requires k.assignment in t.schedules && t.schedules[k.assignment] == sched && 0 < sched.start
    requires (k.assignment, k.problem) in t.problems
    requires forall i :: Chosen(t.submissions, k, true, sched.start, sched.end, i) <==> CountedAt(t, k, i)
    requires exists i :: CountedAt(t, k, i)
    ensures Describes(Snapshot(t, k, sched.start, sched.end), t, k)
  {
    var subs := t.submissions;
    var a := Fold(subs, k, true, sched.start, sched.end);
    FoldCounts(subs, k, true, sched.start, sched.end);
    FoldMeans(subs, k, true, sched.start, sched.end);
    FirstAcceptedInside(subs, k, true, sched.start, sched.end);
    assert ChosenSet(subs, k, true, sched.start, sched.end) == set i | 0 <= i < |subs| && CountedAt(t, k, i);
    hide Fold, CountedAt, Chosen, ChosenSet;
    assert a.latest.Some?;
    assert NewestOf(t, k, a.latest.value.id - 1);
  }
}
