/** What one transaction does to each row of the leaderboard tables. */
module LeaderboardRuns {
  import opened Text
  import Judge = JudgeProtocol
  import opened Leaderboard

  function Empty(clock: int): Tables {
    Tables(map[], {}, [], map[], map[], clock)
  }

  /** The steps that touch neither table and rename nothing. */
  predicate Setting(step: Step) {
    !step.Update? && !step.Renumber?
  }

  // ---- Assignments, submissions and time ------------------------------------------

  lemma SameCounted(t: Tables, t': Tables, k: Key)
    requires WellFormed(t) && t'.submissions == t.submissions
    requires forall a | a in t.schedules :: a in t'.schedules && t'.schedules[a] == t.schedules[a]
    ensures Counted(t', k) <==> Counted(t, k)
  {
    if Counted(t', k) {
      var i :| 0 <= i < |t'.submissions| && Matches(t'.submissions[i], k)
               && ShouldCount(t'.submissions[i], t'.schedules[k.assignment]);
      assert AssignmentWellFormed(t, t.submissions[i]);
      assert ShouldCount(t.submissions[i], t.schedules[k.assignment]);
    }
  }

  lemma SubmitCounted(t: Tables, s: Submission, k: Key)
    requires s.status == Judge.Queued
    ensures Counted(t.(submissions := t.submissions + [s]), k) <==> Counted(t, k)
  {
    var t' := t.(submissions := t.submissions + [s]);
    if Counted(t, k) {
      var i :| 0 <= i < |t.submissions| && Matches(t.submissions[i], k)
               && ShouldCount(t.submissions[i], t.schedules[k.assignment]);
      assert Matches(t'.submissions[i], k) && ShouldCount(t'.submissions[i], t.schedules[k.assignment]);
    }
  }

  lemma SubmitWellFormed(t: Tables, s: Submission)
    requires WellFormed(t) && Enabled(t, Submit(s))
    ensures WellFormed(t.(submissions := t.submissions + [s]))
  {
    var t' := t.(submissions := t.submissions + [s]);
    forall i | 0 <= i < |t'.submissions|
      ensures t'.submissions[i].createdAt <= t'.clock && AssignmentWellFormed(t', t'.submissions[i])
    {
      if i < |t.submissions| {
        assert AssignmentWellFormed(t, t.submissions[i]);
      }
    }
  }

  lemma SubmitSnapshot(t: Tables, s: Submission, k: Key, start: int, end: int)
    requires s.status == Judge.Queued
    ensures Snapshot(t.(submissions := t.submissions + [s]), k, start, end) == Snapshot(t, k, start, end)
  {
    FoldAppend(t.submissions, s, k, (k.assignment, k.problem) in t.problems, start, end);
  }

  // ---- The schedule ------------------------------------------------------------

  /** Moving the start is possible only while the assignment has no submission at all. */
  lemma StartMovesOnlyBeforeSubmissions(t: Tables, id: int, newStart: Option<int>, newEnd: Option<int>)
    requires WellFormed(t) && Enabled(t, UpdateSchedule(id, newStart, newEnd)) && newStart.Some?
    ensures forall i | 0 <= i < |t.submissions| :: t.submissions[i].assignment != Some(id)
  {
    forall i | 0 <= i < |t.submissions| ensures t.submissions[i].assignment != Some(id) {
      assert AssignmentWellFormed(t, t.submissions[i]);
    }
  }

  /** A window never loses a moment: the start only moves down and the end only up. */
  lemma WindowOnlyWidens(t: Tables, step: Step, a: int)
    requires Enabled(t, step) && a in t.schedules
    ensures var t' := Next(t, step);
            && a in t'.schedules
            && t'.schedules[a].start <= t.schedules[a].start && t.schedules[a].end <= t'.schedules[a].end
  {
    hide RankOf, Snapshot;
  }

  lemma RescheduleWellFormed(t: Tables, id: int, newStart: Option<int>, newEnd: Option<int>)
    requires WellFormed(t) && Enabled(t, UpdateSchedule(id, newStart, newEnd))
    ensures WellFormed(Next(t, UpdateSchedule(id, newStart, newEnd)))
  {
    var t' := Next(t, UpdateSchedule(id, newStart, newEnd));
    forall i | 0 <= i < |t.submissions| ensures AssignmentWellFormed(t', t'.submissions[i]) {
      assert AssignmentWellFormed(t, t.submissions[i]);
    }
  }

  /** Submissions of the key, judged already, that an extended window takes in. */
  ghost predicate TakesInFor(t: Tables, id: int, newEnd: int, k: Key) {
    exists i :: 0 <= i < |t.submissions| && Matches(t.submissions[i], k) && k.assignment == id
                && Judge.Terminal(t.submissions[i].status) && id in t.schedules
                && t.schedules[id].end < t.submissions[i].createdAt <= newEnd
  }

  /** Submissions of the assignment, judged already, that an extended window takes in. */
  ghost predicate TakesInJudged(t: Tables, id: int, newEnd: int) {
    exists k :: TakesInFor(t, id, newEnd, k)
  }

  lemma {:induction false} FoldSameWindow(subs: seq<Submission>, k: Key, listed: bool, start: int, e: int, e': int)
    requires e <= e'
    requires forall i | 0 <= i < |subs| && Matches(subs[i], k) && Judge.Terminal(subs[i].status) :: !(e < subs[i].createdAt <= e')
    ensures Fold(subs, k, listed, start, e) == Fold(subs, k, listed, start, e')
  {
    if subs != [] {
      FoldSameWindow(subs[..|subs| - 1], k, listed, start, e, e');
    }
  }

  /** A wider window counts more, and finds the same first acceptance if the narrow one found any. */
  lemma {:induction false} FoldWidens(subs: seq<Submission>, k: Key, listed: bool, start: int, e: int, e': int)
    requires e <= e'
    ensures var a, a' := Fold(subs, k, listed, start, e), Fold(subs, k, listed, start, e');
            && a.count <= a'.count
            && (a.firstAccepted.Some? ==> a.firstAccepted.value <= e && a'.firstAccepted == a.firstAccepted)
            && (a.firstAccepted.None? && a'.firstAccepted.Some? ==> a'.firstAccepted.value > e)
            && (listed && (exists i :: 0 <= i < |subs| && Selected(subs[i], k, start, e') && e < subs[i].createdAt) ==>
                  a.count < a'.count)
  {
    if subs != [] {
      var n := |subs| - 1;
      FoldWidens(subs[..n], k, listed, start, e, e');
      if i :| 0 <= i < |subs| && Selected(subs[i], k, start, e') && e < subs[i].createdAt {
        assert i < n ==> Selected(subs[..n][i], k, start, e');
      }
    }
  }

  lemma NoStart(t: Tables, id: int, newStart: Option<int>, newEnd: Option<int>, i: nat)
    requires WellFormed(t) && Enabled(t, UpdateSchedule(id, newStart, newEnd))
    requires i < |t.submissions| && t.submissions[i].assignment == Some(id)
    ensures newStart.None?
  {
    if newStart.Some? {
      StartMovesOnlyBeforeSubmissions(t, id, newStart, newEnd);
    }
  }

  lemma SnapshotReads(t: Tables, t': Tables, k: Key, start: int, end: int)
    requires t'.submissions == t.submissions && t'.problems == t.problems
    ensures Snapshot(t', k, start, end) == Snapshot(t, k, start, end)
  {
  }

  lemma SnapshotLags(t: Tables, k: Key, i: nat, start: int, e: int, e': int)
    requires i < |t.submissions| && Selected(t.submissions[i], k, start, e') && e < t.submissions[i].createdAt
    requires (k.assignment, k.problem) in t.problems
    ensures Snapshot(t, k, start, e).count < Snapshot(t, k, start, e').count
  {
    FoldWidens(t.submissions, k, true, start, e, e');
  }

  lemma RescheduleTouches(t: Tables, id: int, newStart: Option<int>, newEnd: Option<int>)
    requires Enabled(t, UpdateSchedule(id, newStart, newEnd))
    ensures var t' := Next(t, UpdateSchedule(id, newStart, newEnd));
            && t'.rows == t.rows && t'.ranks == t.ranks && t'.submissions == t.submissions && t'.problems == t.problems
            && t'.schedules.Keys == t.schedules.Keys
            && forall a | a in t.schedules && a != id :: t'.schedules[a] == t.schedules[a]
  {
  }

  lemma SameSnapshot(t: Tables, id: int, newStart: Option<int>, newEnd: Option<int>, k: Key)
    requires WellFormed(t) && Enabled(t, UpdateSchedule(id, newStart, newEnd))
    requires Counted(t, k) && k.assignment == id
    requires !TakesInFor(t, id, GetOr(newEnd, t.schedules[id].end), k)
    ensures var was, now := t.schedules[id], Next(t, UpdateSchedule(id, newStart, newEnd)).schedules[id];
            Snapshot(t, k, now.start, now.end) == Snapshot(t, k, was.start, was.end)
  {
    var i :| 0 <= i < |t.submissions| && Matches(t.submissions[i], k);
    NoStart(t, id, newStart, newEnd, i);
    var was, now := t.schedules[id], Next(t, UpdateSchedule(id, newStart, newEnd)).schedules[id];
    WindowOnlyWidens(t, UpdateSchedule(id, newStart, newEnd), id);
    SameStart(t, id, newEnd);
    FoldSameWindow(t.submissions, k, (id, k.problem) in t.problems, was.start, was.end, now.end);
  }

  lemma SameStart(t: Tables, id: int, newEnd: Option<int>)
    requires Enabled(t, UpdateSchedule(id, None, newEnd))
    ensures var now := Next(t, UpdateSchedule(id, None, newEnd)).schedules[id];
            now.start == t.schedules[id].start && now.end == GetOr(newEnd, t.schedules[id].end)
  {
  }

  lemma RescheduleCounted(t: Tables, id: int, newStart: Option<int>, newEnd: Option<int>, k: Key)
    requires WellFormed(t) && Enabled(t, UpdateSchedule(id, newStart, newEnd))
    requires !TakesInFor(t, id, GetOr(newEnd, t.schedules[id].end), k)
    ensures Counted(Next(t, UpdateSchedule(id, newStart, newEnd)), k) <==> Counted(t, k)
  {
    var t' := Next(t, UpdateSchedule(id, newStart, newEnd));
    if newStart.Some? {
      StartMovesOnlyBeforeSubmissions(t, id, newStart, newEnd);
    }
    if i :| 0 <= i < |t.submissions| && Matches(t.submissions[i], k)
            && k.assignment in t.schedules && ShouldCount(t.submissions[i], t'.schedules[k.assignment]) {
      assert AssignmentWellFormed(t, t.submissions[i]);
      assert ShouldCount(t.submissions[i], t.schedules[k.assignment]);
    }
    if i :| 0 <= i < |t.submissions| && Matches(t.submissions[i], k)
            && k.assignment in t.schedules && ShouldCount(t.submissions[i], t.schedules[k.assignment]) {
      assert AssignmentWellFormed(t, t.submissions[i]);
      assert ShouldCount(t'.submissions[i], t'.schedules[k.assignment]);
    }
  }

  // ---- Settings and rows ---------------------------------------------------------

  lemma SettingsKeepRecords(t: Tables, step: Step)
    requires Enabled(t, step) && Setting(step)
    ensures Next(t, step).rows == t.rows && Next(t, step).ranks == t.ranks
    ensures step.Submit? || Next(t, step).submissions == t.submissions
  {
  }

  lemma SettingsWellFormed(t: Tables, step: Step)
    requires WellFormed(t) && Enabled(t, step) && Setting(step)
    ensures WellFormed(Next(t, step))
  {
    if step.Submit? {
      SubmitWellFormed(t, step.submission);
    } else if step.UpdateSchedule? {
      RescheduleWellFormed(t, step.id, step.newStart, step.newEnd);
    } else {
      hide Reschedule;
      var t' := Next(t, step);
      forall i | 0 <= i < |t.submissions| ensures AssignmentWellFormed(t', t'.submissions[i]) {
        assert AssignmentWellFormed(t, t.submissions[i]);
      }
    }
  }

  lemma StartStays(t: Tables, step: Step, k: Key)
    requires WellFormed(t) && Counted(t, k) && Enabled(t, step) && Setting(step)
    ensures k.assignment in Next(t, step).schedules
    ensures Next(t, step).schedules[k.assignment].start == t.schedules[k.assignment].start
    ensures (k.assignment, k.problem) in t.problems && (k.assignment, k.problem) in Next(t, step).problems
  {
    var i :| 0 <= i < |t.submissions| && Matches(t.submissions[i], k);
    assert AssignmentWellFormed(t, t.submissions[i]);
    if step.UpdateSchedule? && step.id == k.assignment {
      NoStart(t, step.id, step.newStart, step.newEnd, i);
    }
  }

  lemma SettingsKeepSnapshots(t: Tables, step: Step, k: Key, e: int)
    requires WellFormed(t) && Counted(t, k) && Enabled(t, step) && Setting(step)
    ensures k.assignment in Next(t, step).schedules
    ensures Snapshot(Next(t, step), k, Next(t, step).schedules[k.assignment].start, e)
         == Snapshot(t, k, t.schedules[k.assignment].start, e)
  {
    StartStays(t, step, k);
    hide WellFormed, Counted, MakeRow;
    if step.Submit? {
      SubmitSnapshot(t, step.submission, k, t.schedules[k.assignment].start, e);
    }
  }

  lemma SettingsKeepCounted(t: Tables, step: Step, k: Key)
    requires WellFormed(t) && Counted(t, k) && Enabled(t, step) && Setting(step)
    ensures Counted(Next(t, step), k)
  {
    StartStays(t, step, k);
    WindowOnlyWidens(t, step, k.assignment);
    var t' := Next(t, step);
    var i :| 0 <= i < |t.submissions| && Matches(t.submissions[i], k)
             && ShouldCount(t.submissions[i], t.schedules[k.assignment]);
    assert step.Submit? ==> t'.submissions[i] == t.submissions[i];
    assert Matches(t'.submissions[i], k) && ShouldCount(t'.submissions[i], t'.schedules[k.assignment]);
  }

  /** The step leaves the row of this key behind: it takes judged submissions of the key into the window. */
  ghost predicate Staled(t: Tables, step: Step, k: Key) {
    step.UpdateSchedule? && step.id in t.schedules
    && TakesInFor(t, step.id, GetOr(step.newEnd, t.schedules[step.id].end), k)
  }

  lemma SettingCounted(t: Tables, step: Step, k: Key)
    requires WellFormed(t) && Enabled(t, step) && Setting(step) && !Staled(t, step, k)
    ensures Counted(Next(t, step), k) <==> Counted(t, k)
  {
    if step.Submit? {
      SubmitCounted(t, step.submission, k);
    } else if step.UpdateSchedule? {
      hide Next, Enabled, Counted, WellFormed;
      RescheduleCounted(t, step.id, step.newStart, step.newEnd, k);
    } else {
      hide WellFormed, Counted;
      SameCounted(t, Next(t, step), k);
    }
  }

  lemma SettingSnapshot(t: Tables, step: Step, k: Key)
    requires WellFormed(t) && Counted(t, k) && Enabled(t, step) && Setting(step) && !Staled(t, step, k)
    ensures k.assignment in t.schedules && k.assignment in Next(t, step).schedules
    ensures var was, now := t.schedules[k.assignment], Next(t, step).schedules[k.assignment];
            Snapshot(Next(t, step), k, now.start, now.end) == Snapshot(t, k, was.start, was.end)
  {
    CountedIsScheduled(t, k);
    SettingsKeepSnapshots(t, step, k, t.schedules[k.assignment].end);
    if step.UpdateSchedule? {
      RescheduleTouches(t, step.id, step.newStart, step.newEnd);
      var now := Next(t, step).schedules[k.assignment];
      SnapshotReads(t, Next(t, step), k, now.start, now.end);
      hide Next, Enabled, WellFormed, Snapshot, Counted, Reschedule;
      if k.assignment == step.id {
        SameSnapshot(t, step.id, step.newStart, step.newEnd, k);
      }
    } else {
      hide WellFormed, Snapshot, Counted;
    }
  }

  /** A setting that does not stale the key leaves its row as exact as it was. */
  lemma SettingExact(t: Tables, step: Step, k: Key)
    requires WellFormed(t) && Enabled(t, step) && Setting(step) && !Staled(t, step, k)
    ensures Exact(Next(t, step), k) <==> Exact(t, k)
  {
    SettingsKeepRecords(t, step);
    SettingCounted(t, step, k);
    hide Next, Enabled, WellFormed, Snapshot, Counted, Staled;
    if Counted(t, k) {
      SettingSnapshot(t, step, k);
    }
  }

  /** A setting that stales it leaves it wrong: absent, or with too small a count. */
  lemma StaledIsInexact(t: Tables, step: Step, k: Key)
    requires WellFormed(t) && (k in t.rows ==> RowSafe(t, k)) && Enabled(t, step) && Staled(t, step, k)
    ensures !Exact(Next(t, step), k)
  {
    var id, newEnd := step.id, step.newEnd;
    var t' := Next(t, step);
    var was := t.schedules[id];
    var i :| 0 <= i < |t.submissions| && Matches(t.submissions[i], k) && Judge.Terminal(t.submissions[i].status)
             && was.end < t.submissions[i].createdAt <= GetOr(newEnd, was.end);
    NoStart(t, id, step.newStart, newEnd, i);
    SameStart(t, id, newEnd);
    RescheduleTouches(t, id, step.newStart, newEnd);
    var s, now := t.submissions[i], t'.schedules[id];
    assert AssignmentWellFormed(t, s) && id > 0;
    assert ShouldCount(s, now) && Counted(t', k);
    SnapshotReads(t, t', k, now.start, now.end);
    hide Reschedule, Next, Enabled, WellFormed, Snapshot, ShouldCount, AssignmentWellFormed, Counted;
    if k in t.rows {
      var e :| e <= was.end && IsSnapshot(t, k, e);
      SnapshotLags(t, k, i, was.start, e, now.end);
    }
  }

  lemma SettingsSafe(t: Tables, step: Step)
    requires Safe(t) && Enabled(t, step) && Setting(step)
    ensures Safe(Next(t, step))
  {
    var t' := Next(t, step);
    SettingsKeepRecords(t, step);
    SettingsWellFormed(t, step);
    RanksDependOnTables(t, t');
    forall k | k in t'.rows ensures RowSafe(t', k) {
      assert RowSafe(t, k);
      var e :| e <= t.schedules[k.assignment].end && IsSnapshot(t, k, e);
      SettingsKeepSnapshots(t, step, k, e);
      WindowOnlyWidens(t, step, k.assignment);
      SettingsKeepCounted(t, step, k);
      hide RanksExact, Next, Enabled, WellFormed, Snapshot, Counted;
      assert IsSnapshot(t', k, e);
    }
  }

  // ---- Judging -----------------------------------------------------------------------

  lemma UpdateSafe(t: Tables, index: nat, status: Judge.Status, accepted: bool)
    requires Safe(t) && Enabled(t, Update(index, status, accepted))
    ensures Safe(UpdateSubmission(t, index, status, accepted))
  {
    var t' := UpdateSubmission(t, index, status, accepted);
    UpdateWellFormed(t, index, status, accepted);
    RanksAfterUpdate(t, index, status, accepted);
    hide UpdateSubmission, RowSafe, RanksExact, WellFormed, Rebuilds, Enabled;
    forall k | k in t'.rows ensures RowSafe(t', k) {
      UpdateShape(t, index, status, accepted, k);
      if Rebuilds(t, index, status, k) {
        RebuiltSafe(t, index, status, accepted, k);
      } else {
        KeptSafe(t, index, status, accepted, k);
      }
    }
  }

  lemma RebuiltSafe(t: Tables, index: nat, status: Judge.Status, accepted: bool, k: Key)
    requires WellFormed(t) && Enabled(t, Update(index, status, accepted)) && Rebuilds(t, index, status, k)
    ensures k in UpdateSubmission(t, index, status, accepted).rows
    ensures RowSafe(UpdateSubmission(t, index, status, accepted), k)
  {
    var t' := UpdateSubmission(t, index, status, accepted);
    CountedAfterUpdate(t, index, status, accepted, k);
    UpdateShape(t, index, status, accepted, k);
    assert Matches(t'.submissions[index], k) && ShouldCount(t'.submissions[index], t.schedules[k.assignment]);
    hide UpdateSubmission, Snapshot, WellFormed, RankOf, Counted, Rebuilds, Enabled;
    assert IsSnapshot(t', k, t.schedules[k.assignment].end);
  }

  lemma KeptSafe(t: Tables, index: nat, status: Judge.Status, accepted: bool, k: Key)
    requires WellFormed(t) && k in t.rows && RowSafe(t, k)
    requires Enabled(t, Update(index, status, accepted)) && !Rebuilds(t, index, status, k)
    ensures k in UpdateSubmission(t, index, status, accepted).rows
    ensures RowSafe(UpdateSubmission(t, index, status, accepted), k)
  {
    var t' := UpdateSubmission(t, index, status, accepted);
    CountedAfterUpdate(t, index, status, accepted, k);
    UpdateShape(t, index, status, accepted, k);
    CountedIsScheduled(t, k);
    var e :| e <= t.schedules[k.assignment].end && IsSnapshot(t, k, e);
    SnapshotStays(t, index, status, accepted, k, e);
    hide UpdateSubmission, Snapshot, WellFormed, RankOf, Counted, Rebuilds, Enabled;
    assert IsSnapshot(t', k, e);
  }

  // ---- Renumbering a problem ------------------------------------------------------------

  /** The key under its number before the renumbering. */
  function Before(k: Key, was: int, now: int): Key {
    if k.problem == now then k.(problem := was) else k
  }

  lemma {:induction false} FoldRenumbered(
      subs: seq<Submission>, k: Key, was: int, now: int, listed: bool, start: int, end: int)
    requires k.problem != was && forall i | 0 <= i < |subs| :: subs[i].problem != now
    ensures Fold(RenumberedSubmissions(subs, was, now), k, listed, start, end)
         == Fold(subs, Before(k, was, now), listed, start, end)
  {
    if subs != [] {
      var n := |subs| - 1;
      assert RenumberedSubmissions(subs, was, now)[..n] == RenumberedSubmissions(subs[..n], was, now);
      FoldRenumbered(subs[..n], k, was, now, listed, start, end);
    }
  }

  lemma RenumberedMatches(t: Tables, was: int, now: int, k: Key, i: nat)
    requires Enabled(t, Renumber(was, now)) && i < |t.submissions|
    ensures var s := RenumberedSubmissions(t.submissions, was, now)[i];
            Matches(s, k) <==> k.problem != was && Matches(t.submissions[i], Before(k, was, now))
  {
  }

  lemma RenumberedCounted(t: Tables, was: int, now: int, k: Key)
    requires Enabled(t, Renumber(was, now))
    ensures Counted(Next(t, Renumber(was, now)), k) <==> k.problem != was && Counted(t, Before(k, was, now))
  {
    var t' := Next(t, Renumber(was, now));
    forall i: nat | i < |t.submissions|
      ensures Matches(t'.submissions[i], k) <==> k.problem != was && Matches(t.submissions[i], Before(k, was, now))
    {
      RenumberedMatches(t, was, now, k, i);
    }
    forall i: nat, sched | i < |t.submissions|
      ensures ShouldCount(t'.submissions[i], sched) <==> ShouldCount(t.submissions[i], sched)
    {
    }
    hide Matches, ShouldCount, Enabled;
    if i :| 0 <= i < |t.submissions| && k.assignment in t.schedules && Matches(t'.submissions[i], k)
            && ShouldCount(t'.submissions[i], t'.schedules[k.assignment]) {
      assert Matches(t.submissions[i], Before(k, was, now));
    }
    if k.problem != was {
      if i :| 0 <= i < |t.submissions| && k.assignment in t.schedules && Matches(t.submissions[i], Before(k, was, now))
              && ShouldCount(t.submissions[i], t.schedules[k.assignment]) {
        assert Matches(t'.submissions[i], k);
      }
    }
  }

  lemma RenumberedListed(t: Tables, was: int, now: int, a: int, problem: int)
    requires Enabled(t, Renumber(was, now)) && problem != was
    ensures (a, problem) in RenumberedProblems(t.problems, was, now)
            <==> (a, if problem == now then was else problem) in t.problems
  {
    var before := (a, if problem == now then was else problem);
    if before in t.problems {
      assert (before.0, Renamed(before.1, was, now)) in RenumberedProblems(t.problems, was, now);
    }
  }

  lemma RenumberedSnapshot(t: Tables, was: int, now: int, k: Key, start: int, end: int)
    requires Enabled(t, Renumber(was, now)) && k.problem != was
    ensures Snapshot(Next(t, Renumber(was, now)), k, start, end) == Snapshot(t, Before(k, was, now), start, end)
  {
    RenumberedListed(t, was, now, k.assignment, k.problem);
    FoldRenumbered(t.submissions, k, was, now, (Before(k, was, now).assignment, Before(k, was, now).problem) in t.problems, start, end);
    hide Fold, MakeRow, RenumberedSubmissions, RenumberedProblems;
  }

  lemma RenumberWellFormed(t: Tables, was: int, now: int)
    requires WellFormed(t) && Enabled(t, Renumber(was, now))
    ensures WellFormed(Next(t, Renumber(was, now)))
  {
    var t' := Next(t, Renumber(was, now));
    forall i | 0 <= i < |t'.submissions|
      ensures t'.submissions[i].createdAt <= t'.clock && AssignmentWellFormed(t', t'.submissions[i])
    {
      var s := t.submissions[i];
      assert AssignmentWellFormed(t, s);
      if s.assignment.Some? {
        assert (s.assignment.value, Renamed(s.problem, was, now)) in RenumberedProblems(t.problems, was, now);
      }
    }
  }

  /** The tables keep rows under the old number, where nothing will ever find them again. */
  ghost predicate Orphans(t: Tables, step: Step) {
    step.Renumber? && exists k :: k in t.rows && k.problem == step.was
  }

  lemma NoRowsAtNew(t: Tables, was: int, now: int, k: Key)
    requires Safe(t) && Enabled(t, Renumber(was, now)) && k in t.rows
    ensures k.problem != now
  {
    assert RowSafe(t, k);
    var i :| 0 <= i < |t.submissions| && Matches(t.submissions[i], k);
  }

  lemma RenumberTouches(t: Tables, was: int, now: int)
    requires Enabled(t, Renumber(was, now))
    ensures var t' := Next(t, Renumber(was, now));
            && t'.rows == t.rows && t'.ranks == t.ranks && t'.schedules == t.schedules && t'.clock == t.clock
            && |t'.submissions| == |t.submissions|
  {
  }

  /** While no row stands under the old number, the new number is as exact as the old one was. */
  lemma RenumberExact(t: Tables, was: int, now: int, k: Key)
    requires Safe(t) && Enabled(t, Renumber(was, now)) && !Orphans(t, Renumber(was, now))
    ensures Exact(Next(t, Renumber(was, now)), k) <==> k.problem == was || Exact(t, Before(k, was, now))
  {
    RenumberTouches(t, was, now);
    RenumberedCounted(t, was, now, k);
    if k in t.rows {
      NoRowsAtNew(t, was, now, k);
    }
    if k.problem != was && Counted(t, Before(k, was, now)) {
      CountedIsScheduled(t, Before(k, was, now));
      RenumberedSnapshot(t, was, now, k, t.schedules[k.assignment].start, t.schedules[k.assignment].end);
    }
    hide Safe, Snapshot, Counted, Enabled, Next;
  }

  /** Renumbering is safe if and only if no row stands under the old number. */
  lemma RenumberSafe(t: Tables, was: int, now: int)
    requires Safe(t) && Enabled(t, Renumber(was, now))
    ensures Safe(Next(t, Renumber(was, now))) <==> !Orphans(t, Renumber(was, now))
  {
    var step := Renumber(was, now);
    var t' := Next(t, step);
    RenumberWellFormed(t, was, now);
    RanksDependOnTables(t, t');
    forall k | k in t.rows ensures RowSafe(t', k) <==> k.problem != was {
      NoRowsAtNew(t, was, now, k);
      RenumberedRowSafe(t, was, now, k);
    }
    hide WellFormed, RanksExact, RowSafe, Enabled;
    assert t'.rows == t.rows;
    if k :| k in t.rows && k.problem == was {
      assert !RowSafe(t', k);
    }
  }

  lemma RenumberedRowSafe(t: Tables, was: int, now: int, k: Key)
    requires Enabled(t, Renumber(was, now)) && k in t.rows && RowSafe(t, k) && k.problem != now
    ensures k in Next(t, Renumber(was, now)).rows
    ensures RowSafe(Next(t, Renumber(was, now)), k) <==> k.problem != was
  {
    var t' := Next(t, Renumber(was, now));
    RenumberedCounted(t, was, now, k);
    CountedIsScheduled(t, k);
    var e :| e <= t.schedules[k.assignment].end && IsSnapshot(t, k, e);
    if k.problem != was {
      RenumberedSnapshot(t, was, now, k, t.schedules[k.assignment].start, e);
      hide Snapshot, Counted, Enabled;
      assert IsSnapshot(t', k, e);
    }
  }

  // ---- Every step -------------------------------------------------------------------------

  /** Which rows are wrong after the step, from which were wrong before it. */
  ghost function StaleNext(t: Tables, step: Step, stale: iset<Key>): iset<Key>
    requires Enabled(t, step)
  {
    match step
    case Update(index, status, _) => iset k: Key | k in stale && !Rebuilds(t, index, status, k)
    case UpdateSchedule(_, _, _) => stale + iset k: Key | Staled(t, step, k)
    case Renumber(was, now) => iset k: Key | k.problem != was && Before(k, was, now) in stale
    case _ => stale
  }

  ghost function StaleKeys(t: Tables): iset<Key> {
    iset k: Key | !Exact(t, k)
  }

  /** Along a step that orphans no rows, the rows that are wrong are exactly those that StaleNext names. */
  lemma StepExact(t: Tables, step: Step, k: Key)
    requires Safe(t) && Enabled(t, step) && !Orphans(t, step)
    ensures Exact(Next(t, step), k) <==> k !in StaleNext(t, step, StaleKeys(t))
  {
    hide Safe, Exact, Enabled, Next, WellFormed, Staled, Rebuilds, Orphans;
    match step
    case Update(index, status, accepted) =>
      SafeRow(t, k);
      UpdateExact(t, index, status, accepted, k);
    case Renumber(was, now) => RenumberExact(t, was, now, k);
    case _ =>
      SettingStale(t, step, k);
      SettingStepExact(t, step, k);
  }

  lemma SafeRow(t: Tables, k: Key)
    requires Safe(t)
    ensures WellFormed(t) && (k in t.rows ==> RowSafe(t, k))
  {
  }

  lemma SettingStale(t: Tables, step: Step, k: Key)
    requires Enabled(t, step) && Setting(step)
    ensures k in StaleNext(t, step, StaleKeys(t)) <==> Staled(t, step, k) || !Exact(t, k)
  {
    hide Exact, Enabled, TakesInFor;
  }

  lemma SettingStepExact(t: Tables, step: Step, k: Key)
    requires Safe(t) && Enabled(t, step) && Setting(step)
    ensures Exact(Next(t, step), k) <==> !Staled(t, step, k) && Exact(t, k)
  {
    SafeRow(t, k);
    hide Safe, Exact, Enabled, Next, WellFormed, Staled, RowSafe;
    if Staled(t, step, k) {
      StaledIsInexact(t, step, k);
    } else {
      SettingExact(t, step, k);
    }
  }

  lemma UpdateExact(t: Tables, index: nat, status: Judge.Status, accepted: bool, k: Key)
    requires WellFormed(t) && Enabled(t, Update(index, status, accepted))
    ensures Exact(Next(t, Update(index, status, accepted)), k) <==> Rebuilds(t, index, status, k) || Exact(t, k)
  {
    hide Exact, UpdateSubmission, WellFormed;
    ExactAfterUpdate(t, index, status, accepted, k);
  }

  lemma StepWellFormed(t: Tables, step: Step)
    requires WellFormed(t) && RanksExact(t) && Enabled(t, step)
    ensures WellFormed(Next(t, step)) && RanksExact(Next(t, step))
  {
    match step
    case Update(index, status, accepted) =>
      hide WellFormed, RanksExact, UpdateSubmission;
      UpdateWellFormed(t, index, status, accepted);
      RanksAfterUpdate(t, index, status, accepted);
    case Renumber(was, now) =>
      RenumberWellFormed(t, was, now);
      RanksDependOnTables(t, Next(t, step));
      hide WellFormed, RanksExact;
    case _ =>
      SettingsWellFormed(t, step);
      SettingsKeepRecords(t, step);
      RanksDependOnTables(t, Next(t, step));
      hide WellFormed, RanksExact, Next;
  }

  /** Every step keeps the tables safe if and only if it is not a renumbering that orphans rows. */
  lemma StepSafe(t: Tables, step: Step)
    requires Safe(t) && Enabled(t, step)
    ensures Safe(Next(t, step)) <==> !Orphans(t, step)
  {
    hide Safe, Next, Enabled, Orphans;
    match step
    case Update(index, status, accepted) => UpdateStepSafe(t, index, status, accepted);
    case Renumber(was, now) => RenumberSafe(t, was, now);
    case _ =>
      SettingsSafe(t, step);
      OnlyRenumberOrphans(t, step);
  }

  lemma OnlyRenumberOrphans(t: Tables, step: Step)
    requires !step.Renumber?
    ensures !Orphans(t, step)
  {
  }

  lemma UpdateStepSafe(t: Tables, index: nat, status: Judge.Status, accepted: bool)
    requires Safe(t) && Enabled(t, Update(index, status, accepted))
    ensures Safe(Next(t, Update(index, status, accepted))) && !Orphans(t, Update(index, status, accepted))
  {
    hide Safe, UpdateSubmission;
    UpdateSafe(t, index, status, accepted);
  }
}
