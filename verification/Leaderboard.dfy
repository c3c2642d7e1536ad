/**
 * The assignment leaderboard as a materialised view: submissions, the per-problem rows, the rank rows
 * and the schedule they depend on. A transaction is one step.
 */
module Leaderboard {
  import opened Text
  import opened JudgeProtocol

  /** A row of the submissions table, with its final_status; its id is its position plus one. */
  datatype Submission = Submission(
    assignment: Option<int>, user: int, problem: int, status: Status, accepted: bool, createdAt: int)

  datatype Schedule = Schedule(start: int, end: int)

  datatype Key = Key(assignment: int, user: int, problem: int)
  datatype UserKey = UserKey(assignment: int, user: int)

  datatype ProblemRow = ProblemRow(
    count: nat, accepted: bool, firstAccepted: int, lastSubmitted: int, lastStatus: Option<Status>,
    score: int, penalty: int, lastId: nat)

  datatype RankRow = RankRow(solved: int, score: int, penalty: int, rankScore: int, lastId: nat)

  datatype Tables = Tables(
    schedules: map<int, Schedule>, problems: set<(int, int)>, submissions: seq<Submission>,
    rows: map<Key, ProblemRow>, ranks: map<UserKey, RankRow>, clock: int)

  const RANK_SCORE_SOLVED_WEIGHT := 1_000_000_000

  function SecondsFromStart(timestamp: int, start: int): int {
    if timestamp <= 0 || start <= 0 || timestamp <= start then 0 else timestamp - start
  }

  function EncodeRankScore(solved: int, penalty: int): int {
    solved * RANK_SCORE_SOLVED_WEIGHT - penalty
  }

  predicate ShouldCount(s: Submission, sched: Schedule) {
    && s.assignment.Some? && s.assignment.value > 0
    && Terminal(s.status)
    && s.createdAt >= sched.start
    && (sched.end > 0 ==> s.createdAt <= sched.end)
  }

  // ---- The per-problem snapshot -------------------------------------------

  predicate Matches(s: Submission, k: Key) {
    s.assignment == Some(k.assignment) && s.user == k.user && s.problem == k.problem
  }

  /** The WHERE clause of the snapshot queries. */
  predicate Selected(s: Submission, k: Key, start: int, end: int) {
    Matches(s, k) && start <= s.createdAt <= end && s.status !in {Queued, Running}
  }

  datatype Latest = Latest(createdAt: int, id: nat, status: Status)

  datatype Aggregate = Aggregate(
    count: nat, firstAccepted: Option<int>, lastSubmitted: Option<int>, latest: Option<Latest>, lastId: nat)

  const NOTHING := Aggregate(0, None, None, None, 0)

  function Min(a: Option<int>, b: int): Option<int> {
    if a.Some? && a.value <= b then a else Some(b)
  }

  function Max(a: Option<int>, b: int): Option<int> {
    if a.Some? && a.value >= b then a else Some(b)
  }

  function Add(a: Aggregate, s: Submission, id: nat): Aggregate {
    Aggregate(
      a.count + 1,
      if s.accepted then Min(a.firstAccepted, s.createdAt) else a.firstAccepted,
      Max(a.lastSubmitted, s.createdAt),
      if a.latest.Some? && a.latest.value.createdAt > s.createdAt then a.latest
      else Some(Latest(s.createdAt, id, s.status)),
      id)
  }

  /** COUNT, MIN, MAX and the newest row over the selected submissions; `listed` is the join with assignment_problems. */
  function Fold(subs: seq<Submission>, k: Key, listed: bool, start: int, end: int): Aggregate {
    if subs == [] then NOTHING
    else
      var a := Fold(subs[..|subs| - 1], k, listed, start, end);
      var s := subs[|subs| - 1];
      if listed && Selected(s, k, start, end) then Add(a, s, |subs|) else a
  }

  function GetOr(o: Option<int>, default: int): int {
    match o case None => default case Some(v) => v
  }

  function MakeRow(a: Aggregate, start: int): ProblemRow {
    var accepted := a.firstAccepted.Some?;
    ProblemRow(
      a.count, accepted, GetOr(a.firstAccepted, 0), GetOr(a.lastSubmitted, 0),
      match a.latest { case None => None case Some(l) => Some(l.status) },
      if accepted then 100 else 0,
      if accepted then SecondsFromStart(a.firstAccepted.value, start) else 0,
      a.lastId)
  }

  function Snapshot(t: Tables, k: Key, start: int, end: int): ProblemRow {
    MakeRow(Fold(t.submissions, k, (k.assignment, k.problem) in t.problems, start, end), start)
  }

  // ---- The rank snapshot ----------------------------------------------------

  datatype Totals = Totals(solved: int, score: int, penalty: int, lastId: nat)

  function Plus(x: Totals, y: Totals): Totals {
    Totals(x.solved + y.solved, x.score + y.score, x.penalty + y.penalty,
           if x.lastId >= y.lastId then x.lastId else y.lastId)
  }

  function RowTotals(r: ProblemRow): Totals {
    Totals(if r.accepted then 1 else 0, r.score, r.penalty, r.lastId)
  }

  /** The sums over a user's rows, whatever order the database reads them in. */
  ghost function Sum(rows: map<int, ProblemRow>): Totals {
    if exists p :: p in rows then var p :| p in rows; Plus(RowTotals(rows[p]), Sum(rows - {p})) else Totals(0, 0, 0, 0)
  }

  lemma {:induction false} SumTakes(rows: map<int, ProblemRow>, p: int)
    requires p in rows
    ensures Sum(rows) == Plus(RowTotals(rows[p]), Sum(rows - {p}))
    decreases rows
  {
    var q :| q in rows && Sum(rows) == Plus(RowTotals(rows[q]), Sum(rows - {q}));
    if q != p {
      var rest := rows - {p} - {q};
      assert rest == rows - {q} - {p};
      SumTakes(rows - {q}, p);
      SumTakes(rows - {p}, q);
      calc {
        Sum(rows);
        Plus(RowTotals(rows[q]), Plus(RowTotals(rows[p]), Sum(rest)));
        Plus(RowTotals(rows[p]), Plus(RowTotals(rows[q]), Sum(rest)));
        Plus(RowTotals(rows[p]), Sum(rows - {p}));
      }
    }
  }

  function UserRows(rows: map<Key, ProblemRow>, u: UserKey): map<int, ProblemRow> {
    map k | k in rows && k.assignment == u.assignment && k.user == u.user :: k.problem := rows[k]
  }

  ghost function RankOf(rows: map<Key, ProblemRow>, u: UserKey): RankRow {
    var s := Sum(UserRows(rows, u));
    RankRow(s.solved, s.score, s.penalty, EncodeRankScore(s.solved, s.penalty), s.lastId)
  }

  // ---- Transactions ---------------------------------------------------------

  datatype Step =
    | CreateAssignment(id: int, schedule: Schedule, listed: set<int>)
    | UpdateSchedule(id: int, newStart: Option<int>, newEnd: Option<int>)
    | AddProblem(id: int, problem: int)
    | Submit(submission: Submission)
    | Update(index: nat, status: Status, accepted: bool)
    | Renumber(was: int, now: int)
    | Tick(now: int)

  function Renamed(problem: int, was: int, now: int): int {
    if problem == was then now else problem
  }

  /** The foreign key of submissions follows the new number of a problem. */
  function RenumberedSubmissions(subs: seq<Submission>, was: int, now: int): (r: seq<Submission>)
    ensures |r| == |subs|
    ensures forall i | 0 <= i < |subs| :: r[i] == subs[i].(problem := Renamed(subs[i].problem, was, now))
  {
    seq(|subs|, i requires 0 <= i < |subs| => subs[i].(problem := Renamed(subs[i].problem, was, now)))
  }

  /** So does that of the problem lists. */
  function RenumberedProblems(problems: set<(int, int)>, was: int, now: int): set<(int, int)> {
    set x | x in problems :: (x.0, Renamed(x.1, was, now))
  }

  /** The checks of update_assignment; None when it throws. */
  function Reschedule(was: Schedule, newStart: Option<int>, newEnd: Option<int>, now: int): Option<Schedule> {
    if newStart.Some? && (now >= was.start || newStart.value <= 0 || newStart.value >= was.start) then None
    else if newEnd.Some? && newEnd.value <= was.end then None
    else
      var start, end := GetOr(newStart, was.start), GetOr(newEnd, was.end);
      if end <= start then None else Some(Schedule(start, end))
  }

  /**
   * Of a proper schedule exactly these changes are accepted: an earlier positive start before the old one has
   * come, and a later end. The last check never fires.
   */
  lemma RescheduleAccepts(was: Schedule, newStart: Option<int>, newEnd: Option<int>, now: int)
    requires was.start < was.end
    ensures Reschedule(was, newStart, newEnd, now).Some? <==>
              && (newStart.Some? ==> now < was.start && 0 < newStart.value < was.start)
              && (newEnd.Some? ==> was.end < newEnd.value)
    ensures Reschedule(was, newStart, newEnd, now).Some? ==>
              var to := Reschedule(was, newStart, newEnd, now).value;
              && (if newStart.Some? then to.start == newStart.value else to.start == was.start)
              && (if newEnd.Some? then to.end == newEnd.value else to.end == was.end)
  {
  }

  predicate Enabled(t: Tables, step: Step) {
    match step
    case CreateAssignment(id, schedule, _) =>
      id > 0 && id !in t.schedules && 0 < schedule.start < schedule.end
    case UpdateSchedule(id, newStart, newEnd) =>
      id in t.schedules && Reschedule(t.schedules[id], newStart, newEnd, t.clock).Some?
    case AddProblem(id, problem) =>
      id in t.schedules && t.clock <= t.schedules[id].end && (id, problem) !in t.problems
    case Submit(s) =>
      && s.status == Queued && s.createdAt == t.clock
      && (s.assignment.Some? ==>
            && s.assignment.value in t.schedules && (s.assignment.value, s.problem) in t.problems
            && t.clock >= t.schedules[s.assignment.value].start)
    case Update(index, status, _) =>
      && index < |t.submissions|
      && (Terminal(t.submissions[index].status) ==> Terminal(status))
    case Renumber(was, now) =>
      && was != now && now > 0
      && (forall x | x in t.problems :: x.1 != now)
      && (forall i | 0 <= i < |t.submissions| :: t.submissions[i].problem != now)
    case Tick(now) => now >= t.clock
  }

  /** update_submission: the record, then the row of its key and the rank row of its user. */
  ghost function UpdateSubmission(t: Tables, index: nat, status: Status, accepted: bool): Tables
    requires index < |t.submissions|
  {
    var s := t.submissions[index].(status := status, accepted := accepted);
    var t1 := t.(submissions := t.submissions[index := s]);
    if s.assignment.None? || s.assignment.value !in t.schedules || !ShouldCount(s, t.schedules[s.assignment.value]) then t1
    else
      var sched := t.schedules[s.assignment.value];
      var k := Key(s.assignment.value, s.user, s.problem);
      var u := UserKey(k.assignment, k.user);
      var rows := t.rows[k := Snapshot(t1, k, sched.start, sched.end)];
      t1.(rows := rows, ranks := t.ranks[u := RankOf(rows, u)])
  }

  ghost function Next(t: Tables, step: Step): Tables
    requires Enabled(t, step)
  {
    match step
    case CreateAssignment(id, schedule, listed) =>
      t.(schedules := t.schedules[id := schedule], problems := t.problems + set p | p in listed :: (id, p))
    case UpdateSchedule(id, newStart, newEnd) =>
      t.(schedules := t.schedules[id := Reschedule(t.schedules[id], newStart, newEnd, t.clock).value])
    case AddProblem(id, problem) => t.(problems := t.problems + {(id, problem)})
    case Submit(s) => t.(submissions := t.submissions + [s])
    case Update(index, status, accepted) => UpdateSubmission(t, index, status, accepted)
    case Renumber(was, now) =>
      t.(problems := RenumberedProblems(t.problems, was, now),
         submissions := RenumberedSubmissions(t.submissions, was, now))
    case Tick(now) => t.(clock := now)
  }

  // ---- The invariants ---------------------------------------------------------

  predicate AssignmentWellFormed(t: Tables, s: Submission) {
    s.assignment.Some? ==>
      && s.assignment.value in t.schedules && (s.assignment.value, s.problem) in t.problems
      && t.schedules[s.assignment.value].start <= s.createdAt
  }

  /** Schedules are proper and every submission lies in the past, at or after its assignment's start. */
  ghost predicate WellFormed(t: Tables) {
    && (forall a | a in t.schedules :: a > 0 && 0 < t.schedules[a].start < t.schedules[a].end)
    && (forall i | 0 <= i < |t.submissions| ::
          t.submissions[i].createdAt <= t.clock && AssignmentWellFormed(t, t.submissions[i]))
  }

  /** Some submission of this key is counted under the current schedule. */
  ghost predicate Counted(t: Tables, k: Key) {
    k.assignment in t.schedules &&
    exists i :: 0 <= i < |t.submissions| && Matches(t.submissions[i], k)
                && ShouldCount(t.submissions[i], t.schedules[k.assignment])
  }

  /** The rank table is always the view of the problem rows. */
  ghost predicate RanksExact(t: Tables) {
    && (forall u | u in t.ranks :: t.ranks[u] == RankOf(t.rows, u))
    && (forall k | k in t.rows :: UserKey(k.assignment, k.user) in t.ranks)
    && (forall u | u in t.ranks :: exists p :: Key(u.assignment, u.user, p) in t.rows)
  }

  /** The row of the key is what the submissions and the schedule determine; there is none if nothing counts. */
  ghost predicate Exact(t: Tables, k: Key) {
    if k in t.rows then
      Counted(t, k) && t.rows[k] == Snapshot(t, k, t.schedules[k.assignment].start, t.schedules[k.assignment].end)
    else !Counted(t, k)
  }

  /** Both tables are exactly what the submissions and the schedule determine. */
  ghost predicate Materialised(t: Tables) {
    WellFormed(t) && RanksExact(t) && forall k :: Exact(t, k)
  }

  ghost predicate IsSnapshot(t: Tables, k: Key, e: int)
    requires k in t.rows && k.assignment in t.schedules
  {
    t.rows[k] == Snapshot(t, k, t.schedules[k.assignment].start, e)
  }

  /** The row is the view of some earlier window, no wider than the current one. */
  ghost predicate RowSafe(t: Tables, k: Key)
    requires k in t.rows
  {
    Counted(t, k) &&
    exists e :: e <= t.schedules[k.assignment].end && IsSnapshot(t, k, e)
  }

  ghost predicate Safe(t: Tables) {
    WellFormed(t) && RanksExact(t) && forall k | k in t.rows :: RowSafe(t, k)
  }

  lemma ExactIsSafe(t: Tables, k: Key)
    requires k in t.rows && Exact(t, k)
    ensures RowSafe(t, k)
  {
    hide Snapshot;
    assert IsSnapshot(t, k, t.schedules[k.assignment].end);
  }

  lemma MaterialisedIsSafe(t: Tables)
    requires Materialised(t)
    ensures Safe(t)
  {
    hide RanksExact, WellFormed, Exact, RowSafe;
    forall k | k in t.rows ensures RowSafe(t, k) {
      ExactIsSafe(t, k);
    }
  }

  // ---- Folding and updates ----------------------------------------------------

  lemma {:induction false} FoldUpdate(subs: seq<Submission>, i: nat, s: Submission, k: Key, listed: bool, start: int, end: int)
    requires i < |subs| && !Selected(subs[i], k, start, end) && !Selected(s, k, start, end)
    ensures Fold(subs[i := s], k, listed, start, end) == Fold(subs, k, listed, start, end)
    decreases |subs|
  {
    var n := |subs| - 1;
    if i == n {
      assert subs[i := s][..n] == subs[..n];
    } else {
      assert subs[i := s][..n] == subs[..n][i := s];
      FoldUpdate(subs[..n], i, s, k, listed, start, end);
    }
  }

  lemma FoldAppend(subs: seq<Submission>, s: Submission, k: Key, listed: bool, start: int, end: int)
    requires !Selected(s, k, start, end)
    ensures Fold(subs + [s], k, listed, start, end) == Fold(subs, k, listed, start, end)
  {
    assert (subs + [s])[..|subs|] == subs;
  }

  /** The rank row of a user depends on that user's rows only. */
  lemma RankIgnoresOthers(rows: map<Key, ProblemRow>, k: Key, row: ProblemRow, u: UserKey)
    requires UserKey(k.assignment, k.user) != u
    ensures RankOf(rows[k := row], u) == RankOf(rows, u)
  {
    assert UserRows(rows[k := row], u) == UserRows(rows, u);
  }

  lemma UpsertRanks(t: Tables, t': Tables, k: Key, row: ProblemRow)
    requires RanksExact(t)
    requires t'.rows == t.rows[k := row]
    requires var u := UserKey(k.assignment, k.user); t'.ranks == t.ranks[u := RankOf(t'.rows, u)]
    ensures RanksExact(t')
  {
    var u := UserKey(k.assignment, k.user);
    forall v | v in t'.ranks
      ensures t'.ranks[v] == RankOf(t'.rows, v) && exists p :: Key(v.assignment, v.user, p) in t'.rows
    {
      if v == u {
        assert Key(v.assignment, v.user, k.problem) in t'.rows;
      } else {
        RankIgnoresOthers(t.rows, k, row, v);
        var p :| Key(v.assignment, v.user, p) in t.rows;
        assert Key(v.assignment, v.user, p) in t'.rows;
      }
    }
  }

  /** In a proper schedule the two filters of the source select the same submissions. */
  lemma FiltersAgree(t: Tables, s: Submission, k: Key)
    requires WellFormed(t) && k.assignment in t.schedules && Matches(s, k)
    ensures var sched := t.schedules[k.assignment];
            ShouldCount(s, sched) <==> Selected(s, k, sched.start, sched.end)
  {
  }

  lemma UpdateWellFormed(t: Tables, index: nat, status: Status, accepted: bool)
    requires WellFormed(t) && index < |t.submissions|
    ensures WellFormed(UpdateSubmission(t, index, status, accepted))
  {
    hide RankOf, Snapshot;
    var t' := UpdateSubmission(t, index, status, accepted);
    forall i | 0 <= i < |t'.submissions|
      ensures t'.submissions[i].createdAt <= t'.clock && AssignmentWellFormed(t', t'.submissions[i])
    {
      assert AssignmentWellFormed(t, t.submissions[i]);
    }
  }

  /** The snapshot of every other key is unchanged, and that of the own key when it does not count. */
  lemma SnapshotStays(t: Tables, index: nat, status: Status, accepted: bool, k: Key, end: int)
    requires WellFormed(t) && Enabled(t, Update(index, status, accepted))
    requires k.assignment in t.schedules && end <= t.schedules[k.assignment].end
    requires var s := t.submissions[index].(status := status);
             !(Matches(s, k) && ShouldCount(s, t.schedules[k.assignment]))
    ensures var start := t.schedules[k.assignment].start;
            Snapshot(UpdateSubmission(t, index, status, accepted), k, start, end) == Snapshot(t, k, start, end)
  {
    hide RankOf, MakeRow;
    var sched := t.schedules[k.assignment];
    var s' := t.submissions[index].(status := status, accepted := accepted);
    FoldUpdate(t.submissions, index, s', k, (k.assignment, k.problem) in t.problems, sched.start, end);
  }

  /** The key whose row the update rebuilds, if it rebuilds one. */
  predicate Rebuilds(t: Tables, index: nat, status: Status, k: Key)
    requires index < |t.submissions|
  {
    var s := t.submissions[index].(status := status);
    k.assignment in t.schedules && Matches(s, k) && ShouldCount(s, t.schedules[k.assignment])
  }

  lemma UpdateShape(t: Tables, index: nat, status: Status, accepted: bool, k: Key)
    requires WellFormed(t) && index < |t.submissions|
    ensures var t' := UpdateSubmission(t, index, status, accepted);
            && t'.schedules == t.schedules && t'.problems == t.problems && t'.clock == t.clock
            && t'.submissions == t.submissions[index := t.submissions[index].(status := status, accepted := accepted)]
            && (if Rebuilds(t, index, status, k) then
                  var sched, u := t.schedules[k.assignment], UserKey(k.assignment, k.user);
                  && t'.rows == t.rows[k := Snapshot(t', k, sched.start, sched.end)]
                  && t'.ranks == t.ranks[u := RankOf(t'.rows, u)]
                else (k in t'.rows <==> k in t.rows) && (k in t.rows ==> t'.rows[k] == t.rows[k]))
            && ((t'.rows == t.rows && t'.ranks == t.ranks) || exists own :: Rebuilds(t, index, status, own))
  {
    hide RankOf, MakeRow;
    var s := t.submissions[index].(status := status);
    if s.assignment.Some? && s.assignment.value in t.schedules && ShouldCount(s, t.schedules[s.assignment.value]) {
      assert Rebuilds(t, index, status, Key(s.assignment.value, s.user, s.problem));
    }
  }

  /** An update makes its own row exact and leaves every other as exact as it was. */
  lemma ExactAfterUpdate(t: Tables, index: nat, status: Status, accepted: bool, k: Key)
    requires WellFormed(t) && Enabled(t, Update(index, status, accepted))
    ensures Exact(UpdateSubmission(t, index, status, accepted), k) <==> Rebuilds(t, index, status, k) || Exact(t, k)
  {
    hide UpdateSubmission, Snapshot, RankOf, RanksExact, WellFormed;
    UpdateShape(t, index, status, accepted, k);
    CountedAfterUpdate(t, index, status, accepted, k);
    hide Counted;
    if k in t.rows && Counted(t, k) && !Rebuilds(t, index, status, k) {
      CountedIsScheduled(t, k);
      SnapshotStays(t, index, status, accepted, k, t.schedules[k.assignment].end);
    }
  }

  lemma CountedIsScheduled(t: Tables, k: Key)
    requires Counted(t, k)
    ensures k.assignment in t.schedules
  {
  }

  lemma RanksAfterUpdate(t: Tables, index: nat, status: Status, accepted: bool)
    requires WellFormed(t) && RanksExact(t) && index < |t.submissions|
    ensures RanksExact(UpdateSubmission(t, index, status, accepted))
  {
    var t' := UpdateSubmission(t, index, status, accepted);
    UpdateShape(t, index, status, accepted, Key(0, 0, 0));
    hide UpdateSubmission, RankOf, Snapshot, RanksExact;
    if own :| Rebuilds(t, index, status, own) {
      UpdateShape(t, index, status, accepted, own);
      UpsertRanks(t, t', own, t'.rows[own]);
    } else {
      RanksDependOnTables(t, t');
    }
  }

  lemma RanksDependOnTables(t: Tables, t': Tables)
    requires RanksExact(t) && t'.rows == t.rows && t'.ranks == t.ranks
    ensures RanksExact(t')
  {
  }

  /** Judging a submission, in whatever order, leaves the tables exact. */
  lemma UpdateMaterialised(t: Tables, index: nat, status: Status, accepted: bool)
    requires Materialised(t) && Enabled(t, Update(index, status, accepted))
    ensures Materialised(UpdateSubmission(t, index, status, accepted))
  {
    hide UpdateSubmission, WellFormed, RanksExact, Exact;
    UpdateWellFormed(t, index, status, accepted);
    RanksAfterUpdate(t, index, status, accepted);
    forall k ensures Exact(UpdateSubmission(t, index, status, accepted), k) {
      ExactAfterUpdate(t, index, status, accepted, k);
    }
  }

  lemma CountedAfterUpdate(t: Tables, index: nat, status: Status, accepted: bool, k: Key)
    requires WellFormed(t) && Enabled(t, Update(index, status, accepted))
    ensures var t' := UpdateSubmission(t, index, status, accepted);
            Counted(t', k) <==>
              Counted(t, k) ||
              (k.assignment in t.schedules && Matches(t'.submissions[index], k)
               && ShouldCount(t'.submissions[index], t.schedules[k.assignment]))
  {
    hide RankOf, Snapshot;
    var t' := UpdateSubmission(t, index, status, accepted);
    if Counted(t, k) {
      var i :| 0 <= i < |t.submissions| && Matches(t.submissions[i], k)
               && ShouldCount(t.submissions[i], t.schedules[k.assignment]);
      assert Matches(t'.submissions[i], k) && ShouldCount(t'.submissions[i], t'.schedules[k.assignment]);
    }
    if Counted(t', k) {
      var i :| 0 <= i < |t'.submissions| && Matches(t'.submissions[i], k)
               && ShouldCount(t'.submissions[i], t'.schedules[k.assignment]);
      assert i != index ==> Matches(t.submissions[i], k);
    }
  }
}
