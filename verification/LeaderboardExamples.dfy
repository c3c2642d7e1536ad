/** Runs from the empty database: a first acceptance, and the two ways in which rows go wrong. */
module LeaderboardExamples {
  import opened Text
  import Judge = JudgeProtocol
  import opened Leaderboard
  import opened LeaderboardRuns
  import opened LeaderboardSafety

  const OK := Judge.Judged(Judge.Ok)

  // ---- Putting runs together ---------------------------------------------------

  lemma RunCons(t: Tables, step: Step, rest: seq<Step>)
    requires Enabled(t, step) && IsRun(Next(t, step), rest)
    ensures IsRun(t, [step] + rest) && After(t, [step] + rest) == After(Next(t, step), rest)
  {
    hide Enabled, Next;
    assert ([step] + rest)[1..] == rest;
  }

  lemma RunOfThree(t: Tables, a: Step, b: Step, c: Step)
    requires Enabled(t, a) && Enabled(Next(t, a), b) && Enabled(Next(Next(t, a), b), c)
    ensures IsRun(t, [a, b, c]) && After(t, [a, b, c]) == Next(Next(Next(t, a), b), c)
  {
    var t1 := Next(t, a);
    var t2 := Next(t1, b);
    hide Next, Enabled;
    assert IsRun(Next(t2, c), []) && After(Next(t2, c), []) == Next(t2, c);
    hide IsRun, After;
    RunCons(t2, c, []);
    RunCons(t1, b, [c]);
    RunCons(t, a, [b, c]);
    assert [c] + [] == [c] && [b] + [c] == [b, c] && [a] + [b, c] == [a, b, c];
  }

  lemma RunOfFour(t: Tables, a: Step, b: Step, c: Step, d: Step)
    requires Enabled(t, a) && Enabled(Next(t, a), b) && Enabled(Next(Next(t, a), b), c)
    requires Enabled(Next(Next(Next(t, a), b), c), d)
    ensures IsRun(t, [a, b, c, d]) && After(t, [a, b, c, d]) == Next(Next(Next(Next(t, a), b), c), d)
  {
    hide Next, Enabled, IsRun, After;
    RunOfThree(Next(t, a), b, c, d);
    RunCons(t, a, [b, c, d]);
    assert [a] + [b, c, d] == [a, b, c, d];
  }

  lemma {:induction false} RunConcat(t: Tables, one: seq<Step>, two: seq<Step>)
    requires IsRun(t, one) && IsRun(After(t, one), two)
    ensures IsRun(t, one + two) && After(t, one + two) == After(After(t, one), two)
    decreases |one|
  {
    hide Next, Enabled;
    if one == [] {
      assert one + two == two;
    } else {
      assert (one + two)[1..] == one[1..] + two;
      RunConcat(Next(t, one[0]), one[1..], two);
    }
  }

  // ---- One submission, from the empty database to the board -----------------------

  /** An assignment is created, its start passes, one submission is sent and judged accepted. */
  function FirstAcceptance(s: Schedule, at: int, user: int, problem: int): seq<Step> {
    [CreateAssignment(1, s, {problem}), Tick(at), Submit(Fresh(at, user, problem)), Update(0, OK, true)]
  }

  function Fresh(at: int, user: int, problem: int): Submission {
    Submission(Some(1), user, problem, Judge.Queued, false, at)
  }

  /** One submission sent to assignment 1 and not judged yet. */
  function Sent(s: Schedule, at: int, user: int, problem: int): Tables {
    Tables(map[1 := s], {(1, problem)}, [Fresh(at, user, problem)], map[], map[], at)
  }

  function AcceptedRow(s: Schedule, at: int): ProblemRow {
    ProblemRow(1, true, at, at, Some(OK), 100, at - s.start, 1)
  }

  /** Its submission judged accepted. */
  function Accepted(s: Schedule, at: int, user: int, problem: int): Tables {
    Tables(map[1 := s], {(1, problem)}, [Fresh(at, user, problem).(status := OK, accepted := true)],
           map[Key(1, user, problem) := AcceptedRow(s, at)],
           map[UserKey(1, user) := RankRow(1, 100, at - s.start, 1_000_000_000 - (at - s.start), 1)], at)
  }

  lemma FirstAcceptanceShows(s: Schedule, at: int, user: int, problem: int)
    requires 0 < s.start <= at <= s.end && s.start < s.end
    ensures IsRun(Empty(0), FirstAcceptance(s, at, user, problem))
    ensures After(Empty(0), FirstAcceptance(s, at, user, problem)) == Accepted(s, at, user, problem)
  {
    hide IsRun, After, Next, Enabled, UpdateSubmission;
    SentRun(s, at, user, problem);
    AcceptedTables(s, at, user, problem);
  }

  /** The run of the first acceptance, whether or not the window still counts it. */
  lemma SentRun(s: Schedule, at: int, user: int, problem: int)
    requires 0 < s.start <= at && s.start < s.end
    ensures IsRun(Empty(0), FirstAcceptance(s, at, user, problem))
    ensures After(Empty(0), FirstAcceptance(s, at, user, problem))
         == UpdateSubmission(Sent(s, at, user, problem), 0, OK, true)
  {
    hide IsRun, After, Next, Enabled, UpdateSubmission;
    SentTables(s, at, user, problem);
    JudgeSent(Sent(s, at, user, problem), 0);
    var steps := FirstAcceptance(s, at, user, problem);
    RunOfFour(Empty(0), steps[0], steps[1], steps[2], steps[3]);
    assert steps == [steps[0], steps[1], steps[2], steps[3]];
  }

  lemma JudgeSent(t: Tables, i: nat)
    requires i < |t.submissions|
    ensures Enabled(t, Update(i, OK, true)) && Next(t, Update(i, OK, true)) == UpdateSubmission(t, i, OK, true)
  {
    hide UpdateSubmission;
  }

  lemma SentTables(s: Schedule, at: int, user: int, problem: int)
    requires 0 < s.start <= at && s.start < s.end
    ensures Enabled(Empty(0), CreateAssignment(1, s, {problem}))
    ensures var t1, sent := Next(Empty(0), CreateAssignment(1, s, {problem})), Fresh(at, user, problem);
            && Enabled(t1, Tick(at)) && Enabled(Next(t1, Tick(at)), Submit(sent))
            && Next(Next(t1, Tick(at)), Submit(sent)) == Sent(s, at, user, problem)
  {
    var t1 := Next(Empty(0), CreateAssignment(1, s, {problem}));
    assert (1, problem) in t1.problems;
    assert t1.problems == {(1, problem)};
  }

  lemma AcceptedSnapshot(s: Schedule, at: int, user: int, problem: int)
    requires 0 < s.start <= at <= s.end
    ensures Snapshot(Accepted(s, at, user, problem), Key(1, user, problem), s.start, s.end) == AcceptedRow(s, at)
  {
    var k, judged := Key(1, user, problem), Accepted(s, at, user, problem).submissions[0];
    assert [judged][..0] == [];
    assert Fold([], k, true, s.start, s.end) == NOTHING;
    assert Fold([judged], k, true, s.start, s.end) == Add(NOTHING, judged, 1);
  }

  lemma RankOfOne(s: Schedule, at: int, user: int, problem: int)
    requires 0 < s.start <= at
    ensures RankOf(map[Key(1, user, problem) := AcceptedRow(s, at)], UserKey(1, user))
         == Accepted(s, at, user, problem).ranks[UserKey(1, user)]
  {
    var mine := UserRows(map[Key(1, user, problem) := AcceptedRow(s, at)], UserKey(1, user));
    assert mine == map[problem := AcceptedRow(s, at)];
    SumTakes(mine, problem);
    assert mine - {problem} == map[];
  }

  lemma AcceptedTables(s: Schedule, at: int, user: int, problem: int)
    requires 0 < s.start <= at <= s.end
    ensures UpdateSubmission(Sent(s, at, user, problem), 0, OK, true) == Accepted(s, at, user, problem)
  {
    AcceptedSnapshot(s, at, user, problem);
    RankOfOne(s, at, user, problem);
    SnapshotReads(
      Accepted(s, at, user, problem), Sent(s, at, user, problem).(submissions := Accepted(s, at, user, problem).submissions),
      Key(1, user, problem), s.start, s.end);
    hide Snapshot, RankOf;
    var t' := UpdateSubmission(Sent(s, at, user, problem), 0, OK, true);
    assert t'.submissions == Accepted(s, at, user, problem).submissions;
    assert t'.rows == map[Key(1, user, problem) := AcceptedRow(s, at)];
  }

  /** In its last second an assignment still takes a new problem, and a submission to it; a second later no problem. */
  lemma LastSecond(s: Schedule, user: int, problem: int, other: int)
    requires 0 < s.start < s.end && problem != other
    ensures var steps := [CreateAssignment(1, s, {problem}), Tick(s.end), AddProblem(1, other), Submit(Fresh(s.end, user, other))];
            && IsRun(Empty(0), steps)
            && After(Empty(0), steps) == Tables(
                 map[1 := s], {(1, problem), (1, other)}, [Fresh(s.end, user, other)], map[], map[], s.end)
    ensures !Enabled(Tables(map[1 := s], {(1, problem)}, [], map[], map[], s.end + 1), AddProblem(1, other))
  {
    var t2 := Tables(map[1 := s], {(1, problem)}, [], map[], map[], s.end);
    var t3 := t2.(problems := {(1, problem), (1, other)});
    Opening(s, problem);
    assert Enabled(t2, AddProblem(1, other)) && Next(t2, AddProblem(1, other)) == t3;
    assert Enabled(t3, Submit(Fresh(s.end, user, other)));
    hide Enabled, Next;
    RunOfFour(
      Empty(0), CreateAssignment(1, s, {problem}), Tick(s.end), AddProblem(1, other), Submit(Fresh(s.end, user, other)));
  }

  lemma Opening(s: Schedule, problem: int)
    requires 0 < s.start < s.end
    ensures var t1 := Tables(map[1 := s], {(1, problem)}, [], map[], map[], 0);
            && Enabled(Empty(0), CreateAssignment(1, s, {problem}))
            && Next(Empty(0), CreateAssignment(1, s, {problem})) == t1
            && Enabled(t1, Tick(s.end)) && Next(t1, Tick(s.end)) == t1.(clock := s.end)
  {
    var t := Next(Empty(0), CreateAssignment(1, s, {problem}));
    assert (1, problem) in t.problems;
    assert t.problems == {(1, problem)};
  }

  // ---- An extension that leaves rows behind ------------------------------------------

  lemma LateTables(s: Schedule, at: int, user: int, problem: int, end: int)
    requires 0 < s.start < s.end < at <= end
    ensures var t := UpdateSubmission(Sent(s, at, user, problem), 0, OK, true);
            var extend := UpdateSchedule(1, None, Some(end));
            && t.rows == map[] && Enabled(t, extend) && Lagging(t, extend)
            && Next(t, extend).rows == map[] && Counted(Next(t, extend), Key(1, user, problem))
  {
    var t := UpdateSubmission(Sent(s, at, user, problem), 0, OK, true);
    var k := Key(1, user, problem);
    assert t.submissions == [Fresh(at, user, problem).(status := OK, accepted := true)] && t.schedules == map[1 := s];
    var t' := Next(t, UpdateSchedule(1, None, Some(end)));
    assert Matches(t.submissions[0], k) && Matches(t'.submissions[0], k) && ShouldCount(t'.submissions[0], t'.schedules[1]);
    assert TakesInFor(t, 1, end, k);
  }

  lemma {:induction false} NothingLeftBehind(t: Tables, steps: seq<Step>)
    requires IsRun(t, steps)
    requires forall i | 0 <= i < |steps| :: !steps[i].UpdateSchedule? && !steps[i].Renumber?
    ensures NeverOrphans(t, steps) && StaleRun(t, steps, iset{}) == iset{}
    decreases |steps|
  {
    hide Next, Enabled, StaleNext;
    if steps != [] {
      assert !steps[0].UpdateSchedule? && !steps[0].Renumber?;
      NothingStale(t, steps[0]);
      NothingLeftBehind(Next(t, steps[0]), steps[1..]);
    }
  }

  /**
   * A run that leaves exact tables: an assignment, a submission after its end, judged and rightly not
   * counted, and an extension over it. The submission counts from then on, and no row says so.
   */
  lemma ExtensionLags(s: Schedule, at: int, end: int, user: int, problem: int)
    requires 0 < s.start < s.end < at <= end
    ensures var steps, extend := FirstAcceptance(s, at, user, problem), UpdateSchedule(1, None, Some(end));
            && IsRun(Empty(0), steps) && Materialised(After(Empty(0), steps))
            && var t := After(Empty(0), steps);
               && Enabled(t, extend) && Lagging(t, extend) && !Materialised(Next(t, extend))
               && Next(t, extend).rows == map[] && Counted(Next(t, extend), Key(1, user, problem))
  {
    var steps := FirstAcceptance(s, at, user, problem);
    hide IsRun, After, Next, Enabled, UpdateSubmission, Materialised, Lagging, Counted, NeverOrphans, StaleRun;
    SentRun(s, at, user, problem);
    NothingLeftBehind(Empty(0), steps);
    Reachable(0, steps);
    LateTables(s, at, user, problem, end);
    StepMaterialised(After(Empty(0), steps), UpdateSchedule(1, None, Some(end)));
  }

  // ---- A renumbering that leaves rows behind -------------------------------------------

  /** The first acceptance, a new number for its problem, and the same submission once more, accepted again. */
  function Renumbering(s: Schedule, at: int, user: int, was: int, now: int): seq<Step> {
    FirstAcceptance(s, at, user, was) + [Renumber(was, now), Submit(Fresh(at, user, now)), Update(1, OK, true)]
  }

  /** Both submissions under the new number; the rows and the ranks are still those of the first. */
  function Resent(s: Schedule, at: int, user: int, was: int, now: int): Tables {
    var first := Fresh(at, user, now).(status := OK, accepted := true);
    Accepted(s, at, user, was).(problems := {(1, now)}, submissions := [first, Fresh(at, user, now)])
  }

  lemma ResentTables(s: Schedule, at: int, user: int, was: int, now: int)
    requires 0 < s.start <= at && s.start < s.end && was != now && now > 0
    ensures var t, again := Accepted(s, at, user, was), Fresh(at, user, now);
            && Enabled(t, Renumber(was, now)) && Orphans(t, Renumber(was, now))
            && Enabled(Next(t, Renumber(was, now)), Submit(again))
            && Next(Next(t, Renumber(was, now)), Submit(again)) == Resent(s, at, user, was, now)
  {
    var t := Accepted(s, at, user, was);
    var t1 := Next(t, Renumber(was, now));
    assert t.problems == {(1, was)};
    assert (1, was) in t.problems;
    assert t1.problems == {(1, now)};
    assert t1.submissions == [Fresh(at, user, now).(status := OK, accepted := true)];
    assert Key(1, user, was) in t.rows;
  }

  /** The row under the new number counts both submissions; that under the old number still counts one. */
  lemma ResentSnapshot(s: Schedule, at: int, user: int, was: int, now: int)
    requires 0 < s.start <= at <= s.end
    ensures var t := Resent(s, at, user, was, now);
            var judged := t.submissions[0];
            Snapshot(t.(submissions := [judged, judged]), Key(1, user, now), s.start, s.end)
            == AcceptedRow(s, at).(count := 2, lastId := 2)
  {
    var judged := Resent(s, at, user, was, now).submissions[0];
    var k := Key(1, user, now);
    assert [judged, judged][..1] == [judged] && [judged][..0] == [];
    assert Fold([], k, true, s.start, s.end) == NOTHING;
    assert Fold([judged], k, true, s.start, s.end) == Add(NOTHING, judged, 1);
    assert Fold([judged, judged], k, true, s.start, s.end) == Add(Add(NOTHING, judged, 1), judged, 2);
  }

  lemma SumOfTwo(rows: map<int, ProblemRow>, p: int, q: int)
    requires p != q && rows.Keys == {p, q}
    ensures Sum(rows) == Plus(RowTotals(rows[p]), Plus(RowTotals(rows[q]), Totals(0, 0, 0, 0)))
  {
    SumTakes(rows, p);
    assert (rows - {p}).Keys == {q};
    SumTakes(rows - {p}, q);
    assert rows - {p} - {q} == map[];
  }

  function TwoRows(s: Schedule, at: int, user: int, was: int, now: int): map<Key, ProblemRow> {
    map[Key(1, user, was) := AcceptedRow(s, at), Key(1, user, now) := AcceptedRow(s, at).(count := 2, lastId := 2)]
  }

  lemma RankOfTwo(s: Schedule, at: int, user: int, was: int, now: int)
    requires was != now && 0 < s.start <= at
    ensures RankOf(TwoRows(s, at, user, was, now), UserKey(1, user))
         == RankRow(2, 200, 2 * (at - s.start), 2_000_000_000 - 2 * (at - s.start), 2)
  {
    var mine := UserRows(TwoRows(s, at, user, was, now), UserKey(1, user));
    assert mine == map[was := AcceptedRow(s, at), now := AcceptedRow(s, at).(count := 2, lastId := 2)];
    SumOfTwo(mine, was, now);
  }

  lemma ResentRows(s: Schedule, at: int, user: int, was: int, now: int)
    requires 0 < s.start <= at <= s.end && was != now
    ensures var t' := UpdateSubmission(Resent(s, at, user, was, now), 1, OK, true);
            && t'.problems == {(1, now)} && t'.rows == TwoRows(s, at, user, was, now)
            && t'.ranks == map[UserKey(1, user) := RankOf(t'.rows, UserKey(1, user))]
  {
    var t := Resent(s, at, user, was, now);
    var t', judged := UpdateSubmission(t, 1, OK, true), t.submissions[0];
    assert t'.submissions == [judged, judged];
    ResentSnapshot(s, at, user, was, now);
    hide Snapshot, RankOf;
  }

  lemma JudgeResent(s: Schedule, at: int, user: int, was: int, now: int)
    requires 0 < s.start <= at <= s.end && was != now
    ensures var t' := UpdateSubmission(Resent(s, at, user, was, now), 1, OK, true);
            && t'.problems == {(1, now)} && t'.rows == TwoRows(s, at, user, was, now)
            && t'.ranks == map[UserKey(1, user) := RankRow(2, 200, 2 * (at - s.start), 2_000_000_000 - 2 * (at - s.start), 2)]
  {
    hide UpdateSubmission, TwoRows, RankOf;
    ResentRows(s, at, user, was, now);
    RankOfTwo(s, at, user, was, now);
  }

  /**
   * The user has solved the one problem of the assignment and is ranked with two: the row under the old
   * number stays, and the rank row sums it beside the new one.
   */
  lemma RenumberingOverCounts(s: Schedule, at: int, user: int, was: int, now: int)
    requires 0 < s.start <= at <= s.end && s.start < s.end && was != now && now > 0
    ensures var steps := Renumbering(s, at, user, was, now);
            && IsRun(Empty(0), steps)
            && var t := After(Empty(0), steps);
               && !Safe(t) && t.problems == {(1, now)}
               && t.rows.Keys == {Key(1, user, was), Key(1, user, now)}
               && t.ranks == map[UserKey(1, user) := RankRow(2, 200, 2 * (at - s.start), 2_000_000_000 - 2 * (at - s.start), 2)]
  {
    var first, t := FirstAcceptance(s, at, user, was), Resent(s, at, user, was, now);
    var last := Update(1, OK, true);
    hide IsRun, After, Next, Enabled, UpdateSubmission, Orphans;
    FirstAcceptanceShows(s, at, user, was);
    ResentTables(s, at, user, was, now);
    JudgeSent(t, 1);
    RunOfThree(Accepted(s, at, user, was), Renumber(was, now), Submit(Fresh(at, user, now)), last);
    RunConcat(Empty(0), first, [Renumber(was, now), Submit(Fresh(at, user, now)), last]);
    JudgeResent(s, at, user, was, now);
    OldRowIsWrong(UpdateSubmission(t, 1, OK, true), Key(1, user, was));
  }

  lemma OldRowIsWrong(t: Tables, k: Key)
    requires k in t.rows && (k.assignment, k.problem) !in t.problems
    ensures !Safe(t)
  {
    hide RanksExact;
    if Safe(t) {
      assert RowSafe(t, k);
      CountedIsListed(t, k);
      assert false;
    }
  }
}
