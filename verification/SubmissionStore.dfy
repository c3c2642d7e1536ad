/** The writing side of the submission repository: one transaction per judged submission. */
module SubmissionStore {
  import opened Text
  import Judge = JudgeProtocol
  import opened Leaderboard

  /** The score that goes to the sorted set after the commit. */
  datatype Score = Score(user: UserKey, rankScore: int)

  function CountedSchedule(t: Tables, s: Submission): Option<Schedule> {
    if s.assignment.Some? && s.assignment.value in t.schedules && ShouldCount(s, t.schedules[s.assignment.value])
    then Some(t.schedules[s.assignment.value]) else None
  }

  lemma PlusNothing(x: Totals)
    ensures Plus(Totals(0, 0, 0, 0), x) == x == Plus(x, Totals(0, 0, 0, 0))
  {
  }

  lemma PlusAssociates(x: Totals, y: Totals, z: Totals)
    ensures Plus(x, Plus(y, z)) == Plus(Plus(x, y), z)
  {
  }

  lemma SumOfNone(rows: map<int, ProblemRow>)
    requires rows.Keys == {}
    ensures Sum(rows) == Totals(0, 0, 0, 0)
  {
    assert forall p :: p !in rows.Keys;
  }

  /** The database tables that the repository reads and writes. */
  class Database {
    var schedules: map<int, Schedule>
    var problems: set<(int, int)>
    var submissions: seq<Submission>
    var rows: map<Key, ProblemRow>
    var ranks: map<UserKey, RankRow>
    var clock: int

    function State(): Tables
      reads this
    {
      Tables(schedules, problems, submissions, rows, ranks, clock)
    }

    /** The sums over a user's rows, in whatever order the rows are read. */
    method BuildRankStats(u: UserKey) returns (r: RankRow)
      ensures r == RankOf(rows, u)
    {
      var left := UserRows(rows, u);
      ghost var all := left;
      var totals := Totals(0, 0, 0, 0);
      hide Sum, UserRows, RowTotals, Plus;
      PlusNothing(Sum(left));
      while left.Keys != {}
        invariant Plus(totals, Sum(left)) == Sum(all)
        decreases left
      {
        var p :| p in left.Keys;
        SumTakes(left, p);
        PlusAssociates(totals, RowTotals(left[p]), Sum(left - {p}));
        totals := Plus(totals, RowTotals(left[p]));
        left := left - {p};
      }
      SumOfNone(left);
      PlusNothing(totals);
      r := RankRow(
        totals.solved, totals.score, totals.penalty, EncodeRankScore(totals.solved, totals.penalty), totals.lastId);
    }

    /**
     * update_submission: `known` is None when no submission has the id, `committed` is false when any
     * statement of the transaction throws.
     */
    method UpdateSubmission(known: Option<nat>, status: Judge.Status, accepted: bool, committed: bool)
      returns (ok: bool, published: Option<Score>)
      requires known.Some? ==> known.value < |submissions|
      modifies this
      ensures ok == (known.Some? && committed)
      ensures State() == if ok then Leaderboard.UpdateSubmission(old(State()), known.value, status, accepted) else old(State())
      ensures !ok ==> published.None?
      ensures ok ==>
                var s := submissions[known.value];
                && (published.Some? <==> CountedSchedule(State(), s).Some?)
                && (published.Some? ==>
                      var u := UserKey(s.assignment.value, s.user);
                      u in ranks && published == Some(Score(u, ranks[u].rankScore)))
    {
      if known.None? {
        return false, None;
      }
      var index := known.value;
      var beforeSubmissions, beforeRows, beforeRanks := submissions, rows, ranks;
      var s := submissions[index].(status := status, accepted := accepted);
      submissions := submissions[index := s];
      published := None;
      var schedule := CountedSchedule(State(), s);
      if schedule.Some? {
        var k := Key(s.assignment.value, s.user, s.problem);
        var u := UserKey(k.assignment, k.user);
        rows := rows[k := Snapshot(State(), k, schedule.value.start, schedule.value.end)];
        var rank := BuildRankStats(u);
        ranks := ranks[u := rank];
        published := Some(Score(u, rank.rankScore));
      }
      if !committed {
        submissions, rows, ranks := beforeSubmissions, beforeRows, beforeRanks;
        return false, None;
      }
      ok := true;
    }

    /** update_assignment's schedule rules, check by check; false when it throws. */
    method UpdateAssignment(id: int, newStart: Option<int>, newEnd: Option<int>) returns (ok: bool)
      modifies this`schedules
      ensures ok == (id in old(schedules) && Reschedule(old(schedules)[id], newStart, newEnd, clock).Some?)
      ensures State() == if ok then Next(old(State()), UpdateSchedule(id, newStart, newEnd)) else old(State())
    {
      if id !in schedules {
        return false;
      }
      var start, end := schedules[id].start, schedules[id].end;
      if newStart.Some? {
        if clock >= start || newStart.value <= 0 || newStart.value >= start {
          return false;
        }
        start := newStart.value;
      }
      if newEnd.Some? {
        if newEnd.value <= end {
          return false;
        }
        end := newEnd.value;
      }
      if end <= start {
        return false;
      }
      schedules := schedules[id := Schedule(start, end)];
      ok := true;
    }
  }
}
