/** What each cell of the leaderboard page shows: the stored row of its user and problem, or nothing. */
module BoardCells {
  import opened Text
  import Judge = JudgeProtocol
  import opened Leaderboard
  import opened LeaderboardRuns
  import opened LeaderboardSafety
  import opened RankCache
  import opened Board

  /** Nobody has tried the problem. */
  predicate ShowsNothing(cell: Cell, column: Column) {
    && cell.problem == column.problem && cell.alias == column.alias && cell.status.Untried?
    && !cell.hasSubmission && !cell.accepted && cell.score == 0 && cell.submissions == 0
    && cell.timeFromStart == 0 && cell.firstAccepted == 0 && cell.lastSubmitted == 0
  }

  /** The cell tells the row: solved, or the last status; its counts, its times, and the waiting time if unsolved. */
  predicate Shows(cell: Cell, column: Column, row: ProblemRow, start: int) {
    && cell.problem == column.problem && cell.alias == column.alias
    && (cell.accepted <==> row.accepted) && (cell.status.Solved? <==> row.accepted)
    && (!row.accepted ==> cell.status == Last(row.lastStatus))
    && cell.score == row.score && cell.submissions == row.count && (cell.hasSubmission <==> row.count > 0)
    && cell.firstAccepted == row.firstAccepted && cell.lastSubmitted == row.lastSubmitted
    && (row.accepted ==> cell.timeFromStart == row.penalty)
    && (!row.accepted ==>
          && cell.timeFromStart >= 0 && cell.timeFromStart >= row.lastSubmitted - start
          && cell.timeFromStart in {0, row.lastSubmitted - start})
  }

  predicate Rows(rows: seq<StatsRow>, i: int, user: int, problem: int) {
    0 <= i < |rows| && rows[i].user == user && rows[i].problem == problem
  }

  lemma OneRowFills(page: Page, row: StatsRow, start: int, problems: map<int, nat>, users: map<int, nat>, e: nat, c: nat, user: int)
    requires Indexed(page, problems, users) && e < |page.entries| && c < |page.columns|
    requires user in users && users[user] == e && forall u | u in users && users[u] == e :: u == user
    requires page.columns[c].problem in problems && problems[page.columns[c].problem] == c
    ensures var r := FillRow(page, row, start, problems, users);
            && r.columns[c].problem == page.columns[c].problem && r.columns[c].alias == page.columns[c].alias
            && r.entries[e].username == page.entries[e].username
            && (if row.user == user && row.problem == page.columns[c].problem
                then Shows(r.entries[e].cells[c], page.columns[c], row.stats, start)
                else r.entries[e].cells[c] == page.entries[e].cells[c])
  {
  }

  lemma {:induction false} RowsFill(
      page: Page, rows: seq<StatsRow>, start: int, problems: map<int, nat>, users: map<int, nat>, e: nat, c: nat, user: int)
    requires Indexed(page, problems, users) && e < |page.entries| && c < |page.columns| && DistinctKeys(rows)
    requires user in users && users[user] == e && forall u | u in users && users[u] == e :: u == user
    requires page.columns[c].problem in problems && problems[page.columns[c].problem] == c
    ensures var r, problem := FillRows(page, rows, start, problems, users), page.columns[c].problem;
            && r.columns[c].problem == problem && r.columns[c].alias == page.columns[c].alias
            && r.entries[e].username == page.entries[e].username
            && (forall i | Rows(rows, i, user, problem) :: Shows(r.entries[e].cells[c], page.columns[c], rows[i].stats, start))
            && ((forall i :: !Rows(rows, i, user, problem)) ==> r.entries[e].cells[c] == page.entries[e].cells[c])
    decreases |rows|
  {
    if rows != [] {
      var n, problem := |rows| - 1, page.columns[c].problem;
      var before := FillRows(page, rows[..n], start, problems, users);
      assert DistinctKeys(rows[..n]);
      RowsFill(page, rows[..n], start, problems, users, e, c, user);
      OneRowFills(before, rows[n], start, problems, users, e, c, user);
      forall i | 0 <= i < n ensures Rows(rows, i, user, problem) <==> Rows(rows[..n], i, user, problem) {
      }
      assert Rows(rows, n, user, problem) <==> rows[n].user == user && rows[n].problem == problem;
      hide FillRow, Indexed;
      forall i | Rows(rows, i, user, problem)
        ensures Shows(FillRows(page, rows, start, problems, users).entries[e].cells[c], page.columns[c], rows[i].stats, start)
      {
        if i < n {
          assert Rows(rows[..n], i, user, problem) && !Rows(rows, n, user, problem);
        }
      }
    }
  }

  /**
   * On the page, the cell of an entry and a column shows the row of that user and problem, and says untried
   * when there is none.
   */
  lemma CellsShowRows(columns: seq<Column>, ranked: seq<UserRow>, rows: seq<StatsRow>, start: int, e: nat, c: nat)
    requires DistinctProblems(columns) && DistinctUsers(ranked) && DistinctKeys(rows)
    requires e < |ranked| && c < |columns|
    ensures var page := PageOf(columns, ranked, rows, start);
            && |page.entries| == |ranked| && |page.entries[e].cells| == |columns|
            && page.entries[e].username == ranked[e].username
            && var cell := page.entries[e].cells[c];
               && (forall i | Rows(rows, i, ranked[e].user, columns[c].problem) :: Shows(cell, columns[c], rows[i].stats, start))
               && ((forall i :: !Rows(rows, i, ranked[e].user, columns[c].problem)) ==> ShowsNothing(cell, columns[c]))
  {
    var blank := Page(columns, NewEntries(ranked, columns, |ranked|));
    var problems, users := ProblemIndex(columns), EntryIndex(ranked);
    NewEntryAt(ranked, columns, |ranked|, e);
    hide NewEntries, ProblemIndex, EntryIndex, FillRows, Shows, RunStart;
    assert users[ranked[e].user] == e && problems[columns[c].problem] == c;
    RowsFill(blank, rows, start, problems, users, e, c, ranked[e].user);
  }

  // ---- In terms of the submissions -----------------------------------------------

  /** The cell tells the counted submissions of its key. */
  ghost predicate Tells(cell: Cell, t: Tables, k: Key)
    requires k.assignment in t.schedules
  {
    var subs, start := t.submissions, t.schedules[k.assignment].start;
    && (cell.hasSubmission <==> exists i :: CountedAt(t, k, i))
    && (cell.status.Untried? <==> !cell.hasSubmission) && (cell.status.Solved? <==> cell.accepted)
    && cell.submissions == |set i | 0 <= i < |subs| && CountedAt(t, k, i)|
    && (cell.accepted <==> exists i :: CountedAt(t, k, i) && subs[i].accepted)
    && (cell.accepted ==>
          && (exists i :: CountedAt(t, k, i) && subs[i].accepted && subs[i].createdAt == cell.firstAccepted)
          && (forall i :: CountedAt(t, k, i) && subs[i].accepted ==> cell.firstAccepted <= subs[i].createdAt)
          && cell.score == 100 && cell.timeFromStart == cell.firstAccepted - start)
    && (cell.hasSubmission ==>
          exists i :: NewestOf(t, k, i) && cell.lastSubmitted == subs[i].createdAt
                      && (!cell.accepted ==>
                            cell.status == Last(Some(subs[i].status)) && cell.timeFromStart == subs[i].createdAt - start))
  }

  lemma RowTells(cell: Cell, column: Column, t: Tables, k: Key)
    requires k in t.rows && k.assignment in t.schedules && Describes(t.rows[k], t, k)
    requires Shows(cell, column, t.rows[k], t.schedules[k.assignment].start)
    ensures Tells(cell, t, k)
  {
    var row, counted := t.rows[k], set i | 0 <= i < |t.submissions| && CountedAt(t, k, i);
    assert CountedAt(t, k, row.lastId - 1) && row.lastId - 1 in counted;
    assert |counted| > 0;
    var i :| NewestOf(t, k, i) && row.lastStatus == Some(t.submissions[i].status)
             && row.lastSubmitted == t.submissions[i].createdAt;
    assert t.submissions[i].createdAt >= t.schedules[k.assignment].start;
    hide Counted, Matches;
  }

  lemma NothingTells(cell: Cell, column: Column, t: Tables, k: Key)
    requires k.assignment in t.schedules && ShowsNothing(cell, column) && !Counted(t, k)
    ensures Tells(cell, t, k)
  {
    forall i ensures !CountedAt(t, k, i) {
    }
    hide CountedAt;
    assert (set i | 0 <= i < |t.submissions| && CountedAt(t, k, i)) == {};
  }

  lemma ListedRow(
      t: Tables, a: int, columns: seq<Column>, ranked: seq<UserRow>, rows: seq<StatsRow>, user: int, problem: int)
    requires ListsTables(t, a, columns, ranked, rows)
    ensures DistinctProblems(columns) && DistinctUsers(ranked) && DistinctKeys(rows)
    ensures Key(a, user, problem) in t.rows <==> exists i :: Rows(rows, i, user, problem)
    ensures forall i | Rows(rows, i, user, problem) ::
              Key(a, user, problem) in t.rows && rows[i].stats == t.rows[Key(a, user, problem)]
  {
    hide DistinctProblems, DistinctUsers, DistinctKeys;
    var k := Key(a, user, problem);
    if k in t.rows {
      assert HasRow(rows, k.user, k.problem);
      var i :| 0 <= i < |rows| && rows[i].user == user && rows[i].problem == problem;
      assert Rows(rows, i, user, problem);
    }
  }

  lemma ExactOrNone(t: Tables, k: Key)
    requires Materialised(t) && k.assignment in t.schedules
    ensures if k in t.rows then Describes(t.rows[k], t, k) else !Counted(t, k)
  {
    assert Exact(t, k);
    if k in t.rows {
      ExactRow(t, k);
    }
    hide Materialised, Describes;
  }

  /** Over exact tables every cell of the page speaks of the submissions themselves. */
  lemma CellsTellSubmissions(
      t: Tables, a: int, columns: seq<Column>, ranked: seq<UserRow>, rows: seq<StatsRow>, e: nat, c: nat)
    requires Materialised(t) && ListsTables(t, a, columns, ranked, rows)
    requires a in t.schedules && e < |ranked| && c < |columns|
    ensures var page := PageOf(columns, ranked, rows, t.schedules[a].start);
            && |page.entries| == |ranked| && |page.entries[e].cells| == |columns|
            && Tells(page.entries[e].cells[c], t, Key(a, ranked[e].user, columns[c].problem))
  {
    hide PageOf, Shows, ShowsNothing, Materialised, ListsTables, Tells, Describes, DistinctProblems, DistinctUsers, DistinctKeys;
    hide Counted, Rows;
    var k := Key(a, ranked[e].user, columns[c].problem);
    ListedRow(t, a, columns, ranked, rows, k.user, k.problem);
    CellsShowRows(columns, ranked, rows, t.schedules[a].start, e, c);
    var cell := PageOf(columns, ranked, rows, t.schedules[a].start).entries[e].cells[c];
    ExactOrNone(t, k);
    if k in t.rows {
      var i :| Rows(rows, i, k.user, k.problem);
      RowTells(cell, columns[c], t, k);
    } else {
      NothingTells(cell, columns[c], t, k);
    }
  }
}
