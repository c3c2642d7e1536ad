/** Assembling the leaderboard page: ranked entries, their cells, and the totals of the columns. */
module Board {
  import opened Text
  import Judge = JudgeProtocol
  import opened Leaderboard
  import opened LeaderboardSafety
  import opened RankScore
  import opened RankCache

  datatype CellStatus = Untried | Solved | Last(status: Option<Judge.Status>)

  datatype Cell = Cell(
    problem: int, alias: string, hasSubmission: bool, accepted: bool, score: int, status: CellStatus,
    timeFromStart: int, firstAccepted: int, lastSubmitted: int, submissions: int)

  datatype Column = Column(problem: int, alias: string, acceptedUsers: int, submissions: int)

  datatype Entry = Entry(rank: int, username: string, solved: int, score: int, penalty: int, cells: seq<Cell>)

  /** A row of assignment_user_problem_stats for one assignment. */
  datatype StatsRow = StatsRow(user: int, problem: int, stats: ProblemRow)

  datatype Page = Page(columns: seq<Column>, entries: seq<Entry>)

  function Blank(column: Column): Cell {
    Cell(column.problem, column.alias, false, false, 0, Untried, 0, 0, 0, 0)
  }

  function Blanks(columns: seq<Column>): (cells: seq<Cell>)
    ensures |cells| == |columns| && forall c | 0 <= c < |columns| :: cells[c] == Blank(columns[c])
  {
    seq(|columns|, c requires 0 <= c < |columns| => Blank(columns[c]))
  }

  function NewEntry(row: UserRow, rank: int, columns: seq<Column>): Entry {
    Entry(rank, row.username, row.solved, row.score, row.penalty, Blanks(columns))
  }

  function Filled(alias: string, row: StatsRow, start: int): Cell {
    var s := row.stats;
    var waited := if s.lastSubmitted - start > 0 then s.lastSubmitted - start else 0;
    Cell(row.problem, alias, s.count > 0, s.accepted, s.score,
         if s.accepted then Solved else Last(s.lastStatus),
         if s.accepted then s.penalty else waited,
         s.firstAccepted, s.lastSubmitted, s.count)
  }

  // ---- The two indexes ---------------------------------------------------------

  /** problem_index_by_id. */
  function ProblemIndex(columns: seq<Column>): (index: map<int, nat>)
    ensures forall p | p in index :: index[p] < |columns| && columns[index[p]].problem == p
    ensures forall c | 0 <= c < |columns| :: columns[c].problem in index
  {
    if columns == [] then map[]
    else
      var n := |columns| - 1;
      assert forall c | 0 <= c < n :: columns[c] == columns[..n][c];
      ProblemIndex(columns[..n])[columns[n].problem := n]
  }

  /** entry_index_by_user: emplace keeps the first of two rows of one user. */
  function EntryIndex(ranked: seq<UserRow>): (index: map<int, nat>)
    ensures forall u | u in index :: index[u] < |ranked| && ranked[index[u]].user == u
    ensures forall e | 0 <= e < |ranked| :: ranked[e].user in index
  {
    if ranked == [] then map[]
    else
      var n := |ranked| - 1;
      assert forall e | 0 <= e < n :: ranked[e] == ranked[..n][e];
      var index := EntryIndex(ranked[..n]);
      if ranked[n].user in index then index else index[ranked[n].user := n]
  }

  // ---- The loops -----------------------------------------------------------------

  predicate Indexed(page: Page, problems: map<int, nat>, users: map<int, nat>) {
    && (forall p | p in problems :: problems[p] < |page.columns| && page.columns[problems[p]].problem == p)
    && (forall u | u in users :: users[u] < |page.entries|)
    && (forall e | 0 <= e < |page.entries| :: |page.entries[e].cells| == |page.columns|)
  }

  function FillRow(page: Page, row: StatsRow, start: int, problems: map<int, nat>, users: map<int, nat>): (r: Page)
    requires Indexed(page, problems, users)
    ensures Indexed(r, problems, users) && |r.columns| == |page.columns| && |r.entries| == |page.entries|
  {
    if row.problem !in problems then page
    else
      var c := problems[row.problem];
      var was := page.columns[c];
      var column := was.(
        submissions := was.submissions + row.stats.count,
        acceptedUsers := was.acceptedUsers + if row.stats.accepted then 1 else 0);
      var columns := page.columns[c := column];
      if row.user !in users then Page(columns, page.entries)
      else
        var entry := page.entries[users[row.user]];
        var cells := entry.cells[c := Filled(column.alias, row, start)];
        Page(columns, page.entries[users[row.user] := entry.(cells := cells)])
  }

  function FillRows(page: Page, rows: seq<StatsRow>, start: int, problems: map<int, nat>, users: map<int, nat>): (r: Page)
    requires Indexed(page, problems, users)
    ensures Indexed(r, problems, users) && |r.columns| == |page.columns| && |r.entries| == |page.entries|
    decreases |rows|
  {
    if rows == [] then page
    else FillRow(FillRows(page, rows[..|rows| - 1], start, problems, users), rows[|rows| - 1], start, problems, users)
  }

  /** The first n entries, in the order of the rank rows. */
  function NewEntries(ranked: seq<UserRow>, columns: seq<Column>, n: nat): (entries: seq<Entry>)
    requires n <= |ranked|
    ensures |entries| == n && forall e | 0 <= e < n :: |entries[e].cells| == |columns|
  {
    if n == 0 then []
    else NewEntries(ranked, columns, n - 1) + [NewEntry(ranked[n - 1], 1 + RunStart(ranked, n - 1), columns)]
  }

  lemma {:induction false} NewEntryAt(ranked: seq<UserRow>, columns: seq<Column>, n: nat, e: nat)
    requires e < n <= |ranked|
    ensures NewEntries(ranked, columns, n)[e] == NewEntry(ranked[e], 1 + RunStart(ranked, e), columns)
  {
    hide NewEntry, RunStart;
    if e < n - 1 {
      NewEntryAt(ranked, columns, n - 1, e);
    }
  }

  /** The page as a function of the three tables it is read from. */
  function PageOf(columns: seq<Column>, ranked: seq<UserRow>, rows: seq<StatsRow>, start: int): Page {
    FillRows(Page(columns, NewEntries(ranked, columns, |ranked|)), rows, start, ProblemIndex(columns), EntryIndex(ranked))
  }

  lemma EntryIndexMore(ranked: seq<UserRow>, n: nat)
    requires n < |ranked|
    ensures var index := EntryIndex(ranked[..n]);
            EntryIndex(ranked[..n + 1]) == if ranked[n].user in index then index else index[ranked[n].user := n]
  {
    assert ranked[..n + 1][..n] == ranked[..n];
  }

  lemma RunStartMore(ranked: seq<UserRow>, i: nat)
    requires i < |ranked|
    ensures RunStart(ranked, i) ==
            if i == 0 || ranked[i - 1].rankScore != ranked[i].rankScore then i else RunStart(ranked, i - 1)
  {
  }

  lemma NewEntriesMore(ranked: seq<UserRow>, columns: seq<Column>, n: nat)
    requires n < |ranked|
    ensures NewEntries(ranked, columns, n + 1)
         == NewEntries(ranked, columns, n) + [NewEntry(ranked[n], 1 + RunStart(ranked, n), columns)]
  {
  }

  lemma NothingRanked(ranked: seq<UserRow>, columns: seq<Column>)
    ensures EntryIndex(ranked[..0]) == map[] && NewEntries(ranked, columns, 0) == []
  {
  }

  method RankEntries(ranked: seq<UserRow>, columns: seq<Column>) returns (entries: seq<Entry>, users: map<int, nat>)
    ensures entries == NewEntries(ranked, columns, |ranked|) && users == EntryIndex(ranked)
  {
    entries, users := [], map[];
    hide EntryIndex, NewEntry, NewEntries, RunStart;
    NothingRanked(ranked, columns);
    var displayed, position := 0, 0;
    var previous: Option<int> := None;
    while position < |ranked|
      invariant 0 <= position <= |ranked|
      invariant users == EntryIndex(ranked[..position])
      invariant entries == NewEntries(ranked, columns, position)
      invariant if position == 0 then previous == None
                else previous == Some(ranked[position - 1].rankScore) && displayed == 1 + RunStart(ranked, position - 1)
    {
      var row := ranked[position];
      EntryIndexMore(ranked, position);
      RunStartMore(ranked, position);
      NewEntriesMore(ranked, columns, position);
      position := position + 1;
      if previous.None? || previous.value != row.rankScore {
        displayed := position;
        previous := Some(row.rankScore);
      }
      if row.user !in users {
        users := users[row.user := |entries|];
      }
      assert displayed == 1 + RunStart(ranked, position - 1);
      entries := entries + [NewEntry(row, displayed, columns)];
    }
    assert ranked[..|ranked|] == ranked;
  }

  lemma FillRowsMore(page: Page, rows: seq<StatsRow>, i: nat, start: int, problems: map<int, nat>, users: map<int, nat>)
    requires Indexed(page, problems, users) && i < |rows|
    ensures FillRows(page, rows[..i + 1], start, problems, users)
         == FillRow(FillRows(page, rows[..i], start, problems, users), rows[i], start, problems, users)
  {
    assert rows[..i + 1][..i] == rows[..i];
  }

  /** The body of the loop over the rows. */
  method AddRow(page: Page, row: StatsRow, start: int, problems: map<int, nat>, users: map<int, nat>)
    returns (r: Page)
    requires Indexed(page, problems, users)
    ensures r == FillRow(page, row, start, problems, users)
  {
    hide Filled;
    if row.problem !in problems {
      return page;
    }
    var c := problems[row.problem];
    var column := page.columns[c];
    column := column.(submissions := column.submissions + row.stats.count);
    if row.stats.accepted {
      column := column.(acceptedUsers := column.acceptedUsers + 1);
    }
    var columns := page.columns[c := column];
    if row.user !in users {
      return Page(columns, page.entries);
    }
    var entry := page.entries[users[row.user]];
    entry := entry.(cells := entry.cells[c := Filled(column.alias, row, start)]);
    r := Page(columns, page.entries[users[row.user] := entry]);
  }

  method AssemblePage(columns: seq<Column>, ranked: seq<UserRow>, rows: seq<StatsRow>, start: int) returns (page: Page)
    ensures page == PageOf(columns, ranked, rows, start)
  {
    var entries, users := RankEntries(ranked, columns);
    var problems := ProblemIndex(columns);
    page := Page(columns, entries);
    ghost var initial := page;
    for i := 0 to |rows|
      invariant Indexed(initial, problems, users) && Indexed(page, problems, users)
      invariant page == FillRows(initial, rows[..i], start, problems, users)
    {
      FillRowsMore(initial, rows, i, start, problems, users);
      page := AddRow(page, rows[i], start, problems, users);
    }
    assert rows[..|rows|] == rows;
  }

  // ---- Sums over cells and rows -----------------------------------------------------

  datatype Measure = Accepted | Points | Seconds | Attempts

  /** What a cell adds; the time of a cell counts only when it is accepted. */
  function CellValue(m: Measure, cell: Cell): int {
    match m
    case Accepted => if cell.accepted then 1 else 0
    case Points => cell.score
    case Seconds => if cell.accepted then cell.timeFromStart else 0
    case Attempts => cell.submissions
  }

  function RowValue(m: Measure, row: ProblemRow): int {
    match m
    case Accepted => if row.accepted then 1 else 0
    case Points => row.score
    case Seconds => if row.accepted then row.penalty else 0
    case Attempts => row.count
  }

  function Across(cells: seq<Cell>, m: Measure): int {
    if cells == [] then 0 else Across(cells[..|cells| - 1], m) + CellValue(m, cells[|cells| - 1])
  }

  function Down(entries: seq<Entry>, c: nat, m: Measure): int
    requires forall e | 0 <= e < |entries| :: c < |entries[e].cells|
  {
    if entries == [] then 0
    else Down(entries[..|entries| - 1], c, m) + CellValue(m, entries[|entries| - 1].cells[c])
  }

  function UserTotal(rows: seq<StatsRow>, user: int, m: Measure): int {
    if rows == [] then 0
    else
      var row := rows[|rows| - 1];
      UserTotal(rows[..|rows| - 1], user, m) + if row.user == user then RowValue(m, row.stats) else 0
  }

  function ProblemTotal(rows: seq<StatsRow>, problem: int, m: Measure): int {
    if rows == [] then 0
    else
      var row := rows[|rows| - 1];
      ProblemTotal(rows[..|rows| - 1], problem, m) + if row.problem == problem then RowValue(m, row.stats) else 0
  }

  lemma {:induction false} AcrossUpdate(cells: seq<Cell>, c: nat, cell: Cell, m: Measure)
    requires c < |cells|
    ensures Across(cells[c := cell], m) == Across(cells, m) - CellValue(m, cells[c]) + CellValue(m, cell)
    decreases |cells|
  {
    var n := |cells| - 1;
    if c == n {
      assert cells[c := cell][..n] == cells[..n];
    } else {
      assert cells[c := cell][..n] == cells[..n][c := cell];
      AcrossUpdate(cells[..n], c, cell, m);
    }
  }

  lemma {:induction false} DownUpdate(entries: seq<Entry>, e: nat, entry: Entry, c: nat, m: Measure)
    requires e < |entries| && c < |entry.cells| && forall k | 0 <= k < |entries| :: c < |entries[k].cells|
    ensures Down(entries[e := entry], c, m)
         == Down(entries, c, m) - CellValue(m, entries[e].cells[c]) + CellValue(m, entry.cells[c])
    decreases |entries|
  {
    var n := |entries| - 1;
    if e == n {
      assert entries[e := entry][..n] == entries[..n];
    } else {
      assert entries[e := entry][..n] == entries[..n][e := entry];
      DownUpdate(entries[..n], e, entry, c, m);
    }
  }

  lemma {:induction false} BlanksAddNothing(columns: seq<Column>, m: Measure)
    ensures Across(Blanks(columns), m) == 0
  {
    if columns != [] {
      var n := |columns| - 1;
      assert Blanks(columns)[..n] == Blanks(columns[..n]);
      BlanksAddNothing(columns[..n], m);
    }
  }

  lemma {:induction false} BlankColumnAddsNothing(entries: seq<Entry>, columns: seq<Column>, c: nat, m: Measure)
    requires c < |columns| && forall e | 0 <= e < |entries| :: c < |entries[e].cells| && entries[e].cells == Blanks(columns)
    ensures Down(entries, c, m) == 0
  {
    if entries != [] {
      BlankColumnAddsNothing(entries[..|entries| - 1], columns, c, m);
    }
  }

  // ---- The invariant of the filling loop ---------------------------------------------

  predicate DistinctProblems(columns: seq<Column>) {
    forall i, j | 0 <= i < j < |columns| :: columns[i].problem != columns[j].problem
  }

  /** (assignment_id, user_id, problem_id) is the primary key. */
  predicate DistinctKeys(rows: seq<StatsRow>) {
    forall i, j | 0 <= i < j < |rows| :: !(rows[i].user == rows[j].user && rows[i].problem == rows[j].problem)
  }

  /** Every row has its column and its entry: one consistent snapshot. */
  predicate Belongs(rows: seq<StatsRow>, columns: seq<Column>, ranked: seq<UserRow>) {
    forall i | 0 <= i < |rows| ::
      rows[i].problem in ProblemIndex(columns) && rows[i].user in EntryIndex(ranked)
  }

  predicate HasRow(rows: seq<StatsRow>, user: int, problem: int) {
    exists i :: 0 <= i < |rows| && rows[i].user == user && rows[i].problem == problem
  }

  /** What is fixed while rows are filled in. */
  predicate SameFrame(page: Page, columns: seq<Column>, ranked: seq<UserRow>) {
    && |page.columns| == |columns| && |page.entries| == |ranked|
    && (forall c | 0 <= c < |columns| ::
          page.columns[c].problem == columns[c].problem && page.columns[c].alias == columns[c].alias)
    && (forall e | 0 <= e < |ranked| ::
          page.entries[e] == NewEntry(ranked[e], 1 + RunStart(ranked, e), columns).(cells := page.entries[e].cells)
          && |page.entries[e].cells| == |columns|)
  }

  predicate Untouched(page: Page, rows: seq<StatsRow>, columns: seq<Column>, ranked: seq<UserRow>)
    requires SameFrame(page, columns, ranked)
  {
    forall e, c | 0 <= e < |ranked| && 0 <= c < |columns| ::
      HasRow(rows, ranked[e].user, columns[c].problem) || page.entries[e].cells[c] == Blank(columns[c])
  }

  predicate EntriesConserved(page: Page, rows: seq<StatsRow>, columns: seq<Column>, ranked: seq<UserRow>)
    requires SameFrame(page, columns, ranked)
  {
    forall e, m | 0 <= e < |ranked| :: Across(page.entries[e].cells, m) == UserTotal(rows, ranked[e].user, m)
  }

  predicate ColumnsConserved(page: Page, rows: seq<StatsRow>, columns: seq<Column>, ranked: seq<UserRow>)
    requires SameFrame(page, columns, ranked)
  {
    forall c, m | 0 <= c < |columns| :: Down(page.entries, c, m) == ProblemTotal(rows, columns[c].problem, m)
  }

  predicate CountersConserved(page: Page, rows: seq<StatsRow>, columns: seq<Column>, ranked: seq<UserRow>)
    requires SameFrame(page, columns, ranked)
  {
    forall c | 0 <= c < |columns| :: Counter(page.columns[c], columns[c], rows)
  }

  predicate Conserved(page: Page, rows: seq<StatsRow>, columns: seq<Column>, ranked: seq<UserRow>) {
    && SameFrame(page, columns, ranked)
    && Untouched(page, rows, columns, ranked) && EntriesConserved(page, rows, columns, ranked)
    && ColumnsConserved(page, rows, columns, ranked) && CountersConserved(page, rows, columns, ranked)
  }

  lemma HasRowMore(rows: seq<StatsRow>, row: StatsRow, user: int, problem: int)
    ensures HasRow(rows + [row], user, problem) <==> HasRow(rows, user, problem) || (row.user == user && row.problem == problem)
  {
    var all := rows + [row];
    if i :| 0 <= i < |rows| && rows[i].user == user && rows[i].problem == problem {
      assert all[i].user == user && all[i].problem == problem;
    }
    if row.user == user && row.problem == problem {
      assert all[|rows|].user == user && all[|rows|].problem == problem;
    }
  }

  lemma TotalsMore(rows: seq<StatsRow>, row: StatsRow, key: int, m: Measure)
    ensures UserTotal(rows + [row], key, m) == UserTotal(rows, key, m) + if row.user == key then RowValue(m, row.stats) else 0
    ensures ProblemTotal(rows + [row], key, m)
         == ProblemTotal(rows, key, m) + if row.problem == key then RowValue(m, row.stats) else 0
  {
    assert (rows + [row])[..|rows|] == rows;
  }

  /** The page after one cell was written and one pair of counters raised. */
  predicate Writes(page: Page, page': Page, row: StatsRow, c: nat, e: nat, cell: Cell) {
    && c < |page.columns| && e < |page.entries| && c < |page.entries[e].cells|
    && page'.entries == page.entries[e := page.entries[e].(cells := page.entries[e].cells[c := cell])]
    && page'.columns == page.columns[c := Raised(page.columns[c], row)]
    && (forall m :: CellValue(m, page.entries[e].cells[c]) == 0 && CellValue(m, cell) == RowValue(m, row.stats))
  }

  lemma CellsAfterRow(
      page: Page, page': Page, rows: seq<StatsRow>, row: StatsRow, c0: nat, e0: nat, cell: Cell,
      columns: seq<Column>, ranked: seq<UserRow>)
    requires SameFrame(page, columns, ranked) && Untouched(page, rows, columns, ranked)
    requires Writes(page, page', row, c0, e0, cell)
    requires columns[c0].problem == row.problem && ranked[e0].user == row.user
    ensures SameFrame(page', columns, ranked) && Untouched(page', rows + [row], columns, ranked)
  {
    forall e, c | 0 <= e < |ranked| && 0 <= c < |columns|
      ensures HasRow(rows + [row], ranked[e].user, columns[c].problem) || page'.entries[e].cells[c] == Blank(columns[c])
    {
      HasRowMore(rows, row, ranked[e].user, columns[c].problem);
      assert (e != e0 || c != c0) ==> page'.entries[e].cells[c] == page.entries[e].cells[c];
    }
  }

  lemma EntriesAfterRow(
      page: Page, page': Page, rows: seq<StatsRow>, row: StatsRow, c0: nat, e0: nat, cell: Cell,
      columns: seq<Column>, ranked: seq<UserRow>)
    requires DistinctUsers(ranked)
    requires SameFrame(page, columns, ranked) && SameFrame(page', columns, ranked)
    requires EntriesConserved(page, rows, columns, ranked)
    requires Writes(page, page', row, c0, e0, cell) && ranked[e0].user == row.user
    ensures EntriesConserved(page', rows + [row], columns, ranked)
  {
    assert |page.entries| == |page'.entries| == |ranked|;
    hide SameFrame, CellValue, RowValue;
    forall e, m | 0 <= e < |ranked|
      ensures Across(page'.entries[e].cells, m) == UserTotal(rows + [row], ranked[e].user, m)
    {
      TotalsMore(rows, row, ranked[e].user, m);
      if e == e0 {
        AcrossUpdate(page.entries[e].cells, c0, cell, m);
      } else {
        assert ranked[e].user != ranked[e0].user;
      }
    }
  }

  lemma ColumnsAfterRow(
      page: Page, page': Page, rows: seq<StatsRow>, row: StatsRow, c0: nat, e0: nat, cell: Cell,
      columns: seq<Column>, ranked: seq<UserRow>)
    requires DistinctProblems(columns)
    requires SameFrame(page, columns, ranked) && SameFrame(page', columns, ranked)
    requires ColumnsConserved(page, rows, columns, ranked)
    requires Writes(page, page', row, c0, e0, cell) && columns[c0].problem == row.problem
    ensures ColumnsConserved(page', rows + [row], columns, ranked)
  {
    var entry := page.entries[e0].(cells := page.entries[e0].cells[c0 := cell]);
    hide CellValue, RowValue;
    forall c, m | 0 <= c < |columns|
      ensures Down(page'.entries, c, m) == ProblemTotal(rows + [row], columns[c].problem, m)
    {
      TotalsMore(rows, row, columns[c].problem, m);
      DownUpdate(page.entries, e0, entry, c, m);
      if c != c0 {
        assert columns[c].problem != columns[c0].problem;
        assert entry.cells[c] == page.entries[e0].cells[c];
      }
    }
  }

  function Raised(column: Column, row: StatsRow): Column {
    column.(
      submissions := column.submissions + RowValue(Attempts, row.stats),
      acceptedUsers := column.acceptedUsers + RowValue(Accepted, row.stats))
  }

  /** A column counter is what the rows of its problem add. */
  predicate Counter(now: Column, was: Column, rows: seq<StatsRow>) {
    && now.submissions == was.submissions + ProblemTotal(rows, was.problem, Attempts)
    && now.acceptedUsers == was.acceptedUsers + ProblemTotal(rows, was.problem, Accepted)
  }

  lemma CounterMore(now: Column, was: Column, rows: seq<StatsRow>, row: StatsRow)
    requires Counter(now, was, rows)
    ensures Counter(if row.problem == was.problem then Raised(now, row) else now, was, rows + [row])
  {
    TotalsMore(rows, row, was.problem, Attempts);
    TotalsMore(rows, row, was.problem, Accepted);
    hide ProblemTotal, UserTotal, RowValue;
  }

  lemma CountersAfterRow(
      page: Page, page': Page, rows: seq<StatsRow>, row: StatsRow, c0: nat, columns: seq<Column>, ranked: seq<UserRow>)
    requires DistinctProblems(columns) && c0 < |columns| && columns[c0].problem == row.problem
    requires SameFrame(page, columns, ranked) && SameFrame(page', columns, ranked)
    requires CountersConserved(page, rows, columns, ranked)
    requires page'.columns == page.columns[c0 := Raised(page.columns[c0], row)]
    ensures CountersConserved(page', rows + [row], columns, ranked)
  {
    assert |page.columns| == |columns|;
    assert forall c | 0 <= c < |columns| && c != c0 :: columns[c].problem != row.problem;
    hide SameFrame, Counter, DistinctProblems, Raised;
    forall c | 0 <= c < |columns| ensures Counter(page'.columns[c], columns[c], rows + [row]) {
      CounterMore(page.columns[c], columns[c], rows, row);
    }
  }

  /** One row, with its column and its entry known. */
  lemma FillRowConserves(
      page: Page, rows: seq<StatsRow>, row: StatsRow, start: int, columns: seq<Column>, ranked: seq<UserRow>)
    requires DistinctProblems(columns) && DistinctUsers(ranked)
    requires Conserved(page, rows, columns, ranked)
    requires Indexed(page, ProblemIndex(columns), EntryIndex(ranked))
    requires row.problem in ProblemIndex(columns) && row.user in EntryIndex(ranked)
    requires !HasRow(rows, row.user, row.problem)
    ensures Conserved(FillRow(page, row, start, ProblemIndex(columns), EntryIndex(ranked)), rows + [row], columns, ranked)
  {
    var page' := FillRow(page, row, start, ProblemIndex(columns), EntryIndex(ranked));
    var c, e := ProblemIndex(columns)[row.problem], EntryIndex(ranked)[row.user];
    var cell := Filled(page.columns[c].alias, row, start);
    RowWrites(page, rows, row, start, columns, ranked);
    hide FillRow, Filled, ProblemIndex, EntryIndex, SameFrame, Writes, HasRow,
         Untouched, EntriesConserved, ColumnsConserved, CountersConserved;
    CellsAfterRow(page, page', rows, row, c, e, cell, columns, ranked);
    EntriesAfterRow(page, page', rows, row, c, e, cell, columns, ranked);
    ColumnsAfterRow(page, page', rows, row, c, e, cell, columns, ranked);
    CountersAfterRow(page, page', rows, row, c, columns, ranked);
  }

  lemma RowWrites(
      page: Page, rows: seq<StatsRow>, row: StatsRow, start: int, columns: seq<Column>, ranked: seq<UserRow>)
    requires SameFrame(page, columns, ranked) && Untouched(page, rows, columns, ranked)
    requires Indexed(page, ProblemIndex(columns), EntryIndex(ranked))
    requires row.problem in ProblemIndex(columns) && row.user in EntryIndex(ranked)
    requires !HasRow(rows, row.user, row.problem)
    ensures var c, e := ProblemIndex(columns)[row.problem], EntryIndex(ranked)[row.user];
            var page' := FillRow(page, row, start, ProblemIndex(columns), EntryIndex(ranked));
            && columns[c].problem == row.problem && ranked[e].user == row.user
            && Writes(page, page', row, c, e, Filled(page.columns[c].alias, row, start))
  {
    var problems, users := ProblemIndex(columns), EntryIndex(ranked);
    var c, e := problems[row.problem], users[row.user];
    assert c < |columns| && e < |ranked| && columns[c].problem == row.problem && ranked[e].user == row.user;
    hide ProblemIndex, EntryIndex, HasRow;
    assert page.entries[e].cells[c] == Blank(columns[c]);
    hide SameFrame, Untouched;
    WritesRow(page, row, start, problems, users);
  }

  lemma WritesRow(page: Page, row: StatsRow, start: int, problems: map<int, nat>, users: map<int, nat>)
    requires Indexed(page, problems, users) && row.problem in problems && row.user in users
    requires exists column :: page.entries[users[row.user]].cells[problems[row.problem]] == Blank(column)
    ensures var c, e := problems[row.problem], users[row.user];
            Writes(page, FillRow(page, row, start, problems, users), row, c, e, Filled(page.columns[c].alias, row, start))
  {
    var c, e := problems[row.problem], users[row.user];
    assert c < |page.columns| && e < |page.entries| && c < |page.entries[e].cells|;
  }

  /** The loop from the blank page. */
  lemma {:induction false} FillRowsConserves(
      columns: seq<Column>, ranked: seq<UserRow>, rows: seq<StatsRow>, start: int)
    requires DistinctProblems(columns) && DistinctUsers(ranked) && DistinctKeys(rows) && Belongs(rows, columns, ranked)
    ensures Conserved(PageOf(columns, ranked, rows, start), rows, columns, ranked)
    decreases |rows|
  {
    if rows == [] {
      BlankPageConserves(columns, ranked);
    } else {
      var n := |rows| - 1;
      var row := rows[n];
      assert rows == rows[..n] + [row];
      assert row.problem in ProblemIndex(columns) && row.user in EntryIndex(ranked);
      assert !HasRow(rows[..n], row.user, row.problem);
      assert DistinctKeys(rows[..n]) && Belongs(rows[..n], columns, ranked);
      hide Conserved, ProblemIndex, EntryIndex, HasRow, FillRow, PageOf, Indexed, DistinctKeys, Belongs,
           DistinctProblems, DistinctUsers;
      PageOfMore(columns, ranked, rows, start);
      FillRowsConserves(columns, ranked, rows[..n], start);
      FillRowConserves(PageOf(columns, ranked, rows[..n], start), rows[..n], row, start, columns, ranked);
    }
  }

  lemma PageOfMore(columns: seq<Column>, ranked: seq<UserRow>, rows: seq<StatsRow>, start: int)
    requires rows != []
    ensures var n := |rows| - 1;
            var page := PageOf(columns, ranked, rows[..n], start);
            && Indexed(page, ProblemIndex(columns), EntryIndex(ranked))
            && PageOf(columns, ranked, rows, start)
               == FillRow(page, rows[n], start, ProblemIndex(columns), EntryIndex(ranked))
  {
    hide ProblemIndex, EntryIndex, NewEntries;
  }

  lemma BlankPageConserves(columns: seq<Column>, ranked: seq<UserRow>)
    ensures Conserved(Page(columns, NewEntries(ranked, columns, |ranked|)), [], columns, ranked)
  {
    var page := Page(columns, NewEntries(ranked, columns, |ranked|));
    forall e | 0 <= e < |ranked|
      ensures page.entries[e] == NewEntry(ranked[e], 1 + RunStart(ranked, e), columns)
    {
      NewEntryAt(ranked, columns, |ranked|, e);
    }
    hide NewEntries, RunStart;
    assert SameFrame(page, columns, ranked);
    forall e, m | 0 <= e < |ranked| ensures Across(page.entries[e].cells, m) == UserTotal([], ranked[e].user, m) {
      BlanksAddNothing(columns, m);
    }
    forall c, m | 0 <= c < |columns| ensures Down(page.entries, c, m) == ProblemTotal([], columns[c].problem, m) {
      BlankColumnAddsNothing(page.entries, columns, c, m);
    }
  }

  // ---- Conservation on the page ----------------------------------------------------------

  /** Both counters of a column are the sums down the entries. */
  predicate ColumnAddsUp(page: Page, c: nat) {
    && c < |page.columns| && (forall e | 0 <= e < |page.entries| :: c < |page.entries[e].cells|)
    && page.columns[c].submissions == Down(page.entries, c, Attempts)
    && page.columns[c].acceptedUsers == Down(page.entries, c, Accepted)
  }

  /** Column totals add up for any rows that belong to the page. */
  lemma ColumnsAddUp(columns: seq<Column>, ranked: seq<UserRow>, rows: seq<StatsRow>, start: int, c: nat)
    requires DistinctProblems(columns) && DistinctUsers(ranked) && DistinctKeys(rows) && Belongs(rows, columns, ranked)
    requires c < |columns| && columns[c].submissions == 0 && columns[c].acceptedUsers == 0
    ensures ColumnAddsUp(PageOf(columns, ranked, rows, start), c)
  {
    hide PageOf, DistinctProblems, DistinctUsers, DistinctKeys, Belongs, Conserved, ColumnAddsUp;
    FillRowsConserves(columns, ranked, rows, start);
    ConservedColumn(PageOf(columns, ranked, rows, start), rows, columns, ranked, c);
  }

  lemma ConservedColumn(page: Page, rows: seq<StatsRow>, columns: seq<Column>, ranked: seq<UserRow>, c: nat)
    requires Conserved(page, rows, columns, ranked)
    requires c < |columns| && columns[c].submissions == 0 && columns[c].acceptedUsers == 0
    ensures ColumnAddsUp(page, c)
  {
    hide Across, Down, ProblemTotal, UserTotal, Untouched, EntriesConserved;
  }

  /** The rows listed for an assignment, and the rank rows listed for it, each exactly once. */
  ghost predicate ListsTables(t: Tables, a: int, columns: seq<Column>, ranked: seq<UserRow>, rows: seq<StatsRow>) {
    && DistinctProblems(columns) && DistinctUsers(ranked) && DistinctKeys(rows)
    && (forall c | 0 <= c < |columns| :: columns[c].submissions == 0 && columns[c].acceptedUsers == 0)
    && (forall p | p in Listed(t, a) :: exists c :: 0 <= c < |columns| && columns[c].problem == p)
    && (forall i | 0 <= i < |rows| ::
          var k := Key(a, rows[i].user, rows[i].problem); k in t.rows && t.rows[k] == rows[i].stats)
    && (forall k | k in t.rows && k.assignment == a :: HasRow(rows, k.user, k.problem))
    && (forall e | 0 <= e < |ranked| ::
          var u := UserKey(a, ranked[e].user);
          u in t.ranks && ranked[e].solved == t.ranks[u].solved && ranked[e].score == t.ranks[u].score
          && ranked[e].penalty == t.ranks[u].penalty && ranked[e].rankScore == t.ranks[u].rankScore)
    && (forall u | u in t.ranks && u.assignment == a :: exists e :: 0 <= e < |ranked| && ranked[e].user == u.user)
  }

  lemma TablesBelong(t: Tables, a: int, columns: seq<Column>, ranked: seq<UserRow>, rows: seq<StatsRow>)
    requires Safe(t) && ListsTables(t, a, columns, ranked, rows)
    ensures Belongs(rows, columns, ranked)
  {
    forall i | 0 <= i < |rows|
      ensures rows[i].problem in ProblemIndex(columns) && rows[i].user in EntryIndex(ranked)
    {
      var k := Key(a, rows[i].user, rows[i].problem);
      PenaltyBounded(t, k);
      assert k.problem in Listed(t, a);
      assert UserKey(a, k.user) in t.ranks by {
        HasRank(t, k);
      }
    }
  }

  lemma HasRank(t: Tables, k: Key)
    requires Safe(t) && k in t.rows
    ensures UserKey(k.assignment, k.user) in t.ranks
  {
    assert RanksExact(t);
  }

  /** The rows of one user among those listed, by problem. */
  function RowsOf(rows: seq<StatsRow>, user: int): map<int, ProblemRow> {
    if rows == [] then map[]
    else
      var row := rows[|rows| - 1];
      var m := RowsOf(rows[..|rows| - 1], user);
      if row.user == user then m[row.problem := row.stats] else m
  }

  lemma {:induction false} RowsOfMeans(rows: seq<StatsRow>, user: int)
    requires DistinctKeys(rows)
    ensures forall p :: p in RowsOf(rows, user) <==> HasRow(rows, user, p)
    ensures forall i | 0 <= i < |rows| && rows[i].user == user ::
              rows[i].problem in RowsOf(rows, user) && RowsOf(rows, user)[rows[i].problem] == rows[i].stats
  {
    if rows != [] {
      var n := |rows| - 1;
      RowsOfMeans(rows[..n], user);
      assert rows == rows[..n] + [rows[n]];
      forall p ensures p in RowsOf(rows, user) <==> HasRow(rows, user, p) {
        HasRowMore(rows[..n], rows[n], user, p);
      }
      forall i | 0 <= i < n && rows[i].user == user
        ensures rows[i].problem in RowsOf(rows, user) && RowsOf(rows, user)[rows[i].problem] == rows[i].stats
      {
        assert rows[..n][i] == rows[i];
      }
    }
  }

  /** The database's sums over a user are the sums over the listed rows. */
  lemma {:induction false} SumIsUserTotal(rows: seq<StatsRow>, user: int)
    requires DistinctKeys(rows)
    requires forall i | 0 <= i < |rows| :: !rows[i].stats.accepted ==> rows[i].stats.penalty == 0
    ensures var s := Sum(RowsOf(rows, user));
            && s.solved == UserTotal(rows, user, Accepted) && s.score == UserTotal(rows, user, Points)
            && s.penalty == UserTotal(rows, user, Seconds)
  {
    if rows != [] {
      var n := |rows| - 1;
      SumIsUserTotal(rows[..n], user);
      if rows[n].user == user {
        RowsOfMeans(rows[..n], user);
        assert !HasRow(rows[..n], user, rows[n].problem);
        SumTakes(RowsOf(rows, user), rows[n].problem);
        assert RowsOf(rows, user) - {rows[n].problem} == RowsOf(rows[..n], user);
      }
    }
  }

  lemma ListedUserRows(t: Tables, a: int, columns: seq<Column>, ranked: seq<UserRow>, rows: seq<StatsRow>, user: int)
    requires ListsTables(t, a, columns, ranked, rows)
    ensures RowsOf(rows, user) == UserRows(t.rows, UserKey(a, user))
  {
    RowsOfMeans(rows, user);
    var listed, stored := RowsOf(rows, user), UserRows(t.rows, UserKey(a, user));
    forall p ensures (p in listed <==> p in stored) && (p in listed ==> listed[p] == stored[p]) {
      if p in listed {
        var i :| 0 <= i < |rows| && rows[i].user == user && rows[i].problem == p;
        assert Key(a, user, p) in t.rows;
      }
      if p in stored {
        assert Key(a, user, p) in t.rows;
      }
    }
  }

  /**
   * For every assignment of any reachable database the page adds up: each entry's solved count, score
   * and penalty are the sums over its cells.
   */
  lemma EntriesAddUp(
      t: Tables, a: int, columns: seq<Column>, ranked: seq<UserRow>, rows: seq<StatsRow>, start: int, e: nat)
    requires Safe(t) && ListsTables(t, a, columns, ranked, rows) && e < |ranked|
    ensures var page := PageOf(columns, ranked, rows, start);
            && |page.entries| == |ranked|
            && var entry := page.entries[e];
               && entry.solved == Across(entry.cells, Accepted) && entry.score == Across(entry.cells, Points)
               && entry.penalty == Across(entry.cells, Seconds)
  {
    TablesBelong(t, a, columns, ranked, rows);
    FillRowsConserves(columns, ranked, rows, start);
    var u := UserKey(a, ranked[e].user);
    ListedUserRows(t, a, columns, ranked, rows, ranked[e].user);
    forall i | 0 <= i < |rows| ensures !rows[i].stats.accepted ==> rows[i].stats.penalty == 0 {
      PenaltyBounded(t, Key(a, rows[i].user, rows[i].problem));
    }
    SumIsUserTotal(rows, ranked[e].user);
    assert t.ranks[u] == RankOf(t.rows, u) by { assert RanksExact(t); }
  }

  // ---- The ranks on the page ---------------------------------------------------------------

  ghost function Ahead(ranked: seq<UserRow>, a: int, score: int): set<UserKey> {
    set f | 0 <= f < |ranked| && ranked[f].rankScore > score :: UserKey(a, ranked[f].user)
  }

  lemma AheadMore(ranked: seq<UserRow>, a: int, score: int)
    requires ranked != [] && DistinctUsers(ranked)
    ensures var n := |ranked| - 1;
            var last := UserKey(a, ranked[n].user);
            && last !in Ahead(ranked[..n], a, score)
            && Ahead(ranked, a, score) == Ahead(ranked[..n], a, score) + if ranked[n].rankScore > score then {last} else {}
  {
    var n := |ranked| - 1;
    forall u ensures u in Ahead(ranked, a, score) <==>
                     u in Ahead(ranked[..n], a, score) || (u == UserKey(a, ranked[n].user) && ranked[n].rankScore > score)
    {
      if f :| 0 <= f < n && ranked[..n][f].rankScore > score && u == UserKey(a, ranked[..n][f].user) {
        assert ranked[f].rankScore > score;
      }
      if f :| 0 <= f < |ranked| && ranked[f].rankScore > score && u == UserKey(a, ranked[f].user) {
        assert f == n || ranked[..n][f] == ranked[f];
      }
    }
  }

  lemma {:induction false} AheadIsAbove(ranked: seq<UserRow>, a: int, score: int)
    requires DistinctUsers(ranked)
    ensures |Ahead(ranked, a, score)| == Above(ranked, score)
  {
    if ranked == [] {
      assert Ahead(ranked, a, score) == {};
    } else {
      AheadIsAbove(ranked[..|ranked| - 1], a, score);
      AheadMore(ranked, a, score);
      hide Ahead;
    }
  }

  /** The users whose standing is strictly better than that of u. */
  ghost function BetterUsers(t: Tables, u: UserKey): set<UserKey>
    requires u in t.ranks
  {
    set v | v in t.ranks && v.assignment == u.assignment && Better(t.ranks[v], t.ranks[u])
  }

  /** The rank shown is one plus the number of users who solved more, or as many in less time. */
  lemma PageRankIsStanding(
      t: Tables, a: int, columns: seq<Column>, ranked: seq<UserRow>, rows: seq<StatsRow>, start: int, e: nat)
    requires Safe(t) && ListsTables(t, a, columns, ranked, rows) && Separates(t, a)
    requires Descending(ranked) && e < |ranked|
    ensures UserKey(a, ranked[e].user) in t.ranks
    ensures var page := PageOf(columns, ranked, rows, start);
            && |page.entries| == |ranked|
            && page.entries[e].rank == 1 + |BetterUsers(t, UserKey(a, ranked[e].user))|
  {
    RankShown(t, a, columns, ranked, rows, start, e);
    hide Safe, Separates, Better, PageOf, Above, RunStart;
    RankInDescending(ranked, e);
    AheadIsAbove(ranked, a, ranked[e].rankScore);
    AheadIsBetter(t, a, columns, ranked, rows, e);
  }

  lemma RankShown(
      t: Tables, a: int, columns: seq<Column>, ranked: seq<UserRow>, rows: seq<StatsRow>, start: int, e: nat)
    requires Safe(t) && ListsTables(t, a, columns, ranked, rows) && e < |ranked|
    ensures var page := PageOf(columns, ranked, rows, start);
            |page.entries| == |ranked| && page.entries[e].rank == 1 + RunStart(ranked, e)
  {
    TablesBelong(t, a, columns, ranked, rows);
    FillRowsConserves(columns, ranked, rows, start);
  }

  lemma AheadIsBetter(t: Tables, a: int, columns: seq<Column>, ranked: seq<UserRow>, rows: seq<StatsRow>, e: nat)
    requires Safe(t) && ListsTables(t, a, columns, ranked, rows) && Separates(t, a) && e < |ranked|
    ensures var u := UserKey(a, ranked[e].user);
            u in t.ranks && Ahead(ranked, a, ranked[e].rankScore) == BetterUsers(t, u)
  {
    hide Safe, ListsTables, Separates, Better, Listed, Ahead, BetterUsers;
    var u, score := UserKey(a, ranked[e].user), ranked[e].rankScore;
    AheadIffBetter(t, a, columns, ranked, rows, e, u);
    forall v ensures v in Ahead(ranked, a, score) <==> v in BetterUsers(t, u) {
      AheadIffBetter(t, a, columns, ranked, rows, e, v);
    }
  }

  lemma AheadIffBetter(
      t: Tables, a: int, columns: seq<Column>, ranked: seq<UserRow>, rows: seq<StatsRow>, e: nat, v: UserKey)
    requires Safe(t) && ListsTables(t, a, columns, ranked, rows) && Separates(t, a) && e < |ranked|
    ensures UserKey(a, ranked[e].user) in t.ranks
    ensures v in Ahead(ranked, a, ranked[e].rankScore) <==> v in BetterUsers(t, UserKey(a, ranked[e].user))
  {
    hide Safe, Separates, Better, ListsTables;
    ListedRank(t, a, columns, ranked, rows, ranked[e].user);
    ListedRank(t, a, columns, ranked, rows, v.user);
    if v in t.ranks && v.assignment == a {
      ScoresAreStandings(t, v, UserKey(a, ranked[e].user));
    }
  }

  /** The listing and the rank table name the same users, with the same scores. */
  lemma ListedRank(t: Tables, a: int, columns: seq<Column>, ranked: seq<UserRow>, rows: seq<StatsRow>, user: int)
    requires ListsTables(t, a, columns, ranked, rows)
    ensures UserKey(a, user) in t.ranks <==> exists f :: 0 <= f < |ranked| && ranked[f].user == user
    ensures forall f | 0 <= f < |ranked| && ranked[f].user == user ::
              UserKey(a, user) in t.ranks && ranked[f].rankScore == t.ranks[UserKey(a, user)].rankScore
  {
    hide Listed, DistinctKeys, DistinctProblems, DistinctUsers, HasRow;
    if UserKey(a, user) in t.ranks {
      assert UserKey(a, user).user == user && UserKey(a, user).assignment == a;
    }
  }
}
