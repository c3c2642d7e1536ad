/** Reading the rank rows through the Redis sorted set, and the ranks shown for them. */
module RankCache {
  import opened Text
  import opened Numbers
  import opened RankScore

  /** A row of assignment_user_rank_stats for one assignment. */
  datatype UserRow = UserRow(user: int, username: string, solved: int, score: int, penalty: int, rankScore: int)

  /** A member of the sorted set with its score, as ZREVRANGE WITHSCORES lists it. */
  datatype Item = Item(member: string, score: real)

  // ---- The joined rows -------------------------------------------------------

  /** load_rank_row_map: of two rows of one user emplace keeps the first. */
  function ByUser(rows: seq<UserRow>): (m: map<int, UserRow>)
    ensures forall u | u in m :: m[u] in rows && m[u].user == u
  {
    if rows == [] then map[]
    else
      var m := ByUser(rows[..|rows| - 1]);
      var row := rows[|rows| - 1];
      if row.user in m then m else m[row.user := row]
  }

  /** The user a member names, if it names one that has a row. */
  function Known(item: Item, byUser: map<int, UserRow>): Option<int> {
    var id := ParseInt64(item.member);
    if id.Some? && id.value in byUser then id else None
  }

  function Joined(listed: seq<Item>, byUser: map<int, UserRow>): seq<UserRow> {
    if listed == [] then []
    else
      var rows := Joined(listed[..|listed| - 1], byUser);
      var user := Known(listed[|listed| - 1], byUser);
      if user.Some? then rows + [byUser[user.value]] else rows
  }

  predicate UsesCache(hasKey: bool, listed: seq<Item>, mysql: seq<UserRow>) {
    hasKey && listed != [] && |Joined(listed, ByUser(mysql))| == |ByUser(mysql)|
  }

  function Load(hasKey: bool, listed: seq<Item>, mysql: seq<UserRow>): seq<UserRow> {
    if UsesCache(hasKey, listed, mysql) then Joined(listed, ByUser(mysql)) else mysql
  }

  // ---- The cache as it is written -----------------------------------------------

  /** A Redis sorted set. */
  class SortedSet {
    var scores: map<string, real>

    constructor ()
      ensures scores == map[]
    {
      scores := map[];
    }

    method Zadd(member: string, score: real)
      modifies this
      ensures scores == old(scores)[member := score]
    {
      scores := scores[member := score];
    }
  }

  function Refilled(scores: map<string, real>, rows: seq<UserRow>): map<string, real> {
    if rows == [] then scores
    else
      var row := rows[|rows| - 1];
      Refilled(scores, rows[..|rows| - 1])[PrintInt(row.user) := ToDouble(row.rankScore) as real]
  }

  method Refill(cache: SortedSet, rows: seq<UserRow>)
    modifies cache
    ensures cache.scores == Refilled(old(cache.scores), rows)
  {
    for i := 0 to |rows|
      invariant cache.scores == Refilled(old(cache.scores), rows[..i])
    {
      assert rows[..i + 1][..i] == rows[..i];
      cache.Zadd(PrintInt(rows[i].user), ToDouble(rows[i].rankScore) as real);
    }
    assert rows[..|rows|] == rows;
  }

  /** `hasKey` and `listed` are what two separate Redis calls answered; nothing ties them to `cache`. */
  method LoadRankRows(cache: SortedSet, hasKey: bool, listed: seq<Item>, mysql: seq<UserRow>)
    returns (rows: seq<UserRow>, usedRedis: bool)
    modifies cache
    ensures rows == Load(hasKey, listed, mysql) && usedRedis == UsesCache(hasKey, listed, mysql)
    ensures cache.scores == if usedRedis then old(cache.scores) else Refilled(old(cache.scores), mysql)
  {
    if !hasKey || listed == [] {
      Refill(cache, mysql);
      return mysql, false;
    }
    var byUser := ByUser(mysql);
    rows := [];
    for i := 0 to |listed|
      invariant rows == Joined(listed[..i], byUser)
    {
      assert listed[..i + 1][..i] == listed[..i];
      var id := ParseInt64(listed[i].member);
      if id.Some? && id.value in byUser {
        rows := rows + [byUser[id.value]];
      }
    }
    assert listed[..|listed|] == listed;
    usedRedis := |rows| == |byUser|;
    if !usedRedis {
      Refill(cache, mysql);
      rows := mysql;
    }
  }

  // ---- Reading through the cache changes nothing but the order --------------------

  /** (assignment_id, user_id) is the primary key of the table. */
  predicate DistinctUsers(rows: seq<UserRow>) {
    forall i, j | 0 <= i < j < |rows| :: rows[i].user != rows[j].user
  }

  /** Two members of the set read as one and the same stored user. */
  predicate Collides(listed: seq<Item>, byUser: map<int, UserRow>) {
    exists i, j :: 0 <= i < j < |listed| && Known(listed[i], byUser).Some?
                   && Known(listed[i], byUser) == Known(listed[j], byUser)
  }

  lemma {:induction false} ByUserOfDistinct(rows: seq<UserRow>)
    requires DistinctUsers(rows)
    ensures |ByUser(rows)| == |rows|
    ensures forall row :: row in rows ==> row.user in ByUser(rows) && ByUser(rows)[row.user] == row
  {
    if rows != [] {
      var n := |rows| - 1;
      ByUserOfDistinct(rows[..n]);
      assert rows[n].user !in ByUser(rows[..n]);
    }
  }

  predicate Names(listed: seq<Item>, byUser: map<int, UserRow>, user: int) {
    exists i :: 0 <= i < |listed| && Known(listed[i], byUser) == Some(user)
  }

  lemma NamesMore(listed: seq<Item>, byUser: map<int, UserRow>, user: int)
    requires listed != []
    ensures var n := |listed| - 1;
            Names(listed, byUser, user) <==> Names(listed[..n], byUser, user) || Known(listed[n], byUser) == Some(user)
  {
    hide Known;
    var n := |listed| - 1;
    if i :| 0 <= i < n && Known(listed[..n][i], byUser) == Some(user) {
      assert Known(listed[i], byUser) == Some(user);
    }
    if i :| 0 <= i < |listed| && Known(listed[i], byUser) == Some(user) {
      assert i < n ==> Known(listed[..n][i], byUser) == Some(user);
    }
  }

  /** The joined rows are the rows of the users that members name. */
  lemma {:induction false} JoinedRows(listed: seq<Item>, byUser: map<int, UserRow>)
    requires forall u | u in byUser :: byUser[u].user == u
    ensures forall row :: row in Joined(listed, byUser) <==>
                          row.user in byUser && byUser[row.user] == row && Names(listed, byUser, row.user)
  {
    if listed != [] {
      var n := |listed| - 1;
      var last := Known(listed[n], byUser);
      assert last.Some? ==> last.value in byUser;
      hide Known, Names;
      JoinedRows(listed[..n], byUser);
      forall row
        ensures row in Joined(listed, byUser) <==>
                row.user in byUser && byUser[row.user] == row && Names(listed, byUser, row.user)
      {
        NamesMore(listed, byUser, row.user);
      }
    }
  }

  /** The joined rows repeat a user exactly where two members collide. */
  lemma {:induction false} JoinedDistinct(listed: seq<Item>, byUser: map<int, UserRow>)
    requires forall u | u in byUser :: byUser[u].user == u
    ensures DistinctUsers(Joined(listed, byUser)) <==> !Collides(listed, byUser)
  {
    if listed != [] {
      var n := |listed| - 1;
      var less := listed[..n];
      var last := Known(listed[n], byUser);
      assert last.Some? ==> last.value in byUser;
      hide Known;
      JoinedDistinct(less, byUser);
      JoinedRows(less, byUser);
      CollidesMore(listed, byUser);
      var rows := Joined(less, byUser);
      if last.Some? {
        AppendDistinct(rows, byUser[last.value]);
      }
    }
  }

  lemma CollidesMore(listed: seq<Item>, byUser: map<int, UserRow>)
    requires listed != []
    ensures var n := |listed| - 1;
            var last := Known(listed[n], byUser);
            Collides(listed, byUser) <==>
              Collides(listed[..n], byUser)
              || (last.Some? && Names(listed[..n], byUser, last.value))
  {
    hide Known;
    var n := |listed| - 1;
    var less := listed[..n];
    var last := Known(listed[n], byUser);
    if Collides(less, byUser) {
      var i, j :| 0 <= i < j < |less| && Known(less[i], byUser).Some? && Known(less[i], byUser) == Known(less[j], byUser);
      assert listed[i] == less[i] && listed[j] == less[j];
    }
    if last.Some? {
      if i :| 0 <= i < n && Known(less[i], byUser) == last {
        assert listed[i] == less[i];
      }
    }
    if Collides(listed, byUser) {
      var i, j :| 0 <= i < j < |listed| && Known(listed[i], byUser).Some? && Known(listed[i], byUser) == Known(listed[j], byUser);
      assert listed[i] == less[i];
      assert j < n ==> listed[j] == less[j];
    }
  }

  lemma AppendDistinct(rows: seq<UserRow>, row: UserRow)
    ensures DistinctUsers(rows + [row]) <==> DistinctUsers(rows) && forall r :: r in rows ==> r.user != row.user
  {
    var all := rows + [row];
    assert forall i | 0 <= i < |rows| :: all[i] == rows[i];
    if DistinctUsers(all) {
      forall r | r in rows ensures r.user != row.user {
        var i :| 0 <= i < |rows| && rows[i] == r;
        assert all[i].user != all[|rows|].user;
      }
      forall i, j | 0 <= i < j < |rows| ensures rows[i].user != rows[j].user {
        assert all[i].user != all[j].user;
      }
    }
  }

  // ---- Pigeonhole -----------------------------------------------------------------

  lemma {:induction false} OnceEach(rows: seq<UserRow>)
    requires DistinctUsers(rows)
    ensures forall r :: multiset(rows)[r] <= 1
  {
    if rows != [] {
      var n := |rows| - 1;
      OnceEach(rows[..n]);
      assert rows == rows[..n] + [rows[n]];
      assert rows[n] !in rows[..n];
    }
  }

  /** As many distinct rows as the table has, all from the table: they are the table. */
  lemma Pigeonhole(rows: seq<UserRow>, table: seq<UserRow>)
    requires DistinctUsers(rows) && |rows| == |table|
    requires forall r :: r in rows ==> r in table
    ensures multiset(rows) == multiset(table)
  {
    Below(rows, table);
    var a, b := multiset(rows), multiset(table);
    assert b == a + (b - a);
    assert |b - a| == 0;
  }

  lemma Below(rows: seq<UserRow>, table: seq<UserRow>)
    requires DistinctUsers(rows) && forall r :: r in rows ==> r in table
    ensures multiset(rows) <= multiset(table) && |rows| <= |table|
  {
    OnceEach(rows);
    var a, b := multiset(rows), multiset(table);
    forall r | r in a ensures a[r] <= b[r] {
      assert r in table;
    }
    assert b == a + (b - a);
  }

  lemma PermutationDistinct(rows: seq<UserRow>, table: seq<UserRow>)
    requires DistinctUsers(table) && multiset(rows) == multiset(table)
    ensures DistinctUsers(rows)
  {
    OnceEach(table);
    forall i, j | 0 <= i < j < |rows| ensures rows[i].user != rows[j].user {
      assert rows[i] in multiset(rows) && rows[j] in multiset(rows);
      var p :| 0 <= p < |table| && table[p] == rows[i];
      var q :| 0 <= q < |table| && table[q] == rows[j];
      if p == q {
        TwiceIn(rows, i, j);
      }
    }
  }

  lemma TwiceIn(rows: seq<UserRow>, i: nat, j: nat)
    requires i < j < |rows| && rows[i] == rows[j]
    ensures multiset(rows)[rows[i]] >= 2
  {
    assert rows == rows[..j] + rows[j..];
    assert rows[i] in rows[..j] && rows[j] in rows[j..];
  }

  /** Whatever the sorted set holds, the rows are those of the table unless two members collide and are believed. */
  lemma LoadExact(hasKey: bool, listed: seq<Item>, mysql: seq<UserRow>)
    requires DistinctUsers(mysql)
    ensures multiset(Load(hasKey, listed, mysql)) == multiset(mysql)
            <==> !(UsesCache(hasKey, listed, mysql) && Collides(listed, ByUser(mysql)))
  {
    if UsesCache(hasKey, listed, mysql) {
      var rows := Joined(listed, ByUser(mysql));
      ByUserOfDistinct(mysql);
      JoinedRows(listed, ByUser(mysql));
      JoinedDistinct(listed, ByUser(mysql));
      hide Joined, ByUser, Collides, Known;
      if multiset(rows) == multiset(mysql) {
        PermutationDistinct(rows, mysql);
      }
      if DistinctUsers(rows) {
        Pigeonhole(rows, mysql);
      }
    }
  }

  /** Unless members collide, the set is believed exactly if it exists and names every user of the table. */
  lemma BelievedExactly(hasKey: bool, listed: seq<Item>, mysql: seq<UserRow>)
    requires DistinctUsers(mysql) && !Collides(listed, ByUser(mysql))
    ensures UsesCache(hasKey, listed, mysql) <==>
            hasKey && listed != [] && forall row | row in mysql :: Names(listed, ByUser(mysql), row.user)
  {
    var rows := Joined(listed, ByUser(mysql));
    ByUserOfDistinct(mysql);
    JoinedRows(listed, ByUser(mysql));
    JoinedDistinct(listed, ByUser(mysql));
    hide Joined, ByUser, Collides, Known, Names, DistinctUsers;
    assert forall row | row in rows :: row in mysql;
    Below(rows, mysql);
    if |rows| == |mysql| {
      Pigeonhole(rows, mysql);
      forall row | row in mysql ensures row in rows {
        assert row in multiset(mysql);
      }
    }
    if forall row | row in mysql :: Names(listed, ByUser(mysql), row.user) {
      Below(mysql, rows);
    }
  }

  /** Members as the platform writes them, or texts that are no number at all. */
  predicate PlatformMembers(listed: seq<Item>) {
    && (forall i, j | 0 <= i < j < |listed| :: listed[i].member != listed[j].member)
    && (forall i | 0 <= i < |listed| ::
          ParseInt64(listed[i].member).Some? ==> listed[i].member == PrintInt(ParseInt64(listed[i].member).value))
  }

  lemma PlatformMembersAreSafe(hasKey: bool, listed: seq<Item>, mysql: seq<UserRow>)
    requires DistinctUsers(mysql) && PlatformMembers(listed)
    ensures multiset(Load(hasKey, listed, mysql)) == multiset(mysql)
  {
    LoadExact(hasKey, listed, mysql);
    hide Load, PrintInt, ParseInt64, ByUser;
    assert !Collides(listed, ByUser(mysql));
  }

  /** A foreign member "01" beside "1" makes the cache repeat one user and drop another. */
  lemma ForeignMemberDropsUser(one: UserRow, two: UserRow)
    requires one.user == 1 && two.user == 2
    ensures Load(true, [Item("1", 0.0), Item("01", 0.0)], [one, two]) == [one, one]
  {
    NonCanonicalTextsCollide();
    hide ParseInt64;
    var listed := [Item("1", 0.0), Item("01", 0.0)];
    var mysql := [one, two];
    assert mysql[..1] == [one] && mysql[..1][..0] == [] && mysql[..1][0] == one;
    assert ByUser([one]) == map[1 := one];
    assert ByUser(mysql) == map[1 := one, 2 := two];
    assert listed[..1] == [listed[0]] && listed[..1][..0] == [];
    assert Joined(listed[..1], ByUser(mysql)) == [one];
  }

  // ---- Ranks ------------------------------------------------------------------------

  /** Where the run of equal scores that reaches position i begins. */
  function RunStart(rows: seq<UserRow>, i: nat): (k: nat)
    requires i < |rows|
    ensures k <= i
  {
    if i == 0 || rows[i - 1].rankScore != rows[i].rankScore then i else RunStart(rows, i - 1)
  }

  predicate Descending(rows: seq<UserRow>) {
    forall i | 0 < i < |rows| :: rows[i - 1].rankScore >= rows[i].rankScore
  }

  /** How many rows have a strictly greater score. */
  function Above(rows: seq<UserRow>, score: int): (n: nat)
    ensures n <= |rows|
  {
    if rows == [] then 0
    else Above(rows[..|rows| - 1], score) + if rows[|rows| - 1].rankScore > score then 1 else 0
  }

  predicate Ranked(rows: seq<UserRow>) {
    forall i | 0 <= i < |rows| :: 1 + RunStart(rows, i) == 1 + Above(rows, rows[i].rankScore)
  }

  lemma {:induction false} AboveSplit(rows: seq<UserRow>, k: nat, score: int)
    requires k <= |rows|
    ensures Above(rows, score) == Above(rows[..k], score) + Above(rows[k..], score)
    decreases |rows|
  {
    var n := |rows| - 1;
    if k == |rows| {
      assert rows[..k] == rows && rows[k..] == [];
    } else {
      AboveSplit(rows[..n], k, score);
      assert rows[..n][..k] == rows[..k];
      assert rows[k..][..n - k] == rows[..n][k..];
    }
  }

  lemma {:induction false} AboveAll(rows: seq<UserRow>, score: int)
    ensures (forall i | 0 <= i < |rows| :: rows[i].rankScore > score) ==> Above(rows, score) == |rows|
    ensures (forall i | 0 <= i < |rows| :: rows[i].rankScore <= score) ==> Above(rows, score) == 0
  {
    if rows != [] {
      AboveAll(rows[..|rows| - 1], score);
    }
  }

  lemma {:induction false} DescendingOrders(rows: seq<UserRow>, i: nat, j: nat)
    requires Descending(rows) && i <= j < |rows|
    ensures rows[i].rankScore >= rows[j].rankScore
    ensures i < RunStart(rows, j) ==> rows[i].rankScore > rows[j].rankScore
    decreases j
  {
    if i < j {
      DescendingOrders(rows, i, j - 1);
    }
  }

  lemma {:induction false} SameRun(rows: seq<UserRow>, j: nat)
    requires j < |rows|
    ensures rows[RunStart(rows, j)].rankScore == rows[j].rankScore
  {
    if RunStart(rows, j) != j {
      SameRun(rows, j - 1);
    }
  }

  lemma RankInDescending(rows: seq<UserRow>, j: nat)
    requires Descending(rows) && j < |rows|
    ensures RunStart(rows, j) == Above(rows, rows[j].rankScore)
  {
    var k, score := RunStart(rows, j), rows[j].rankScore;
    SameRun(rows, j);
    forall i | 0 <= i < k ensures rows[..k][i].rankScore > score {
      DescendingOrders(rows, i, j);
    }
    forall i | 0 <= i < |rows| - k ensures rows[k..][i].rankScore <= score {
      DescendingOrders(rows, k, k + i);
    }
    AboveAll(rows[..k], score);
    AboveAll(rows[k..], score);
    AboveSplit(rows, k, score);
  }

  lemma {:induction false} AboveAntitone(rows: seq<UserRow>, low: int, high: int)
    requires low < high
    ensures Above(rows, high) + (if exists i :: 0 <= i < |rows| && rows[i].rankScore == high then 1 else 0) <= Above(rows, low)
  {
    if rows != [] {
      var n := |rows| - 1;
      AboveAntitone(rows[..n], low, high);
      if i :| 0 <= i < |rows| && rows[i].rankScore == high {
        assert i < n ==> rows[..n][i].rankScore == high;
      }
    }
  }

  /** Every rank is one plus the number of strictly better users if and only if the rows come in descending order. */
  lemma RankedIffDescending(rows: seq<UserRow>)
    ensures Ranked(rows) <==> Descending(rows)
  {
    if Descending(rows) {
      forall j | 0 <= j < |rows| ensures RunStart(rows, j) == Above(rows, rows[j].rankScore) {
        RankInDescending(rows, j);
      }
    }
    if Ranked(rows) {
      forall i | 0 < i < |rows| ensures rows[i - 1].rankScore >= rows[i].rankScore {
        assert RunStart(rows, i - 1) <= i - 1 && (rows[i - 1].rankScore != rows[i].rankScore ==> RunStart(rows, i) == i);
        if rows[i - 1].rankScore < rows[i].rankScore {
          AboveAntitone(rows, rows[i - 1].rankScore, rows[i].rankScore);
        }
      }
    }
  }

  lemma AboveWithout(rows: seq<UserRow>, k: nat, score: int)
    requires k < |rows|
    ensures Above(rows, score) ==
            Above(rows[..k] + rows[k + 1..], score) + if rows[k].rankScore > score then 1 else 0
  {
    var rest := rows[..k] + rows[k + 1..];
    AboveSplit(rows, k + 1, score);
    AboveSplit(rest, k, score);
    assert rest[..k] == rows[..k] && rest[k..] == rows[k + 1..];
    assert rows[..k + 1][..k] == rows[..k];
  }

  lemma Without(rows: seq<UserRow>, k: nat)
    requires k < |rows|
    ensures multiset(rows[..k] + rows[k + 1..]) == multiset(rows) - multiset{rows[k]}
  {
    assert rows == rows[..k] + [rows[k]] + rows[k + 1..];
  }

  lemma SameRest(rows: seq<UserRow>, others: seq<UserRow>) returns (k: nat)
    requires rows != [] && multiset(rows) == multiset(others)
    ensures k < |others| && others[k] == rows[0]
    ensures multiset(rows[..0] + rows[1..]) == multiset(others[..k] + others[k + 1..])
  {
    assert rows[0] in multiset(rows);
    k :| 0 <= k < |others| && others[k] == rows[0];
    Without(rows, 0);
    Without(others, k);
  }

  lemma {:induction false} AbovePermutes(rows: seq<UserRow>, others: seq<UserRow>, score: int)
    requires multiset(rows) == multiset(others)
    ensures Above(rows, score) == Above(others, score)
    decreases |rows|
  {
    if rows == [] {
      assert |multiset(others)| == 0;
    } else {
      var k := SameRest(rows, others);
      AboveWithout(rows, 0, score);
      AboveWithout(others, k, score);
      hide Above;
      AbovePermutes(rows[..0] + rows[1..], others[..k] + others[k + 1..], score);
    }
  }

  /** A user has the same rank in any two descending orders of the same rows, however ties are broken. */
  lemma RanksAreStable(rows: seq<UserRow>, others: seq<UserRow>, i: nat, j: nat)
    requires multiset(rows) == multiset(others) && Descending(rows) && Descending(others)
    requires i < |rows| && j < |others| && rows[i].rankScore == others[j].rankScore
    ensures RunStart(rows, i) == RunStart(others, j)
  {
    RankInDescending(rows, i);
    RankInDescending(others, j);
    AbovePermutes(rows, others, rows[i].rankScore);
  }

  // ---- A coherent cache ---------------------------------------------------------------

  /** The listing is sorted and every score is the table's. */
  predicate Coherent(listed: seq<Item>, byUser: map<int, UserRow>) {
    && (forall i, j | 0 <= i < j < |listed| :: listed[i].score >= listed[j].score)
    && (forall i | 0 <= i < |listed| && Known(listed[i], byUser).Some? ::
          listed[i].score == ToDouble(byUser[Known(listed[i], byUser).value].rankScore) as real)
  }

  predicate ExactScores(byUser: map<int, UserRow>) {
    forall u | u in byUser :: -EXACT <= byUser[u].rankScore <= EXACT
  }

  lemma SmallIsExact(x: int)
    requires -EXACT <= x <= EXACT
    ensures ToDouble(x) == x
  {
    assert x >= 0 ==> Spacing(x, 1) == 1;
    assert x < 0 ==> Spacing(-x, 1) == 1;
  }

  lemma {:induction false} CoherentDescends(listed: seq<Item>, byUser: map<int, UserRow>)
    requires Coherent(listed, byUser) && ExactScores(byUser)
    ensures var rows := Joined(listed, byUser);
            && Descending(rows)
            && (listed != [] ==> forall i | 0 <= i < |rows| :: rows[i].rankScore as real >= listed[|listed| - 1].score)
  {
    if listed != [] {
      var n := |listed| - 1;
      var last := Known(listed[n], byUser);
      assert last.Some? ==> last.value in byUser;
      hide Known, ToDouble;
      assert forall i | 0 <= i < n :: listed[..n][i] == listed[i];
      CoherentDescends(listed[..n], byUser);
      var rows := Joined(listed[..n], byUser);
      if last.Some? {
        SmallIsExact(byUser[last.value].rankScore);
      }
    }
  }

  /**
   * With the platform's members, current scores and rows the table orders by score, the page shows each
   * user the rank the database alone would have given, whether Redis answered or not.
   */
  lemma CacheIsInvisible(hasKey: bool, listed: seq<Item>, mysql: seq<UserRow>, i: nat, j: nat)
    requires DistinctUsers(mysql) && Descending(mysql) && PlatformMembers(listed)
    requires Coherent(listed, ByUser(mysql)) && ExactScores(ByUser(mysql))
    requires i < |Load(hasKey, listed, mysql)| && j < |mysql| && Load(hasKey, listed, mysql)[i] == mysql[j]
    ensures RunStart(Load(hasKey, listed, mysql), i) == RunStart(mysql, j)
  {
    PlatformMembersAreSafe(hasKey, listed, mysql);
    CoherentDescends(listed, ByUser(mysql));
    RanksAreStable(Load(hasKey, listed, mysql), mysql, i, j);
  }

  // ---- Refilling ------------------------------------------------------------------------

  lemma PrintIsInjective(x: int, y: int)
    requires INT64_MIN <= x <= INT64_MAX && INT64_MIN <= y <= INT64_MAX && PrintInt(x) == PrintInt(y)
    ensures x == y
  {
    Int64RoundTrip(x);
    Int64RoundTrip(y);
  }

  predicate Int64Users(rows: seq<UserRow>) {
    forall i | 0 <= i < |rows| :: INT64_MIN <= rows[i].user <= INT64_MAX
  }

  lemma {:induction false} RefilledHolds(rows: seq<UserRow>)
    requires DistinctUsers(rows) && Int64Users(rows)
    ensures var scores := Refilled(map[], rows);
            && (forall i | 0 <= i < |rows| ::
                  PrintInt(rows[i].user) in scores && scores[PrintInt(rows[i].user)] == ToDouble(rows[i].rankScore) as real)
            && (forall m | m in scores :: exists i :: 0 <= i < |rows| && m == PrintInt(rows[i].user))
  {
    hide PrintInt, ToDouble;
    if rows != [] {
      var n := |rows| - 1;
      RefilledHolds(rows[..n]);
      forall i | 0 <= i < n ensures PrintInt(rows[i].user) != PrintInt(rows[n].user) {
        if PrintInt(rows[i].user) == PrintInt(rows[n].user) {
          PrintIsInjective(rows[i].user, rows[n].user);
        }
      }
      forall i | 0 <= i < |rows|
        ensures PrintInt(rows[i].user) in Refilled(map[], rows)
        ensures Refilled(map[], rows)[PrintInt(rows[i].user)] == ToDouble(rows[i].rankScore) as real
      {
        assert i < n ==> rows[..n][i] == rows[i];
      }
      forall m | m in Refilled(map[], rows) ensures exists i :: 0 <= i < |rows| && m == PrintInt(rows[i].user) {
        if m in Refilled(map[], rows[..n]) {
          var i :| 0 <= i < |rows[..n]| && m == PrintInt(rows[..n][i].user);
          assert rows[i] == rows[..n][i];
        } else {
          assert m == PrintInt(rows[n].user);
        }
      }
    }
  }

  /** A listing of a sorted set: each member once, with its score, greatest score first. */
  predicate Lists(listed: seq<Item>, scores: map<string, real>) {
    && (forall i, j | 0 <= i < j < |listed| ::
          listed[i].member != listed[j].member && listed[i].score >= listed[j].score)
    && (forall i | 0 <= i < |listed| :: listed[i].member in scores && scores[listed[i].member] == listed[i].score)
    && (forall m | m in scores :: exists i :: 0 <= i < |listed| && listed[i].member == m)
  }

  lemma KnownUser(item: Item, mysql: seq<UserRow>, k: nat)
    requires DistinctUsers(mysql) && Int64Users(mysql) && k < |mysql| && item.member == PrintInt(mysql[k].user)
    ensures Known(item, ByUser(mysql)) == Some(mysql[k].user) == ParseInt64(item.member)
    ensures mysql[k].user in ByUser(mysql) && ByUser(mysql)[mysql[k].user] == mysql[k]
  {
    hide PrintInt, ParseInt64, ByUser;
    ByUserOfDistinct(mysql);
    Int64RoundTrip(mysql[k].user);
    assert mysql[k] in mysql;
  }

  lemma EachKnown(listed: seq<Item>, mysql: seq<UserRow>, i: nat)
    requires DistinctUsers(mysql) && Int64Users(mysql) && Lists(listed, Refilled(map[], mysql)) && i < |listed|
    ensures var byUser, item := ByUser(mysql), listed[i];
            && Known(item, byUser).Some? && Known(item, byUser) == ParseInt64(item.member)
            && Known(item, byUser).value in byUser
            && item.member == PrintInt(Known(item, byUser).value)
            && item.score == ToDouble(byUser[Known(item, byUser).value].rankScore) as real
  {
    RefilledHolds(mysql);
    hide PrintInt, ParseInt64, ToDouble, Refilled, ByUser, Known;
    assert listed[i].member in Refilled(map[], mysql);
    var k :| 0 <= k < |mysql| && listed[i].member == PrintInt(mysql[k].user);
    KnownUser(listed[i], mysql, k);
  }

  lemma EachListed(listed: seq<Item>, mysql: seq<UserRow>, k: nat)
    requires DistinctUsers(mysql) && Int64Users(mysql) && Lists(listed, Refilled(map[], mysql)) && k < |mysql|
    ensures Names(listed, ByUser(mysql), mysql[k].user)
    ensures mysql[k].user in ByUser(mysql) && ByUser(mysql)[mysql[k].user] == mysql[k]
  {
    RefilledHolds(mysql);
    hide PrintInt, ParseInt64, ToDouble, Refilled, ByUser, Known;
    assert PrintInt(mysql[k].user) in Refilled(map[], mysql);
    var i :| 0 <= i < |listed| && listed[i].member == PrintInt(mysql[k].user);
    KnownUser(listed[i], mysql, k);
  }

  /** What a refill wrote is platform-made and coherent, and the next read takes it. */
  lemma RefillThenRead(listed: seq<Item>, mysql: seq<UserRow>)
    requires mysql != [] && DistinctUsers(mysql) && Int64Users(mysql)
    requires Lists(listed, Refilled(map[], mysql))
    ensures PlatformMembers(listed) && Coherent(listed, ByUser(mysql))
    ensures UsesCache(true, listed, mysql)
  {
    var byUser := ByUser(mysql);
    ByUserOfDistinct(mysql);
    hide PrintInt, ParseInt64, ToDouble, Refilled, ByUser, Known, Joined;
    forall i | 0 <= i < |listed|
      ensures Known(listed[i], byUser).Some? && Known(listed[i], byUser).value in byUser
      ensures ParseInt64(listed[i].member) == Known(listed[i], byUser)
      ensures listed[i].member == PrintInt(Known(listed[i], byUser).value)
      ensures listed[i].score == ToDouble(byUser[Known(listed[i], byUser).value].rankScore) as real
    {
      EachKnown(listed, mysql, i);
    }
    assert PlatformMembers(listed) && Coherent(listed, byUser);
    assert !Collides(listed, byUser);
    RefillCovers(listed, mysql);
  }

  lemma RefillCovers(listed: seq<Item>, mysql: seq<UserRow>)
    requires mysql != [] && DistinctUsers(mysql) && Int64Users(mysql) && Lists(listed, Refilled(map[], mysql))
    requires !Collides(listed, ByUser(mysql))
    ensures UsesCache(true, listed, mysql)
  {
    var byUser := ByUser(mysql);
    ByUserOfDistinct(mysql);
    JoinedRows(listed, byUser);
    JoinedDistinct(listed, byUser);
    assert forall u | u in byUser :: byUser[u] in mysql;
    var rows := Joined(listed, byUser);
    hide Lists, Refilled, ByUser, Known, Joined, Collides, Names;
    forall k | 0 <= k < |mysql| ensures mysql[k] in rows {
      EachListed(listed, mysql, k);
    }
    Below(rows, mysql);
    Below(mysql, rows);
    assert listed != [] by {
      EachListed(listed, mysql, 0);
      NamedListed(listed, byUser, mysql[0].user);
    }
  }

  lemma NamedListed(listed: seq<Item>, byUser: map<int, UserRow>, user: int)
    requires Names(listed, byUser, user)
    ensures listed != []
  {
  }
}
