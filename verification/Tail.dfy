/** Reading the newest rows of a Delta table from few of its files
    (openbb-deltalake/openbb_deltalake/describe.py, store.py): files are taken
    newest first, by the log's statistics, until they hold rows enough. */
module Tail {
  import opened Options

  datatype Row = Row(date: int, value: real)

  /** A data file; `stats` says whether the log carries its date bounds. */
  datatype File = File(path: string, rows: seq<Row>, stats: bool)

  // ---- dates ----------------------------------------------------------

  function Latest(rows: seq<Row>): (m: int)
    requires rows != []
    ensures exists i :: 0 <= i < |rows| && rows[i].date == m
    ensures forall i :: 0 <= i < |rows| ==> rows[i].date <= m
  {
    if |rows| == 1 then rows[0].date
    else
      var m := Latest(rows[1..]);
      assert forall i :: 0 < i < |rows| ==> rows[i] == rows[1..][i - 1];
      if rows[0].date > m then rows[0].date else m
  }

  /** The log's bound for a file. */
  function MaxDate(f: File): Option<int> {
    if f.stats && f.rows != [] then Some(Latest(f.rows)) else None
  }

  /** Larger bounds first, missing ones last. */
  predicate NotBefore(a: Option<int>, b: Option<int>) {
    b.None? || (a.Some? && a.value >= b.value)
  }

  predicate NewestFirst(order: seq<File>) {
    forall i, j :: 0 <= i < j < |order| ==> NotBefore(MaxDate(order[i]), MaxDate(order[j]))
  }

  /** Newest first: a file with bounds comes before none that has a later date, nor
      after one without. */
  lemma NewestFirstMeans(order: seq<File>)
    ensures NewestFirst(order) <==>
            forall i, j :: 0 <= i < j < |order| && order[j].stats && order[j].rows != [] ==>
              order[i].stats && exists r :: r in order[i].rows && forall x :: x in order[j].rows ==> r.date >= x.date
  {
    forall i, j | 0 <= i < j < |order|
      ensures NotBefore(MaxDate(order[i]), MaxDate(order[j])) <==>
              (order[j].stats && order[j].rows != [] ==>
                 order[i].stats
                 && exists r :: r in order[i].rows && forall x :: x in order[j].rows ==> r.date >= x.date)
    {
      BoundMeans(order[i], order[j]);
    }
    hide NotBefore, MaxDate;
  }

  lemma BoundMeans(a: File, b: File)
    ensures NotBefore(MaxDate(a), MaxDate(b)) <==>
            (b.stats && b.rows != [] ==>
               a.stats && exists r :: r in a.rows && forall x :: x in b.rows ==> r.date >= x.date)
  {
    if b.stats && b.rows != [] {
      LatestMeans(b.rows);
      if a.rows != [] { LatestMeans(a.rows); }
    }
    hide Latest;
  }

  lemma LatestMeans(rows: seq<Row>)
    requires rows != []
    ensures exists r :: r in rows && r.date == Latest(rows)
    ensures forall r :: r in rows ==> r.date <= Latest(rows)
  {
    var i :| 0 <= i < |rows| && rows[i].date == Latest(rows);
    assert rows[i] in rows;
  }

  function RowsOf(files: seq<File>): seq<Row> {
    if files == [] then [] else RowsOf(files[..|files| - 1]) + files[|files| - 1].rows
  }

  // ---- the files taken ------------------------------------------------

  /** How many of the files, at least one if there is any, first hold `n` rows. */
  function Taken(order: seq<File>, n: nat): (k: nat)
    ensures k <= |order| && (order != [] ==> k > 0)
    ensures k < |order| ==> |RowsOf(order[..k])| >= n
    ensures forall j :: 0 < j < k ==> |RowsOf(order[..j])| < n
  {
    if |order| <= 1 then |order|
    else
      var front := order[..|order| - 1];
      var before := Taken(front, n);
      assert forall j :: 0 <= j <= |front| ==> front[..j] == order[..j];
      if |RowsOf(order[..before])| >= n then before else |order|
  }

  lemma {:induction false} TakenFirst(order: seq<File>, n: nat, k: nat)
    requires 0 < k <= |order|
    requires |RowsOf(order[..k])| >= n || k == |order|
    requires forall j :: 0 < j < k ==> |RowsOf(order[..j])| < n
    ensures Taken(order, n) == k
  {
    if |order| > 1 {
      var front := order[..|order| - 1];
      if k < |order| {
        assert front[..k] == order[..k];
        assert forall j :: 0 < j < k ==> front[..j] == order[..j];
        TakenFirst(front, n, k);
      } else {
        assert forall j :: 0 < j < k ==> front[..j] == order[..j];
        assert front[..|front|] == front;
        TakenFirst(front, n, |front|);
        assert order[..|front|] == front;
      }
    }
  }

  lemma NoRows()
    ensures RowsOf([]) == []
  {
  }

  lemma RowsSnoc(order: seq<File>, i: nat)
    requires i < |order|
    ensures order[..i + 1] == order[..i] + [order[i]] && RowsOf(order[..i + 1]) == RowsOf(order[..i]) + order[i].rows
  {
    assert order[..i + 1][..i] == order[..i];
  }

  method TrailingPaths(order: seq<File>, n: nat) returns (taken: seq<File>)
    ensures taken == if NoBounds(order) then [] else order[..Taken(order, n)]
  {
    if NoBounds(order) { return []; }
    hide Taken, NoBounds, RowsOf;
    NoRows();
    taken := [];
    var seen := 0;
    var i := 0;
    while i < |order|
      invariant i <= |order| && taken == order[..i] && seen == |RowsOf(order[..i])|
      invariant forall j :: 0 < j <= i ==> |RowsOf(order[..j])| < n
      decreases |order| - i
    {
      taken := taken + [order[i]];
      RowsSnoc(order, i);
      seen := seen + |order[i].rows|;
      i := i + 1;
      if seen >= n {
        TakenFirst(order, n, i);
        return;
      }
    }
    if order != [] { TakenFirst(order, n, |order|); }
  }

  // ---- sorting --------------------------------------------------------

  predicate Ascending(rows: seq<Row>) {
    forall i, j :: 0 <= i < j < |rows| ==> rows[i].date < rows[j].date
  }

  predicate DistinctDates(rows: seq<Row>) {
    forall i, j :: 0 <= i < j < |rows| ==> rows[i].date != rows[j].date
  }

  function Insert(rows: seq<Row>, r: Row): seq<Row> {
    if rows == [] then [r]
    else
      var n := |rows| - 1;
      if rows[n].date <= r.date then rows + [r] else Insert(rows[..n], r) + [rows[n]]
  }

  function Sorted(rows: seq<Row>): seq<Row> {
    if rows == [] then [] else Insert(Sorted(rows[..|rows| - 1]), rows[|rows| - 1])
  }

  ghost predicate SameRows(a: seq<Row>, b: seq<Row>) {
    forall r :: r in a <==> r in b
  }

  lemma {:induction false} InsertMeans(rows: seq<Row>, r: Row)
    ensures forall x :: x in Insert(rows, r) <==> x in rows || x == r
    ensures |Insert(rows, r)| == |rows| + 1
    ensures Ascending(rows) && (forall i :: 0 <= i < |rows| ==> rows[i].date != r.date) ==> Ascending(Insert(rows, r))
  {
    if rows != [] {
      var n := |rows| - 1;
      assert rows == rows[..n] + [rows[n]];
      InsertMeans(rows[..n], r);
      if rows[n].date > r.date {
        var front := Insert(rows[..n], r);
        assert forall i :: 0 <= i < |front| ==> front[i] in rows[..n] || front[i] == r;
      }
    }
  }

  lemma {:induction false} SortedMeans(rows: seq<Row>)
    ensures SameRows(Sorted(rows), rows) && |Sorted(rows)| == |rows|
    ensures DistinctDates(rows) ==> Ascending(Sorted(rows))
  {
    if rows != [] {
      var n := |rows| - 1;
      assert rows == rows[..n] + [rows[n]];
      SortedMeans(rows[..n]);
      var before := Sorted(rows[..n]);
      InsertMeans(before, rows[n]);
      forall i | DistinctDates(rows) && 0 <= i < |before| ensures before[i].date != rows[n].date {
        assert before[i] in before;
        var j :| 0 <= j < n && rows[..n][j] == before[i];
        assert rows[j].date != rows[n].date;
      }
    }
  }

  /** Rows in date order are determined by which rows they are. */
  lemma {:induction false} OrderUnique(a: seq<Row>, b: seq<Row>)
    requires Ascending(a) && Ascending(b) && SameRows(a, b)
    ensures a == b
  {
    HeadIn(a);
    HeadIn(b);
    if a != [] && b != [] {
      var m, n := |a| - 1, |b| - 1;
      SameEnd(a, b);
      hide SameRows;
      assert a == a[..m] + [a[m]] && b == b[..n] + [b[n]];
      OrderUnique(a[..m], b[..n]);
    }
  }

  lemma SameEnd(a: seq<Row>, b: seq<Row>)
    requires Ascending(a) && Ascending(b) && SameRows(a, b) && a != [] && b != []
    ensures a[|a| - 1] == b[|b| - 1] && SameRows(a[..|a| - 1], b[..|b| - 1])
  {
    var x, y := a[|a| - 1], b[|b| - 1];
    assert x in b && y in a;
    assert x.date <= y.date <= x.date;
    assert x == y;
    var m, n := |a| - 1, |b| - 1;
    forall r ensures r in a[..m] <==> r in b[..n] {
      LastOnly(a, r);
      LastOnly(b, r);
    }
  }

  lemma HeadIn(a: seq<Row>)
    ensures a != [] ==> a[0] in a
  {
  }

  lemma LastOnly(a: seq<Row>, r: Row)
    requires Ascending(a) && a != []
    ensures r in a[..|a| - 1] <==> r in a && r != a[|a| - 1]
  {
    assert a == a[..|a| - 1] + [a[|a| - 1]];
  }

  function Last<T>(s: seq<T>, n: nat): seq<T> {
    if n >= |s| then s else s[|s| - n..]
  }

  /** `read(...)`: every row, in date order; then the last `n`. */
  function FullTail(files: seq<File>, n: nat): seq<Row> {
    Last(Sorted(RowsOf(files)), n)
  }

  method ReadTrailing(files: seq<File>, order: seq<File>, n: nat) returns (rows: seq<Row>)
    ensures rows == if NoBounds(order) then FullTail(files, n)
                    else FullTail(order[..Taken(order, n)], n)
  {
    var taken := TrailingPaths(order, n);
    if taken == [] { return FullTail(files, n); }
    rows := FullTail(taken, n);
  }

  // ---- when it is the whole table's tail ------------------------------

  function Above(rows: seq<Row>, m: int): seq<Row> {
    if rows == [] then []
    else Above(rows[..|rows| - 1], m) + if rows[|rows| - 1].date > m then [rows[|rows| - 1]] else []
  }

  function Below(rows: seq<Row>, m: int): seq<Row> {
    if rows == [] then []
    else Below(rows[..|rows| - 1], m) + if rows[|rows| - 1].date <= m then [rows[|rows| - 1]] else []
  }

  lemma {:induction false} SplitHolds(rows: seq<Row>, m: int)
    ensures forall r :: r in Above(rows, m) <==> r in rows && r.date > m
    ensures forall r :: r in Below(rows, m) <==> r in rows && r.date <= m
  {
    if rows != [] {
      var n := |rows| - 1;
      assert rows == rows[..n] + [rows[n]];
      SplitHolds(rows[..n], m);
    }
  }

  lemma {:induction false} SplitOrdered(rows: seq<Row>, m: int)
    requires Ascending(rows)
    ensures rows == Below(rows, m) + Above(rows, m)
  {
    if rows != [] {
      var n := |rows| - 1;
      assert rows == rows[..n] + [rows[n]];
      SplitOrdered(rows[..n], m);
      if rows[n].date <= m { NoneAbove(rows[..n], m); }
    }
  }

  lemma {:induction false} NoneAbove(rows: seq<Row>, m: int)
    requires forall i :: 0 <= i < |rows| ==> rows[i].date <= m
    ensures Above(rows, m) == []
  {
    if rows != [] { NoneAbove(rows[..|rows| - 1], m); }
  }

  /** Rows in date order fall into the older ones and the newer ones. */
  lemma SplitMeans(rows: seq<Row>, m: int)
    ensures forall r :: r in Above(rows, m) <==> r in rows && r.date > m
    ensures forall r :: r in Below(rows, m) <==> r in rows && r.date <= m
    ensures Ascending(rows) ==>
      Ascending(Above(rows, m)) && Ascending(Below(rows, m)) && rows == Below(rows, m) + Above(rows, m)
  {
    SplitHolds(rows, m);
    if Ascending(rows) {
      SplitOrdered(rows, m);
      hide Above, Below;
      PartsAscend(Below(rows, m), Above(rows, m));
    }
  }

  lemma PartsAscend(b: seq<Row>, a: seq<Row>)
    requires Ascending(b + a)
    ensures Ascending(a) && Ascending(b)
  {
    var rows := b + a;
    assert forall i :: 0 <= i < |b| ==> b[i] == rows[i];
    assert forall i :: 0 <= i < |a| ==> a[i] == rows[|b| + i];
  }

  lemma LastOfSum(a: seq<Row>, b: seq<Row>, n: nat)
    ensures n <= |b| ==> Last(a + b, n) == Last(b, n)
    ensures n > |b| && a != [] ==> a[|a| - 1] in Last(a + b, n)
  {
    if n > |b| && a != [] {
      var l := Last(a + b, n);
      var start := if n >= |a + b| then 0 else |a + b| - n;
      assert l[|a| - 1 - start] == a[|a| - 1];
    }
  }

  /** Taking part of the rows and leaving the rest, whose newest date is `m`: the
      part has the whole's last `n` rows exactly if `n` of its rows are newer. */
  lemma PartTail(all: seq<Row>, part: seq<Row>, rest: seq<Row>, m: int, n: nat)
    requires DistinctDates(all) && DistinctDates(part) && rest != [] && m == Latest(rest)
    requires forall r :: r in all <==> r in part || r in rest
    requires forall r :: !(r in part && r in rest)
    ensures Last(Sorted(all), n) == Last(Sorted(part), n) <==> |Above(part, m)| >= n
  {
    hide Sorted, Above, Below, Last, Latest, DistinctDates, SameRows;
    var s, t := Sorted(all), Sorted(part);
    SameNewer(all, part, rest, m);
    SameCount(part, m);
    SortedSplits(all, m);
    SortedSplits(part, m);
    LastOfSum(Below(s, m), Above(s, m), n);
    LastOfSum(Below(t, m), Above(t, m), n);
    if |Above(part, m)| < n {
      SortedMeans(all);
      SortedMeans(part);
      NewestLeft(all, rest, s, m);
      var r := Below(s, m)[|Below(s, m)| - 1];
      assert r in rest && r in Last(s, n);
      assert r !in t by { NotSorted(part, r); }
      NotInLast(t, r, n);
    }
  }

  lemma NotSorted(part: seq<Row>, r: Row)
    ensures r in Sorted(part) <==> r in part
  {
    SortedMeans(part);
  }

  lemma SortedSplits(rows: seq<Row>, m: int)
    requires DistinctDates(rows)
    ensures Sorted(rows) == Below(Sorted(rows), m) + Above(Sorted(rows), m)
  {
    SortedMeans(rows);
    SplitMeans(Sorted(rows), m);
  }

  /** The rows newer than all left out are the same in both. */
  lemma SameNewer(all: seq<Row>, part: seq<Row>, rest: seq<Row>, m: int)
    requires DistinctDates(all) && DistinctDates(part) && rest != [] && m == Latest(rest)
    requires forall r :: r in all <==> r in part || r in rest
    ensures Above(Sorted(all), m) == Above(Sorted(part), m)
  {
    hide Sorted, Above, Below, Latest;
    var s, t := Sorted(all), Sorted(part);
    SortedMeans(all);
    SortedMeans(part);
    SplitMeans(s, m);
    SplitMeans(t, m);
    forall r ensures r in Above(s, m) <==> r in Above(t, m) { NotNewer(rest, r); }
    OrderUnique(Above(s, m), Above(t, m));
  }

  lemma NotNewer(rest: seq<Row>, r: Row)
    requires rest != []
    ensures r in rest ==> r.date <= Latest(rest)
  {
  }

  lemma NotInLast(t: seq<Row>, r: Row, n: nat)
    requires r !in t
    ensures r !in Last(t, n)
  {
  }

  /** The newest row left out is the last one not newer than itself. */
  lemma NewestLeft(all: seq<Row>, rest: seq<Row>, s: seq<Row>, m: int)
    requires Ascending(s) && SameRows(s, all) && rest != [] && m == Latest(rest)
    requires forall r :: r in rest ==> r in all
    ensures Below(s, m) != [] && Below(s, m)[|Below(s, m)| - 1] in rest
  {
    SplitMeans(s, m);
    var i :| 0 <= i < |rest| && rest[i].date == m;
    var b := Below(s, m);
    assert rest[i] in rest && rest[i] in b;
    hide Below, Above, Latest;
    LastOfAll(b, rest[i]);
  }

  /** The largest of rows in date order is the last one. */
  lemma LastOfAll(b: seq<Row>, r: Row)
    requires Ascending(b) && r in b && forall x :: x in b ==> x.date <= r.date
    ensures b[|b| - 1] == r
  {
    var k :| 0 <= k < |b| && b[k] == r;
    assert b[|b| - 1] in b;
  }

  lemma {:induction false} SameCount(part: seq<Row>, m: int)
    requires DistinctDates(part)
    ensures |Above(Sorted(part), m)| == |Above(part, m)|
  {
    if part != [] {
      var n := |part| - 1;
      SameCount(part[..n], m);
      AboveInsert(Sorted(part[..n]), part[n], m);
    }
  }

  lemma {:induction false} AboveInsert(rows: seq<Row>, r: Row, m: int)
    ensures |Above(Insert(rows, r), m)| == |Above(rows, m)| + if r.date > m then 1 else 0
  {
    if rows != [] {
      var n := |rows| - 1;
      if rows[n].date <= r.date {
        assert (rows + [r])[..|rows|] == rows;
      } else {
        AboveInsert(rows[..n], r, m);
        assert (Insert(rows[..n], r) + [rows[n]])[..|Insert(rows[..n], r)|] == Insert(rows[..n], r);
      }
    } else {
      assert [r][..0] == [];
    }
  }

  // ---- files ----------------------------------------------------------

  ghost predicate Permutes(order: seq<File>, files: seq<File>) {
    multiset(order) == multiset(files)
  }

  /** The log bounds no file, so the whole table is read. */
  predicate NoBounds(order: seq<File>) {
    forall i :: 0 <= i < |order| ==> !order[i].stats
  }

  /** Every file with rows has its bounds in the log. */
  predicate Bounded(files: seq<File>) {
    forall i :: 0 <= i < |files| && files[i].rows != [] ==> files[i].stats
  }

  lemma {:induction false} RowOfFile(files: seq<File>, r: Row)
    ensures r in RowsOf(files) <==> exists i :: 0 <= i < |files| && r in files[i].rows
  {
    if files != [] {
      var n := |files| - 1;
      RowOfFile(files[..n], r);
      assert files == files[..n] + [files[n]];
      if r in RowsOf(files[..n]) {
        var i :| 0 <= i < n && r in files[..n][i].rows;
        assert r in files[i].rows;
      }
      assert forall i :: 0 <= i < n ==> files[..n][i] == files[i];
    }
  }

  lemma SameFilesSameRows(order: seq<File>, files: seq<File>)
    requires Permutes(order, files)
    ensures SameRows(RowsOf(order), RowsOf(files))
  {
    forall r ensures r in RowsOf(order) <==> r in RowsOf(files) {
      RowOfFile(order, r);
      RowOfFile(files, r);
      InBoth(order, files, r);
    }
  }

  lemma InBoth(order: seq<File>, files: seq<File>, r: Row)
    requires Permutes(order, files)
    ensures (exists i :: 0 <= i < |order| && r in order[i].rows) <==>
            (exists i :: 0 <= i < |files| && r in files[i].rows)
  {
    if i :| 0 <= i < |order| && r in order[i].rows {
      assert order[i] in multiset(files);
      var j :| 0 <= j < |files| && files[j] == order[i];
    }
    if i :| 0 <= i < |files| && r in files[i].rows {
      assert files[i] in multiset(order);
      var j :| 0 <= j < |order| && order[j] == files[i];
    }
  }

  lemma {:induction false} RowsSplit(order: seq<File>, k: nat)
    requires k <= |order|
    ensures RowsOf(order) == RowsOf(order[..k]) + RowsOf(order[k..])
    decreases |order| - k
  {
    if k < |order| {
      var n := |order| - 1;
      RowsSplitLast(order, k);
    } else {
      assert order[..k] == order && order[k..] == [];
    }
  }

  lemma {:induction false} RowsSplitLast(order: seq<File>, k: nat)
    requires k <= |order|
    ensures RowsOf(order) == RowsOf(order[..k]) + RowsOf(order[k..])
    decreases |order|
  {
    if k == |order| {
      assert order[..k] == order && order[k..] == [];
    } else {
      var n := |order| - 1;
      RowsSplitLast(order[..n], k);
      assert order[..n][..k] == order[..k] && order[k..][..|order[k..]| - 1] == order[..n][k..];
      assert order[k..][|order[k..]| - 1] == order[n];
    }
  }

  lemma PartDistinct(a: seq<Row>, b: seq<Row>)
    requires DistinctDates(a + b)
    ensures DistinctDates(a) && DistinctDates(b) && forall r :: !(r in a && r in b)
  {
    var all := a + b;
    assert forall i :: 0 <= i < |a| ==> all[i] == a[i];
    assert forall i :: 0 <= i < |b| ==> all[|a| + i] == b[i];
  }

  /** The files left out have no row newer than the first of them says. */
  lemma {:induction false} LatestLeft(order: seq<File>, k: nat)
    requires k < |order| && NewestFirst(order) && Bounded(order) && order[k].rows != []
    ensures var rest := RowsOf(order[k..]); rest != [] && Latest(rest) == Latest(order[k].rows)
  {
    var rest := RowsOf(order[k..]);
    var m := Latest(order[k].rows);
    var i :| 0 <= i < |order[k].rows| && order[k].rows[i].date == m;
    RowOfFile(order[k..], order[k].rows[i]);
    assert order[k..][0] == order[k];
    forall j | 0 <= j < |rest| ensures rest[j].date <= m {
      RowOfFile(order[k..], rest[j]);
      var q :| 0 <= q < |order[k..]| && rest[j] in order[k..][q].rows;
      assert order[k..][q] == order[k + q];
      NotNewer(order[k + q].rows, rest[j]);
      assert q > 0 ==> NotBefore(MaxDate(order[k]), MaxDate(order[k + q]));
    }
  }

  /** Exactly when the bounded read is the whole table's tail: no row is left, or
      `n` rows of the files taken are newer than every row left. */
  lemma TailIff(files: seq<File>, order: seq<File>, n: nat)
    requires Permutes(order, files) && DistinctDates(RowsOf(order)) && DistinctDates(RowsOf(files))
    ensures FullTail(order[..Taken(order, n)], n) == FullTail(files, n) <==> TailHeld(order, Taken(order, n), n)
  {
    var k := Taken(order, n);
    var part, rest := RowsOf(order[..k]), RowsOf(order[k..]);
    SameFilesSameRows(order, files);
    RowsSplit(order, k);
    PartDistinct(part, rest);
    OneOrder(RowsOf(files), RowsOf(order));
    hide Taken, RowsOf, Permutes, Sorted, Above, Latest, Last;
    if rest == [] {
      assert part + [] == part;
    } else {
      PartTail(RowsOf(order), part, rest, Latest(rest), n);
    }
  }

  /** The first `k` files hold `n` rows newer than every other file's, or every row. */
  predicate TailHeld(order: seq<File>, k: nat, n: nat)
    requires k <= |order|
  {
    var rest := RowsOf(order[k..]);
    rest == [] || |Above(RowsOf(order[..k]), Latest(rest))| >= n
  }

  /** Where the log bounds every file with rows, the first file left tells. */
  lemma HeldBounded(order: seq<File>, k: nat, n: nat)
    requires k <= |order| && NewestFirst(order) && Bounded(order)
    ensures TailHeld(order, k, n) <==>
            k == |order| || order[k].rows == [] || |Above(RowsOf(order[..k]), Latest(order[k].rows))| >= n
  {
    if k < |order| && order[k].rows != [] { LatestLeft(order, k); } else { NoRowsLeft(order, k); }
  }

  lemma {:induction false} NoRowsLeft(order: seq<File>, k: nat)
    requires k <= |order| && NewestFirst(order) && Bounded(order) && (k < |order| ==> order[k].rows == [])
    ensures RowsOf(order[k..]) == []
  {
    var rest := order[k..];
    forall q | 0 <= q < |rest| ensures rest[q].rows == [] {
      assert rest[q] == order[k + q];
      assert q > 0 ==> NotBefore(MaxDate(order[k]), MaxDate(order[k + q]));
    }
    EmptyFiles(rest);
  }

  lemma {:induction false} EmptyFiles(files: seq<File>)
    requires forall q :: 0 <= q < |files| ==> files[q].rows == []
    ensures RowsOf(files) == []
  {
    if files != [] { EmptyFiles(files[..|files| - 1]); }
  }

  lemma OneOrder(a: seq<Row>, b: seq<Row>)
    requires DistinctDates(a) && DistinctDates(b) && SameRows(b, a)
    ensures Sorted(a) == Sorted(b)
  {
    SortedMeans(a);
    SortedMeans(b);
    hide Sorted;
    OrderUnique(Sorted(a), Sorted(b));
  }

  /** No two files' dates overlap. */
  predicate Disjoint(order: seq<File>) {
    forall i, j :: 0 <= i < |order| && 0 <= j < |order| && i != j ==> Clear(order[i].rows, order[j].rows)
  }

  /** The rows of one are all older than those of the other, or all newer. */
  predicate Clear(a: seq<Row>, b: seq<Row>) {
    Older(a, b) || Older(b, a)
  }

  predicate Older(a: seq<Row>, b: seq<Row>) {
    forall i, j :: 0 <= i < |a| && 0 <= j < |b| ==> a[i].date < b[j].date
  }

  /** Every row of the one is older than every row of the other. */
  ghost predicate Precedes(a: seq<Row>, b: seq<Row>) {
    forall x, y :: x in a && y in b ==> x.date < y.date
  }

  lemma BoundedMeans(order: seq<File>)
    ensures Bounded(order) <==> forall i :: 0 <= i < |order| && order[i].rows != [] ==> order[i].stats
    ensures Disjoint(order) <==>
            forall i, j :: 0 <= i < j < |order| ==>
              Precedes(order[i].rows, order[j].rows) || Precedes(order[j].rows, order[i].rows)
  {
    forall i, j | 0 <= i < |order| && 0 <= j < |order|
      ensures Clear(order[i].rows, order[j].rows)
              <==> Precedes(order[i].rows, order[j].rows) || Precedes(order[j].rows, order[i].rows)
    {
      OlderMeans(order[i].rows, order[j].rows);
      OlderMeans(order[j].rows, order[i].rows);
    }
    hide Precedes, Clear;
  }

  lemma OlderMeans(a: seq<Row>, b: seq<Row>)
    ensures Older(a, b) <==> Precedes(a, b)
  {
    if Precedes(a, b) {
      assert forall i :: 0 <= i < |a| ==> a[i] in a;
      assert forall j :: 0 <= j < |b| ==> b[j] in b;
    }
  }

  /** Files whose date ranges do not overlap: the bounded read is the whole
      table's tail, for any number of files and of rows asked. */
  lemma DisjointTail(files: seq<File>, order: seq<File>, n: nat)
    requires Permutes(order, files) && NewestFirst(order) && Bounded(order) && DistinctDates(RowsOf(order))
             && DistinctDates(RowsOf(files))
    requires Disjoint(order)
    ensures FullTail(order[..Taken(order, n)], n) == FullTail(files, n)
  {
    TailIff(files, order, n);
    var k := Taken(order, n);
    HeldBounded(order, k, n);
    hide TailHeld, Taken;
    if k < |order| && order[k].rows != [] {
      var m := Latest(order[k].rows);
      var part := RowsOf(order[..k]);
      forall i | 0 <= i < |part| ensures part[i].date > m {
        RowOfFile(order[..k], part[i]);
        var q :| 0 <= q < k && part[i] in order[..k][q].rows;
        NewerFile(order, q, k, part[i]);
      }
      AllAbove(part, m);
    }
  }

  lemma NewerFile(order: seq<File>, q: nat, k: nat, r: Row)
    requires q < k < |order| && NewestFirst(order) && Bounded(order) && Disjoint(order) && r in order[q].rows
             && order[k].rows != []
    ensures r.date > Latest(order[k].rows)
  {
    assert NotBefore(MaxDate(order[q]), MaxDate(order[k]));
    assert Clear(order[q].rows, order[k].rows);
    var i :| 0 <= i < |order[q].rows| && order[q].rows[i] == r;
    var a :| 0 <= a < |order[q].rows| && order[q].rows[a].date == Latest(order[q].rows);
    var b :| 0 <= b < |order[k].rows| && order[k].rows[b].date == Latest(order[k].rows);
  }

  lemma {:induction false} AllAbove(rows: seq<Row>, m: int)
    requires forall i :: 0 <= i < |rows| ==> rows[i].date > m
    ensures |Above(rows, m)| == |rows|
  {
    if rows != [] { AllAbove(rows[..|rows| - 1], m); }
  }

  /** Overlapping files do go wrong: of two files of two rows, the first alone
      covers the two asked for, and lacks the second newest. */
  lemma OverlapMisses(r0: Row, r1: Row, r8: Row, r9: Row)
    requires r0.date < r1.date < r8.date < r9.date
    ensures var a, b := File("a", [r0, r9], true), File("b", [r1, r8], true);
            && NewestFirst([a, b]) && Taken([a, b], 2) == 1
            && FullTail([a], 2) == [r0, r9] && FullTail([a, b], 2) == [r8, r9]
  {
    var a, b := File("a", [r0, r9], true), File("b", [r1, r8], true);
    TwoLatest(r0, r9);
    TwoLatest(r1, r8);
    TwoFiles(a, b);
    TwoSorts(r0, r1, r8, r9);
    hide RowsOf, Latest, Sorted, Taken;
    TakenFirst([a, b], 2, 1);
  }

  /** A file without bounds comes last whatever it holds: here the newest row. */
  lemma UnboundedMisses(r0: Row, r1: Row)
    requires r0.date < r1.date
    ensures var a, b := File("a", [r0], true), File("b", [r1], false);
            && NewestFirst([a, b]) && Disjoint([a, b]) && Taken([a, b], 1) == 1
            && FullTail([a], 1) == [r0] && FullTail([a, b], 1) == [r1]
  {
    var a, b := File("a", [r0], true), File("b", [r1], false);
    TwoFiles(a, b);
    hide RowsOf, Latest, Sorted, Taken;
    OneSort(r0, r1);
    TakenFirst([a, b], 1, 1);
  }

  lemma OneSort(r0: Row, r1: Row)
    requires r0.date < r1.date
    ensures Sorted([r0]) == [r0] && Sorted([r0] + [r1]) == [r0, r1]
  {
    hide Sorted;
    assert [] + [r0] == [r0] && [r0] + [r1] == [r0, r1];
    assert Ascending([r0, r1]) && DistinctDates([r0, r1]);
    SortStep([], r0, [r0]);
    SortStep([r0], r1, [r0, r1]);
  }

  lemma TwoFiles(a: File, b: File)
    ensures RowsOf([a]) == a.rows && RowsOf([a, b]) == a.rows + b.rows && [a, b][..1] == [a]
  {
    assert [a, b][..1] == [a] && [a][..0] == [];
    assert RowsOf([]) == [] && RowsOf([a]) == [] + a.rows;
  }

  lemma TwoSorts(r0: Row, r1: Row, r8: Row, r9: Row)
    requires r0.date < r1.date < r8.date < r9.date
    ensures Sorted([r0, r9]) == [r0, r9] && Sorted([r0, r9] + [r1, r8]) == [r0, r1, r8, r9]
  {
    assert [r0] + [r9] == [r0, r9] && [r0, r9, r1] + [r8] == [r0, r9] + [r1, r8];
    SortStep([r0], r9, [r0, r9]);
    SortStep([r0, r9, r1], r8, [r0, r1, r8, r9]);
  }

  lemma TwoLatest(a: Row, b: Row)
    requires a.date < b.date
    ensures Latest([a, b]) == b.date
  {
    assert [a, b][1].date == b.date;
  }

  lemma SortStep(rows: seq<Row>, r: Row, want: seq<Row>)
    requires Ascending(want) && DistinctDates(rows + [r]) && SameRows(want, rows + [r])
    ensures Sorted(rows + [r]) == want
  {
    SortedMeans(rows + [r]);
    hide Sorted;
    OrderUnique(Sorted(rows + [r]), want);
  }

  // ---- the tail in its own words --------------------------------------

  /** The newest `n` rows of the files, oldest first. */
  ghost predicate IsTail(t: seq<Row>, files: seq<File>, n: nat) {
    && |t| == (if n < |RowsOf(files)| then n else |RowsOf(files)|)
    && (forall i, j :: 0 <= i < j < |t| ==> t[i].date < t[j].date)
    && (forall r :: r in t ==> r in RowsOf(files))
    && forall r, x :: r in RowsOf(files) && r !in t && x in t ==> r.date < x.date
  }

  lemma TailMeans(files: seq<File>, n: nat)
    requires DistinctDates(RowsOf(files))
    ensures IsTail(FullTail(files, n), files, n)
  {
    var rows := RowsOf(files);
    SortedMeans(rows);
    hide Sorted, RowsOf, Last;
    LastMeans(Sorted(rows), n);
  }

  lemma LastMeans(s: seq<Row>, n: nat)
    requires Ascending(s)
    ensures var t := Last(s, n);
            && |t| == (if n < |s| then n else |s|) && Ascending(t)
            && (forall r :: r in t ==> r in s)
            && forall r, x :: r in s && r !in t && x in t ==> r.date < x.date
  {
    var t := Last(s, n);
    var front := s[..|s| - |t|];
    assert s == front + t;
    forall r, x | r in front && x in t ensures r.date < x.date {
      var i :| 0 <= i < |front| && front[i] == r;
      var k :| 0 <= k < |t| && t[k] == x;
      assert s[i] == r && s[|front| + k] == x;
    }
  }

  lemma {:induction false} DistinctCount(rows: seq<Row>)
    requires DistinctDates(rows)
    ensures |set r | r in rows| == |rows|
  {
    if rows == [] {
      assert (set r | r in rows) == {};
    } else {
      var n := |rows| - 1;
      DistinctCount(rows[..n]);
      assert rows == rows[..n] + [rows[n]];
      assert (set r | r in rows) == (set r | r in rows[..n]) + {rows[n]};
      assert rows[n] !in rows[..n];
    }
  }

  /** There is one such list. */
  lemma OneTail(a: seq<Row>, b: seq<Row>, files: seq<File>, n: nat)
    requires IsTail(a, files, n) && IsTail(b, files, n)
    ensures a == b
  {
    hide RowsOf;
    DistinctCount(a);
    DistinctCount(b);
    var x, y := set r | r in a, set r | r in b;
    if y < x { Smaller(y, x); }
    if x < y { Smaller(x, y); }
    assert x == y;
    assert forall r :: r in a <==> r in x;
    assert forall r :: r in b <==> r in y;
    OrderUnique(a, b);
  }

  lemma Smaller(x: set<Row>, y: set<Row>)
    requires x < y
    ensures |x| < |y|
  {
    assert y == x + (y - x);
  }

  /** The rows of the first `k` files newer than every row of the others. */
  ghost function NewerRows(order: seq<File>, k: nat): set<Row>
    requires k <= |order|
  {
    set r | r in RowsOf(order[..k]) && forall x :: x in RowsOf(order[k..]) ==> x.date < r.date
  }

  lemma HeldMeans(order: seq<File>, k: nat, n: nat)
    requires k <= |order| && DistinctDates(RowsOf(order[..k]))
    ensures TailHeld(order, k, n) <==> RowsOf(order[k..]) == [] || |NewerRows(order, k)| >= n
  {
    var part, rest := RowsOf(order[..k]), RowsOf(order[k..]);
    if rest != [] {
      var m := Latest(rest);
      hide RowsOf, Latest;
      var newer := Above(Sorted(part), m);
      SortedMeans(part);
      SplitMeans(Sorted(part), m);
      SameCount(part, m);
      hide Sorted, Above;
      DistinctCount(newer);
      forall r ensures r in NewerRows(order, k) <==> r in newer {
        var i :| 0 <= i < |rest| && rest[i].date == m;
        assert rest[i] in rest;
      }
      assert NewerRows(order, k) == set r | r in newer;
    }
  }

  // ---- the store ------------------------------------------------------

  class DeltaStore {
    /** Each symbol's table, file by file. */
    var tables: map<string, seq<File>>

    constructor ()
      ensures tables == map[]
    {
      tables := map[];
    }

    method Write(key: string, file: File)
      modifies this
      ensures tables == old(tables)[key := [file]]
    {
      tables := tables[key := [file]];
    }

    method Append(key: string, file: File)
      modifies this
      ensures tables == old(tables)[key := (if key in old(tables) then old(tables)[key] else []) + [file]]
    {
      tables := tables[key := (if key in tables then tables[key] else []) + [file]];
    }

    method Delete(key: string)
      modifies this
      ensures tables == old(tables) - {key}
    {
      tables := tables - {key};
    }

    /** The tail read of a table; the log lists its files in some order. */
    method Tail(key: string, order: seq<File>, n: nat) returns (r: Option<seq<Row>>)
      requires key in tables ==> Permutes(order, tables[key]) && NewestFirst(order)
      ensures r.None? <==> key !in tables
      ensures key in tables && DistinctDates(RowsOf(order)) && DistinctDates(RowsOf(tables[key])) ==>
        var k := Taken(order, n);
        IsTail(r.value, tables[key], n) <==>
          (forall i :: 0 <= i < |order| ==> !order[i].stats)
          || (forall i :: k <= i < |order| ==> order[i].rows == []) || |NewerRows(order, k)| >= n
      ensures key in tables && DistinctDates(RowsOf(order)) && DistinctDates(RowsOf(tables[key]))
              && (forall i :: 0 <= i < |order| && order[i].rows != [] ==> order[i].stats)
              && (forall i, j :: 0 <= i < j < |order| ==>
                    Precedes(order[i].rows, order[j].rows) || Precedes(order[j].rows, order[i].rows)) ==>
        IsTail(r.value, tables[key], n)
    {
      hide TailHeld, Taken, FullTail, Permutes, NewestFirst, Bounded, Disjoint, DistinctDates, IsTail;
      if key !in tables { return None; }
      var rows := ReadTrailing(tables[key], order, n);
      if DistinctDates(RowsOf(order)) && DistinctDates(RowsOf(tables[key])) {
        TailTells(tables[key], order, n, rows);
        BoundedMeans(order);
        if Bounded(order) && Disjoint(order) {
          DisjointTail(tables[key], order, n);
          TailMeans(tables[key], n);
        }
      }
      return Some(rows);
    }
  }

  lemma TailTells(files: seq<File>, order: seq<File>, n: nat, rows: seq<Row>)
    requires Permutes(order, files) && DistinctDates(RowsOf(order)) && DistinctDates(RowsOf(files))
    requires rows == if NoBounds(order) then FullTail(files, n) else FullTail(order[..Taken(order, n)], n)
    ensures IsTail(rows, files, n) <==>
            || NoBounds(order) || (forall i :: Taken(order, n) <= i < |order| ==> order[i].rows == [])
            || |NewerRows(order, Taken(order, n))| >= n
  {
    var k := Taken(order, n);
    hide Taken, FullTail, IsTail, Permutes, DistinctDates, NoBounds;
    TailMeans(files, n);
    if IsTail(rows, files, n) { OneTail(rows, FullTail(files, n), files, n); }
    TailIff(files, order, n);
    PartsDistinct(order, k);
    HeldMeans(order, k, n);
    NoneLeft(order, k);
  }

  lemma PartsDistinct(order: seq<File>, k: nat)
    requires k <= |order| && DistinctDates(RowsOf(order))
    ensures DistinctDates(RowsOf(order[..k]))
  {
    RowsSplit(order, k);
    PartDistinct(RowsOf(order[..k]), RowsOf(order[k..]));
  }

  lemma NoneLeft(order: seq<File>, k: nat)
    requires k <= |order|
    ensures RowsOf(order[k..]) == [] <==> forall i :: k <= i < |order| ==> order[i].rows == []
  {
    var rest := order[k..];
    if forall i :: k <= i < |order| ==> order[i].rows == [] {
      EmptyFiles(rest);
    } else {
      var i :| k <= i < |order| && order[i].rows != [];
      var r := order[i].rows[0];
      assert rest[i - k] == order[i] && r in order[i].rows;
      RowOfFile(rest, r);
    }
  }

  /** Appending rows newer than all there are keeps the files apart. */
  lemma AppendKeepsDisjoint(files: seq<File>, f: File)
    requires Disjoint(files) && forall i :: 0 <= i < |files| ==> Older(files[i].rows, f.rows)
    ensures Disjoint(files + [f])
  {
  }
}
