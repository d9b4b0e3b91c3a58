/** The cache's state inside q (kdb-store/kdb_store/store.py): one bar table per
    (symbol, interval), one coverage table and one least-recently-used table.

    A call into q can raise. A single-statement operation that raises has either
    not happened or happened in full; `Drop` is four statements and can stop
    between any two of them. */
module KdbStore {
  import opened Ranges
  import opened Text

  datatype Bar = Bar(close: real, volume: real)
  datatype Row = Row(t: int, bar: Bar)

  /** A frame of bars, keyed by stamp. */
  type Bars = map<int, Bar>

  datatype Key = Key(symbol: string, interval: string)

  // ---- table names ----------------------------------------------------

  predicate IsSafe(c: char) {
    'A' <= c <= 'Z' || 'a' <= c <= 'z' || '0' <= c <= '9' || c == '_'
  }

  function Sanitize(s: string): (r: string)
    ensures |r| == |s|
  {
    seq(|s|, i requires 0 <= i < |s| => if IsSafe(s[i]) then s[i] else '_')
  }

  function TableName(k: Key): string {
    "bars_" + Sanitize(Upper(Strip(k.symbol))) + "_" + Sanitize(Strip(k.interval))
  }

  /** No two of the keys share a bar table. */
  ghost predicate NamesDistinct(keys: set<Key>) {
    forall a, b :: a in keys && b in keys && TableName(a) == TableName(b) ==> a == b
  }

  /** Letters, capitals if a symbol, and digits. */
  ghost predicate Plain(s: string, symbol: bool) {
    forall i :: 0 <= i < |s| ==> 'A' <= s[i] <= 'Z' || '0' <= s[i] <= '9' || (!symbol && 'a' <= s[i] <= 'z')
  }

  /** Whatever is no letter, digit or underscore becomes an underscore. */
  lemma SanitizeMeans(s: string, i: nat)
    requires i < |s|
    ensures Sanitize(s)[i]
            == if 'A' <= s[i] <= 'Z' || 'a' <= s[i] <= 'z' || '0' <= s[i] <= '9' then s[i] else '_'
  {
  }

  lemma PlainStays(s: string, symbol: bool)
    requires Plain(s, symbol)
    ensures Sanitize(if symbol then Upper(Strip(s)) else Strip(s)) == s
  {
    PlainStrips(s, symbol);
    hide Strip;
    var t := if symbol then Upper(s) else s;
    forall i | 0 <= i < |s| ensures t[i] == s[i] && Sanitize(t)[i] == s[i] { }
  }

  lemma PlainStrips(s: string, symbol: bool)
    requires Plain(s, symbol)
    ensures Strip(s) == s
  {
    if s != "" { assert !IsSpace(s[0]) && !IsSpace(s[|s| - 1]); }
  }

  /** Keys of plain symbols and intervals have tables of their own. */
  lemma PlainNames(a: Key, b: Key)
    requires Plain(a.symbol, true) && Plain(a.interval, false) && Plain(b.symbol, true) && Plain(b.interval, false)
    ensures TableName(a) == "bars_" + a.symbol + "_" + a.interval
    ensures TableName(a) == TableName(b) ==> a == b
  {
    PlainTable(a);
    PlainTable(b);
    hide TableName, Plain;
    if TableName(a) == TableName(b) {
      Prefixed(a.symbol, a.interval, b.symbol, b.interval);
      OneCut(a.symbol, a.interval, b.symbol, b.interval);
    }
  }

  lemma Prefixed(s: string, t: string, u: string, v: string)
    requires "bars_" + s + "_" + t == "bars_" + u + "_" + v
    ensures s + "_" + t == u + "_" + v
  {
    assert ("bars_" + s + "_" + t)[5..] == s + "_" + t;
    assert ("bars_" + u + "_" + v)[5..] == u + "_" + v;
  }

  lemma PlainTable(k: Key)
    requires Plain(k.symbol, true) && Plain(k.interval, false)
    ensures TableName(k) == "bars_" + k.symbol + "_" + k.interval
  {
    PlainStays(k.symbol, true);
    PlainStays(k.interval, false);
    hide Sanitize, Upper, Strip, Plain;
  }

  lemma OneCut(s: string, t: string, u: string, v: string)
    requires Plain(s, true) && Plain(u, true) && s + "_" + t == u + "_" + v
    ensures s == u && t == v
  {
    var x := s + "_" + t;
    assert x[|s|] == '_' && x[|u|] == '_';
    assert forall i :: 0 <= i < |s| ==> x[i] == s[i] != '_';
    assert forall i :: 0 <= i < |u| ==> x[i] == u[i] != '_';
    assert x[..|s|] == s && x[..|u|] == u && x[|s| + 1..] == t && x[|u| + 1..] == v;
  }

  /** Sanitising is not injective: two spellings of a class share fall into
      one table, while their coverage rows stay apart. */
  lemma NamesCollide()
    ensures !NamesDistinct({Key("BRK.B", "1d"), Key("BRK-B", "1d")})
  {
    var a, b := Key("BRK.B", "1d"), Key("BRK-B", "1d");
    assert a.symbol[3] != b.symbol[3];
    Spelled(a.symbol);
    Spelled(b.symbol);
    hide Strip, Upper, Sanitize;
    assert TableName(a) == TableName(b);
  }

  lemma Spelled(s: string)
    requires s in ["BRK.B", "BRK-B"]
    ensures Sanitize(Upper(Strip(s))) == "BRK_B"
  {
    assert Strip(s) == s;
    hide Strip;
    assert Upper(s) == s;
    hide Upper;
    assert Sanitize(s) == "BRK_B";
  }

  // ---- the tables as one value ----------------------------------------

  datatype Tables = Tables(bars: map<string, Bars>, cov: map<Key, seq<Range>>, lru: map<Key, int>)

  function BarsOf(db: Tables, k: Key): Bars {
    if TableName(k) in db.bars then db.bars[TableName(k)] else map[]
  }

  function CoverageOf(db: Tables, k: Key): seq<Range> {
    if k in db.cov then db.cov[k] else []
  }

  function Upsert(bars: Bars, rows: seq<Row>): Bars {
    if rows == [] then bars
    else var n := |rows| - 1; Upsert(bars, rows[..n])[rows[n].t := rows[n].bar]
  }

  predicate HasStamp(rows: seq<Row>, t: int) {
    exists i :: 0 <= i < |rows| && rows[i].t == t
  }

  /** An upsert replaces or adds the stamps it brings, by one of the rows
      brought for that stamp, and keeps every other bar. */
  lemma {:induction false} UpsertMeans(bars: Bars, rows: seq<Row>, t: int)
    ensures t in Upsert(bars, rows) <==> t in bars || HasStamp(rows, t)
    ensures HasStamp(rows, t) ==> Row(t, Upsert(bars, rows)[t]) in rows
    ensures !HasStamp(rows, t) && t in bars ==> Upsert(bars, rows)[t] == bars[t]
  {
    if rows != [] {
      var n := |rows| - 1;
      UpsertMeans(bars, rows[..n], t);
      assert rows == rows[..n] + [rows[n]];
      if rows[n].t == t {
        assert HasStamp(rows, t) && rows[n] in rows;
      } else if HasStamp(rows, t) {
        var i :| 0 <= i < |rows| && rows[i].t == t;
        assert rows[..n][i].t == t;
      }
    }
  }

  function Written(db: Tables, k: Key, rows: seq<Row>): Tables {
    db.(bars := db.bars[TableName(k) := Upsert(BarsOf(db, k), rows)])
  }

  function Recorded(db: Tables, k: Key, r: Range): Tables {
    db.(cov := db.cov[k := CoverageOf(db, k) + [r]])
  }

  function Touched(db: Tables, k: Key, now: int): Tables {
    db.(lru := db.lru[k := now])
  }

  /** The tables after the first `done` statements of a drop. */
  function Dropped(db: Tables, k: Key, done: nat): Tables {
    var a := if done >= 1 then db.(bars := db.bars - {TableName(k)}) else db;
    var b := if done >= 2 then a.(cov := a.cov - {k}) else a;
    if done >= 3 then b.(lru := b.lru - {k}) else b
  }

  /** The torn keys after the first `done` statements of a drop. */
  function TornBy(torn: set<Key>, k: Key, done: nat): set<Key> {
    if done == 0 then torn else if done == 1 then torn + {k} else torn - {k}
  }

  /** A drop tears its own key alone, and only by stopping after its first statement. */
  lemma DropTears(db: Tables, torn: set<Key>, k: Key, done: nat, faults: nat, faults': nat)
    requires done == 1 ==> faults' == faults + 1
    ensures Tears(Dropped(db, k, done), torn, TornBy(torn, k, done), faults, faults')
  {
    hide TableName;
    if done == 1 { assert BarsOf(Dropped(db, k, done), k) == map[]; }
  }

  /** Nothing of `k` is left: no bars, no coverage. */
  predicate Gone(db: Tables, k: Key) {
    BarsOf(db, k) == map[] && CoverageOf(db, k) == []
  }

  predicate SameEntry(a: Tables, b: Tables, k: Key) {
    BarsOf(a, k) == BarsOf(b, k) && CoverageOf(a, k) == CoverageOf(b, k)
  }

  lemma WrittenMeans(db: Tables, keys: set<Key>, k: Key, rows: seq<Row>)
    requires NamesDistinct(keys) && k in keys
    ensures BarsOf(Written(db, k, rows), k) == Upsert(BarsOf(db, k), rows)
    ensures CoverageOf(Written(db, k, rows), k) == CoverageOf(db, k)
    ensures forall o :: o in keys && o != k ==> SameEntry(db, Written(db, k, rows), o)
  {
    hide TableName, Upsert;
  }

  lemma RecordedMeans(db: Tables, keys: set<Key>, k: Key, r: Range)
    ensures BarsOf(Recorded(db, k, r), k) == BarsOf(db, k)
    ensures CoverageOf(Recorded(db, k, r), k) == CoverageOf(db, k) + [r]
    ensures forall o :: o != k ==> SameEntry(db, Recorded(db, k, r), o)
  {
    hide TableName;
  }

  /** A drop leaves `k` whole, or gone, or -- stopped after its first
      statement -- with coverage and no bars; no other key changes. */
  lemma DropMeans(db: Tables, keys: set<Key>, k: Key, done: nat)
    requires NamesDistinct(keys) && k in keys
    ensures done == 0 ==> Dropped(db, k, done) == db
    ensures done == 1 ==>
      BarsOf(Dropped(db, k, done), k) == map[] && CoverageOf(Dropped(db, k, done), k) == CoverageOf(db, k)
    ensures done >= 2 ==> Gone(Dropped(db, k, done), k)
    ensures forall o :: o in keys && o != k ==> SameEntry(db, Dropped(db, k, done), o)
  {
    hide TableName;
  }

  // ---- the store ------------------------------------------------------

  /** How one q statement ended. */
  datatype Fault = NoFault | Before | After

  /** A call goes through exactly if no statement of it fails, and stops at the
      first one that does. */
  predicate Went(before: nat, after: nat, ok: bool) {
    after == before + if ok then 0 else 1
  }

  /** What drops may do to the torn keys: none is added unless a statement failed,
      and then one at most, which has lost its bars. */
  predicate Tears(after: Tables, torn: set<Key>, torn': set<Key>, faults: nat, faults': nat) {
    || torn' <= torn
    || (faults' == faults + 1 && exists k :: k in torn' && torn' <= torn + {k} && BarsOf(after, k) == map[])
  }

  class Store {
    var bars: map<string, Bars>
    var cov: map<Key, seq<Range>>
    var lru: map<Key, int>
    var clock: int
    /** The keys in use, and those whose last drop stopped between the removal
        of the bars and the removal of the coverage. */
    ghost const keys: set<Key>
    ghost var torn: set<Key>
    /** What q has answered so far when asked for its heap. */
    ghost var readings: seq<int>
    /** How many statements have failed so far. */
    ghost var faults: nat

    constructor (ghost keys: set<Key>)
      requires NamesDistinct(keys)
      ensures Valid() && this.keys == keys && torn == {}
      ensures Db() == Tables(map[], map[], map[])
    {
      bars, cov, lru, clock := map[], map[], map[], 0;
      this.keys, torn := keys, {};
    }

    function Db(): Tables
      reads this
    {
      Tables(bars, cov, lru)
    }

    ghost predicate Valid()
      reads this
    {
      && NamesDistinct(keys) && lru.Keys <= keys && torn <= keys
      && forall k :: k in lru ==> lru[k] < clock
    }

    method Ending() returns (f: Fault)
      modifies this`faults
      ensures Went(old(faults), faults, f.NoFault?)
    {
      f := *;
      faults := faults + if f.NoFault? then 0 else 1;
    }

    method ReadBars(k: Key, start: int, end: int) returns (ok: bool, out: Bars)
      modifies this`faults
      ensures Went(old(faults), faults, ok)
      ensures ok ==> out == map t | t in BarsOf(Db(), k) && start <= t <= end :: BarsOf(Db(), k)[t]
    {
      var f := Ending();
      ok := f.NoFault?;
      var table := if TableName(k) in bars then bars[TableName(k)] else map[];
      out := map t | t in table && start <= t <= end :: table[t];
    }

    method ReadCoverage(k: Key) returns (ok: bool, out: seq<Range>)
      modifies this`faults
      ensures Went(old(faults), faults, ok)
      ensures ok ==> out == CoverageOf(Db(), k)
    {
      var f := Ending();
      ok := f.NoFault?;
      out := if k in cov then cov[k] else [];
    }

    method WriteBars(k: Key, rows: seq<Row>) returns (ok: bool)
      modifies this`bars, this`faults
      ensures Went(old(faults), faults, ok)
      ensures Db() == Written(old(Db()), k, rows) || (!ok && Db() == old(Db()))
    {
      var f := Ending();
      ok := f.NoFault?;
      if !f.Before? {
        var table := if TableName(k) in bars then bars[TableName(k)] else map[];
        bars := bars[TableName(k) := Upsert(table, rows)];
      }
    }

    method RecordCoverage(k: Key, r: Range) returns (ok: bool)
      modifies this`cov, this`faults
      ensures Went(old(faults), faults, ok)
      ensures Db() == Recorded(old(Db()), k, r) || (!ok && Db() == old(Db()))
    {
      var f := Ending();
      ok := f.NoFault?;
      if !f.Before? {
        cov := cov[k := (if k in cov then cov[k] else []) + [r]];
      }
    }

    /** `.z.p` is later than every access recorded so far. */
    method Touch(k: Key) returns (ok: bool)
      requires Valid() && k in keys
      modifies this`lru, this`clock, this`faults
      ensures Went(old(faults), faults, ok)
      ensures Valid()
      ensures Db() == Touched(old(Db()), k, old(clock)) || (!ok && Db() == old(Db()))
    {
      var f := Ending();
      ok := f.NoFault?;
      if !f.Before? {
        lru, clock := lru[k := clock], clock + 1;
      }
    }

    method Drop(k: Key) returns (ok: bool, ghost done: nat)
      requires Valid() && k in keys
      modifies this`bars, this`cov, this`lru, this`torn, this`faults
      ensures Went(old(faults), faults, ok)
      ensures Valid() && (ok ==> done >= 3)
      ensures Db() == Dropped(old(Db()), k, done)
      ensures torn == TornBy(old(torn), k, done)
    {
      hide TableName, NamesDistinct;
      done := 0;
      var f := Ending();
      if !f.Before? {
        bars, torn, done := bars - {TableName(k)}, torn + {k}, 1;
      }
      if !f.NoFault? { return false, done; }
      f := Ending();
      if !f.Before? {
        cov, torn, done := cov - {k}, torn - {k}, 2;
      }
      if !f.NoFault? { return false, done; }
      f := Ending();
      if !f.Before? {
        lru, done := lru - {k}, 3;
      }
      if !f.NoFault? { return false, done; }
      f := Ending();
      ok := f.NoFault?;
    }

    /** q died and came back empty between two calls. */
    method Respawn()
      requires Valid()
      modifies this`bars, this`cov, this`lru, this`torn
      ensures Valid() && Db() == Tables(map[], map[], map[]) && torn == {}
    {
      bars, cov, lru, torn := map[], map[], map[], {};
    }

    /** `.Q.w[]`: whatever q answers. */
    method Heap() returns (ok: bool, heap: int)
      modifies this`readings, this`faults
      ensures Went(old(faults), faults, ok)
      ensures readings == old(readings) + if ok then [heap] else []
    {
      var f := Ending();
      ok, heap := f.NoFault?, *;
      readings := readings + if ok then [heap] else [];
    }

    /** The keys of the access table, oldest access first. */
    method AccessOrder() returns (order: seq<Key>)
      ensures IsAccessOrder(order, lru)
    {
      order := [];
      var rest := lru.Keys;
      while rest != {}
        invariant rest <= lru.Keys
        invariant forall k :: k in lru <==> k in rest || k in order
        invariant forall i, j :: 0 <= i < j < |order| ==> order[i] != order[j]
        invariant forall i :: 0 <= i < |order| ==> order[i] !in rest
        invariant forall i, j :: 0 <= i < j < |order| ==> lru[order[i]] <= lru[order[j]]
        invariant forall i, k :: 0 <= i < |order| && k in rest ==> lru[order[i]] <= lru[k]
        decreases rest
      {
        var k := Oldest(rest);
        order, rest := order + [k], rest - {k};
      }
    }

    method Oldest(ks: set<Key>) returns (k: Key)
      requires ks != {} && ks <= lru.Keys
      ensures k in ks && forall o :: o in ks ==> lru[k] <= lru[o]
    {
      k :| k in ks;
      var rest := ks - {k};
      while rest != {}
        invariant rest <= ks && k in ks
        invariant forall o :: o in ks - rest ==> lru[k] <= lru[o]
        decreases rest
      {
        var o :| o in rest;
        if lru[o] < lru[k] { k := o; }
        rest := rest - {o};
      }
    }

    /** Drop entries, oldest access first, until q's heap is within budget.

        `heaps` are the readings taken, one before the first drop and one after
        each; `order` is the access order found, of which the first `n` keys are
        dropped. If a statement fails, `done` statements of the drop after them
        took effect. */
    method EvictUntilBelow(budget: int)
      returns (ok: bool, evicted: seq<string>, ghost order: seq<Key>, ghost heaps: seq<int>, ghost n: nat,
               ghost done: nat)
      requires Valid()
      modifies this`bars, this`cov, this`lru, this`torn, this`readings, this`faults
      ensures Went(old(faults), faults, ok)
      ensures readings == old(readings) + heaps
      ensures Valid() && IsAccessOrder(order, old(lru)) && n <= |order|
      ensures ok ==> |heaps| == n + 1 && (heaps[n] <= budget || n == |order|)
      ensures forall i :: 0 <= i < (if ok then n else |heaps|) ==> heaps[i] > budget
      ensures ok ==> Db() == EvictedDb(old(Db()), order, n) && torn == old(torn) - KeySet(order[..n])
      ensures ok ==> evicted == EvictedNames(old(Db()), order, n)
      ensures !ok ==> CutShort(old(Db()), Db(), old(torn), torn, order, n, done)
      ensures EachWholeOrGone(old(Db()), Db(), old(torn), torn, keys)
      ensures Tears(Db(), old(torn), torn, old(faults), faults)
    {
      hide EvictedDb, EvictedNames, EachWholeOrGone, Evicting, IsAccessOrder, TableName, NamesDistinct, Dropped, KeySet,
           CutShort, Tears;
      evicted, order, heaps, n, done := [], [], [], 0, 0;
      var heap;
      ok, heap := Heap();
      var rows := AccessOrder();
      order := rows;
      EvictingNone(Db(), order, torn, keys);
      EvictingStops(Db(), Db(), order, 0, torn, torn, [], keys, faults, faults);
      EvictingStops(Db(), Db(), order, 0, torn, torn, [], keys, old(faults), old(faults) + 1);
      if !ok { return; }
      heaps := [heap];
      if heap <= budget { return; }
      var f := Ending();
      if f != NoFault { ok := false; return; }
      var i := 0;
      while i < |rows|
        invariant 0 <= i <= |rows| && |heaps| == i + 1 && ok && order == rows
        invariant readings == old(readings) + heaps && faults == old(faults)
        invariant Valid() && forall j :: 0 <= j <= i ==> heaps[j] > budget
        invariant Evicting(old(Db()), Db(), order, i, old(torn), torn, evicted, keys)
      {
        var k := rows[i];
        InOrder(order, old(lru), keys, i);
        var existed: bool;
        ok, existed := Exists(k);
        if !ok {
          EvictingMeans(old(Db()), Db(), order, i, old(torn), torn, evicted, keys);
          EvictingStops(old(Db()), Db(), order, i, old(torn), torn, evicted, keys, old(faults), faults);
          n, done := i, 0;
          return;
        }
        ghost var before, tornBefore := Db(), torn;
        n := i;
        ok, done := Drop(k);
        EvictingNext(old(Db()), before, order, i, old(torn), tornBefore, evicted, keys, done);
        EvictingCut(old(Db()), before, order, i, old(torn), tornBefore, evicted, keys, done, old(faults), faults);
        if !ok { return; }
        if existed { evicted := evicted + [TableName(k)]; }
        ok, heap := Heap();
        i := i + 1;
        n, done := i, 0;
        EvictingMeans(old(Db()), Db(), order, i, old(torn), torn, evicted, keys);
        EvictingStops(old(Db()), Db(), order, i, old(torn), torn, evicted, keys, old(faults), faults);
        if !ok { return; }
        heaps := heaps + [heap];
        if heap <= budget { return; }
      }
      n := i;
      EvictingMeans(old(Db()), Db(), order, i, old(torn), torn, evicted, keys);
      EvictingStops(old(Db()), Db(), order, i, old(torn), torn, evicted, keys, old(faults), faults);
    }

    method Exists(k: Key) returns (ok: bool, there: bool)
      modifies this`faults
      ensures Went(old(faults), faults, ok)
      ensures there == (TableName(k) in Db().bars)
    {
      var f := Ending();
      ok, there := f.NoFault?, TableName(k) in bars;
    }
  }

  /** Loop state of `EvictUntilBelow` after `i` drops. */
  ghost predicate Evicting(db0: Tables, db: Tables, order: seq<Key>, i: nat, torn0: set<Key>, torn: set<Key>,
                           evicted: seq<string>, keys: set<Key>) {
    && i <= |order| && NamesDistinct(keys)
    && db == EvictedDb(db0, order, i)
    && torn == torn0 - KeySet(order[..i])
    && evicted == EvictedNames(db0, order, i)
    && EachWholeOrGone(db0, db, torn0, torn, keys)
  }

  lemma EvictingNone(db: Tables, order: seq<Key>, torn: set<Key>, keys: set<Key>)
    requires NamesDistinct(keys)
    ensures Evicting(db, db, order, 0, torn, torn, [], keys)
    ensures EachWholeOrGone(db, db, torn, torn, keys)
    ensures torn - KeySet(order[..0]) == torn && EvictedNames(db, order, 0) == [] && EvictedDb(db, order, 0) == db
  {
    assert KeySet(order[..0]) == {};
  }

  lemma EvictingMeans(db0: Tables, db: Tables, order: seq<Key>, i: nat, torn0: set<Key>, torn: set<Key>,
                      evicted: seq<string>, keys: set<Key>)
    requires Evicting(db0, db, order, i, torn0, torn, evicted, keys)
    ensures i <= |order| && db == EvictedDb(db0, order, i) && torn == torn0 - KeySet(order[..i])
    ensures evicted == EvictedNames(db0, order, i) && EachWholeOrGone(db0, db, torn0, torn, keys)
  {
    hide EvictedDb, EvictedNames, EachWholeOrGone;
  }

  lemma EvictingNext(db0: Tables, db: Tables, order: seq<Key>, i: nat, torn0: set<Key>, torn: set<Key>,
                     evicted: seq<string>, keys: set<Key>, done: nat)
    requires i < |order| && order[i] in keys && Evicting(db0, db, order, i, torn0, torn, evicted, keys)
    ensures var db' := Dropped(db, order[i], done);
            var torn' := TornBy(torn, order[i], done);
            && EachWholeOrGone(db0, db', torn0, torn', keys)
            && (done >= 3 ==>
                  Evicting(db0, db', order, i + 1, torn0, torn',
                    if TableName(order[i]) in db.bars then evicted + [TableName(order[i])] else evicted, keys))
  {
    hide TableName, Dropped, EachWholeOrGone;
    WholeOrGoneAfterDrop(db0, db, torn0, torn, keys, order[i], done);
    if done >= 3 {
      DropDone(db0, order, i, done);
      assert order[..i + 1] == order[..i] + [order[i]];
      assert KeySet(order[..i + 1]) == KeySet(order[..i]) + {order[i]};
    }
  }

  /** An eviction cut short by a failed statement: the first `n` keys are gone as
      whole entries, `done` statements of the next drop took effect, no other
      entry and no other key's tear changed. */
  ghost predicate CutShort(db0: Tables, db: Tables, torn0: set<Key>, torn: set<Key>, order: seq<Key>, n: nat,
                           done: nat) {
    && n <= |order|
    && if n == |order| || done == 0 then db == EvictedDb(db0, order, n) && torn == torn0 - KeySet(order[..n])
       else db == Dropped(EvictedDb(db0, order, n), order[n], done)
            && torn == TornBy(torn0 - KeySet(order[..n]), order[n], done)
  }

  lemma EvictingStops(db0: Tables, db: Tables, order: seq<Key>, i: nat, torn0: set<Key>, torn: set<Key>,
                      evicted: seq<string>, keys: set<Key>, faults: nat, faults': nat)
    requires Evicting(db0, db, order, i, torn0, torn, evicted, keys)
    ensures CutShort(db0, db, torn0, torn, order, i, 0) && Tears(db, torn0, torn, faults, faults')
  {
    hide EvictedDb, EvictedNames, EachWholeOrGone, Dropped;
  }

  lemma EvictingCut(db0: Tables, db: Tables, order: seq<Key>, i: nat, torn0: set<Key>, torn: set<Key>,
                    evicted: seq<string>, keys: set<Key>, done: nat, faults: nat, faults': nat)
    requires i < |order| && Evicting(db0, db, order, i, torn0, torn, evicted, keys)
             && (done == 1 ==> faults' == faults + 1)
    ensures CutShort(db0, Dropped(db, order[i], done), torn0, TornBy(torn, order[i], done), order, i, done)
    ensures Tears(Dropped(db, order[i], done), torn0, TornBy(torn, order[i], done), faults, faults')
  {
    hide EvictedDb, EvictedNames, EachWholeOrGone;
    DropTears(db, torn, order[i], done, faults, faults');
    assert torn <= torn0;
    hide Dropped, TableName, BarsOf;
    if done == 0 { DropNothing(db, order[i]); }
  }

  lemma DropNothing(db: Tables, k: Key)
    ensures Dropped(db, k, 0) == db
  {
  }

  ghost function KeySet(ks: seq<Key>): set<Key> {
    set k | k in ks
  }

  ghost predicate IsAccessOrder(order: seq<Key>, lru: map<Key, int>) {
    && (forall k :: k in lru <==> k in order)
    && (forall i, j :: 0 <= i < j < |order| ==> order[i] != order[j])
    && (forall i, j :: 0 <= i < j < |order| ==> lru[order[i]] <= lru[order[j]])
  }

  /** The tables once the first `n` keys of the order are dropped. */
  function EvictedDb(db: Tables, order: seq<Key>, n: nat): Tables
    requires n <= |order|
  {
    if n == 0 then db else Dropped(EvictedDb(db, order, n - 1), order[n - 1], 3)
  }

  /** The tables among them that existed. */
  function EvictedNames(db: Tables, order: seq<Key>, n: nat): seq<string>
    requires n <= |order|
  {
    if n == 0 then []
    else
      EvictedNames(db, order, n - 1) +
      if TableName(order[n - 1]) in EvictedDb(db, order, n - 1).bars then [TableName(order[n - 1])] else []
  }

  /** Every key keeps its whole entry or loses all of it, unless a drop of it tore. */
  ghost predicate EachWholeOrGone(before: Tables, after: Tables, tornBefore: set<Key>, torn: set<Key>, keys: set<Key>) {
    && (forall k :: k in keys && k !in torn ==> Gone(after, k) || (SameEntry(before, after, k) && k !in tornBefore))
    && (forall k :: k in keys ==> CoverageOf(after, k) == CoverageOf(before, k) || CoverageOf(after, k) == [])
  }

  /** Evicting a prefix of the access order takes exactly the entries of that
      prefix -- bars, coverage and access rows alike -- and leaves the rest. */
  lemma {:induction false} EvictionMeans(db: Tables, keys: set<Key>, order: seq<Key>, n: nat)
    requires NamesDistinct(keys) && n <= |order| && KeySet(order) <= keys
    ensures var after := EvictedDb(db, order, n);
            forall k :: k in keys ==>
              if k in order[..n] then Gone(after, k) && k !in after.lru
              else SameEntry(db, after, k) && (k in db.lru <==> k in after.lru)
  {
    hide TableName;
    if n > 0 {
      EvictionMeans(db, keys, order, n - 1);
      assert order[..n] == order[..n - 1] + [order[n - 1]];
      assert order[n - 1] in KeySet(order);
      DropMeans(EvictedDb(db, order, n - 1), keys, order[n - 1], 3);
    }
  }

  /** The key touched last is the last to go: an eviction that reaches it has
      emptied every other key of the access table. */
  lemma NewestGoesLast(lru: map<Key, int>, order: seq<Key>, n: nat, k: Key)
    requires IsAccessOrder(order, lru) && n <= |order| && k in lru
    requires forall o :: o in lru && o != k ==> lru[o] < lru[k]
    requires k in order[..n]
    ensures n == |order| && order[n - 1] == k
  {
    var i :| 0 <= i < n && order[i] == k;
    var last := order[|order| - 1];
    assert last in lru;
  }

  lemma InOrder(order: seq<Key>, lru: map<Key, int>, keys: set<Key>, i: nat)
    requires IsAccessOrder(order, lru) && lru.Keys <= keys && i < |order|
    ensures order[i] in keys
    ensures KeySet(order[..i + 1]) == KeySet(order[..i]) + {order[i]}
  {
    assert order[..i + 1] == order[..i] + [order[i]];
    assert order[i] in lru;
  }

  lemma DropDone(db: Tables, order: seq<Key>, i: nat, done: nat)
    requires i < |order| && done >= 3
    ensures EvictedDb(db, order, i + 1) == Dropped(EvictedDb(db, order, i), order[i], done)
    ensures EvictedNames(db, order, i + 1) == EvictedNames(db, order, i) +
              if TableName(order[i]) in EvictedDb(db, order, i).bars then [TableName(order[i])] else []
  {
  }

  lemma WholeOrGoneAfterDrop(db: Tables, mid: Tables, torn0: set<Key>, torn1: set<Key>, keys: set<Key>, k: Key,
                             done: nat)
    requires NamesDistinct(keys) && k in keys
    requires EachWholeOrGone(db, mid, torn0, torn1, keys)
    ensures EachWholeOrGone(db, Dropped(mid, k, done), torn0,
              TornBy(torn1, k, done), keys)
  {
    hide TableName, Dropped;
    DropMeans(mid, keys, k, done);
  }
}
