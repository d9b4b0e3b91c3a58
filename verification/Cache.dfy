/** The read-through algorithm (openbb-kdb/openbb_kdb/cache.py): serve what is
    held, fetch what is missing, store it, and fall back to upstream when the
    store raises. */
module Cache {
  import opened Options
  import opened Ranges
  import opened KdbStore

  const DAY := 86400
  const OVERLAP_BARS := 3

  /** Bar widths this model speaks about: those that divide a day. */
  predicate GridWidth(step: int) {
    0 < step <= DAY && DAY % step == 0
  }

  // ---- clocks and day bounds ------------------------------------------

  function DayStart(t: int): int {
    t - t % DAY
  }

  /** Stamp of the newest completed bar (the day and the intraday branch). */
  function LastCompleteBoundary(step: int, now: int): int
    requires step > 0
  {
    if step >= DAY then DayStart(now) - step else now - now % step - step
  }

  /** What goes on the wire for a gap: whole days for intraday widths. */
  function DayRange(start: int, end: int, step: int): Range {
    if step >= DAY then Range(start, end) else Range(DayStart(start), DayStart(end) + DAY - step)
  }

  lemma DayOnGrid(d: int, step: int)
    requires GridWidth(step)
    ensures On(d * DAY, step)
  {
    var q := DAY / step;
    assert DAY == step * q;
    assert d * DAY == step * (q * d) by { Assoc(d, step, q); }
    MulMod(q * d, step);
  }

  lemma Assoc(d: int, step: int, q: int)
    ensures d * (step * q) == step * (q * d)
  {
  }

  lemma DayStartOn(t: int, step: int)
    requires GridWidth(step)
    ensures On(DayStart(t), step) && DayStart(t) <= t < DayStart(t) + DAY && On(DayStart(t) + DAY, step)
    ensures DayStart(t) == t / DAY * DAY
  {
    hide On;
    assert DayStart(t) == t / DAY * DAY;
    DayOnGrid(t / DAY, step);
    DayOnGrid(t / DAY + 1, step);
    assert (t / DAY + 1) * DAY == t / DAY * DAY + DAY;
  }

  /** A bar is complete at `now` exactly when its stamp is at or before the
      boundary, and the boundary is itself a bar stamp. */
  lemma BoundaryMeans(step: int, now: int)
    requires GridWidth(step)
    ensures var b := LastCompleteBoundary(step, now);
            && On(b, step)
            && (forall t :: On(t, step) ==> (t + step <= now <==> t <= b))
  {
    hide On;
    var b := LastCompleteBoundary(step, now);
    if step >= DAY {
      DayStartOn(now, step);
      GridStep(DayStart(now), step);
    } else {
      assert now - now % step == Floor(now, step);
      GridStep(Floor(now, step), step);
    }
    assert b + step <= now < b + step + step;
    forall t | On(t, step) ensures t + step <= now <==> t <= b {
      if t > b { GridGap(b, t, step); }
    }
  }

  /** Later clocks complete more bars. */
  lemma BoundaryGrows(step: int, now: int, later: int)
    requires GridWidth(step) && now <= later
    ensures LastCompleteBoundary(step, now) <= LastCompleteBoundary(step, later)
  {
    hide On, LastCompleteBoundary;
    BoundaryMeans(step, now);
    BoundaryMeans(step, later);
  }

  /** The wire range is a proper range of whole bars, holds every bar of the
      gap, and asks for no other day than those the gap touches. */
  lemma DayRangeMeans(start: int, end: int, step: int)
    requires GridWidth(step) && Floor(start, step) <= end
    requires step == DAY ==> On(start, step) && On(end, step)
    ensures var w := DayRange(start, end, step);
            && On(w.lo, step) && On(w.hi, step) && w.lo <= w.hi && w.lo <= start
            && (forall t :: On(t, step) && start <= t <= end ==> In(t, w))
            && w.lo / DAY == start / DAY && w.hi / DAY == end / DAY
  {
    hide On, Floor, DayStart;
    FloorOn(start, step);
    if step < DAY { WholeDays(start, end, step); }
  }

  lemma WholeDays(start: int, end: int, step: int)
    requires GridWidth(step) && Floor(start, step) <= end
    ensures var lo, hi := DayStart(start), DayStart(end) + DAY - step;
            && On(lo, step) && On(hi, step) && lo <= hi && lo <= start
            && (forall t :: On(t, step) && start <= t <= end ==> lo <= t <= hi)
            && lo / DAY == start / DAY && hi / DAY == end / DAY
  {
    hide On, Floor, DayStart;
    DayStartOn(start, step);
    DayStartOn(end, step);
    GridStep(DayStart(end) + DAY, step);
    if Floor(start, step) < DayStart(start) { GridGap(Floor(start, step), DayStart(start), step); }
    forall t | On(t, step) && start <= t <= end ensures t <= DayStart(end) + DAY - step {
      GridGap(t, DayStart(end) + DAY, step);
    }
    SameDay(start, DayStart(start));
    SameDay(end, DayStart(end) + DAY - step);
    assert DayStart(start) <= DayStart(end) by {
      DaysMonotone(DayStart(start), end);
    }
  }

  lemma SameDay(a: int, b: int)
    requires a / DAY * DAY <= b < a / DAY * DAY + DAY
    ensures a / DAY == b / DAY
  {
  }

  /** The widths, and what they are measured in: seconds, of which a day has 86400. */
  lemma WidthsMean(step: int, now: int, start: int, end: int)
    requires 0 < step <= 86400
    ensures GridWidth(step) <==> 86400 % step == 0
    ensures LastCompleteBoundary(step, now) == now - now % step - step
    ensures DayRange(start, end, step)
            == if step == 86400 then Range(start, end)
               else Range(start - start % 86400, end - end % 86400 + 86400 - step)
  {
  }

  // ---- the provider ---------------------------------------------------

  datatype Fetched = Rows(rows: seq<Row>) | Failed

  /** The provider's answer to the n-th call, for a key and two dates. */
  type Upstream = (Key, nat, int, int) -> Fetched

  /** The final bar of every stamp, where there is one. */
  type History = (Key, int) -> Option<Bar>

  function Get(bars: Bars, t: int): Option<Bar> {
    if t in bars then Some(bars[t]) else None
  }

  /** Rows for bars that exist; a completed bar comes with its final value. */
  ghost predicate TrueRows(rows: seq<Row>, k: Key, final: History, step: int, boundary: int)
    requires step > 0
  {
    forall r :: r in rows ==>
      On(r.t, step) && final(k, r.t).Some? && (r.t <= boundary ==> r.bar == final(k, r.t).value)
  }

  /** Every completed bar of the dates asked for is among the rows. */
  ghost predicate CompleteRows(rows: seq<Row>, k: Key, final: History, step: int, boundary: int, d0: int, d1: int)
    requires step > 0
  {
    forall t :: On(t, step) && d0 <= t / DAY <= d1 && t <= boundary && final(k, t).Some? ==> HasStamp(rows, t)
  }

  ghost predicate Honest(up: Upstream, k: Key, final: History, step: int, boundary: int)
    requires step > 0
  {
    forall n, d0, d1 :: up(k, n, d0, d1).Rows? ==>
      && TrueRows(up(k, n, d0, d1).rows, k, final, step, boundary)
      && CompleteRows(up(k, n, d0, d1).rows, k, final, step, boundary, d0, d1)
  }

  // ---- what the store promises ----------------------------------------

  predicate Shape(cov: seq<Range>, step: int)
    requires step > 0
  {
    AllOn(cov, step) && AllProper(cov)
  }

  /** Every covered bar is complete and held exactly as it finally is. */
  ghost predicate Sound(db: Tables, k: Key, final: History, step: int, boundary: int)
    requires step > 0
  {
    forall t :: On(t, step) && Covered(CoverageOf(db, k), t) ==>
      t <= boundary && Get(BarsOf(db, k), t) == final(k, t)
  }

  /** Whatever is held exists. */
  ghost predicate Known(db: Tables, k: Key, final: History, step: int)
    requires step > 0
  {
    forall t :: t in BarsOf(db, k) ==> On(t, step) && final(k, t).Some?
  }

  ghost predicate Good(db: Tables, k: Key, final: History, step: int, boundary: int)
    requires step > 0
  {
    Sound(db, k, final, step, boundary) && Known(db, k, final, step)
  }

  lemma GoneIsGood(db: Tables, k: Key, final: History, step: int, boundary: int)
    requires step > 0 && Gone(db, k)
    ensures Good(db, k, final, step, boundary) && Shape(CoverageOf(db, k), step)
  {
    hide On;
    forall t { CoveredEmpty(t); }
  }

  lemma GoodLater(db: Tables, k: Key, final: History, step: int, b0: int, b1: int)
    requires step > 0 && b0 <= b1 && Good(db, k, final, step, b0)
    ensures Good(db, k, final, step, b1)
  {
    hide On, Covered, BarsOf, CoverageOf;
  }

  lemma GoodSame(db: Tables, db': Tables, k: Key, final: History, step: int, boundary: int)
    requires step > 0 && SameEntry(db, db', k)
    ensures Good(db, k, final, step, boundary) <==> Good(db', k, final, step, boundary)
  {
    hide On, Covered, BarsOf, CoverageOf;
  }

  /** The bars of `r` that are complete are held as they finally are. */
  ghost predicate Fresh(db: Tables, k: Key, r: Range, final: History, step: int, boundary: int)
    requires step > 0
  {
    forall t :: On(t, step) && In(t, r) && t <= boundary ==> Get(BarsOf(db, k), t) == final(k, t)
  }

  /** Bars held for the stamps of `rows` come from `rows`. */
  ghost predicate Latest(db: Tables, k: Key, rows: seq<Row>) {
    forall t :: HasStamp(rows, t) ==> t in BarsOf(db, k) && Row(t, BarsOf(db, k)[t]) in rows
  }

  // ---- one call -------------------------------------------------------

  datatype Status = Miss | Partial | Hit | Bypass

  /** The metadata and the fetch log of one call. */
  class Call {
    var rows: seq<Row>
    var ranges: seq<Range>
    var status: Status
    var gapsFetched: nat
    var fromCache: nat
    var fromUpstream: nat

    constructor ()
      ensures rows == [] && ranges == [] && gapsFetched == 0
    {
      rows, ranges, status, gapsFetched, fromCache, fromUpstream := [], [], Miss, 0, 0, 0;
    }
  }

  /** The log keeps count, holds true rows, and holds every completed bar of
      the ranges it lists. */
  ghost predicate LogOk(rows: seq<Row>, ranges: seq<Range>, k: Key, final: History, step: int, boundary: int)
    requires step > 0
  {
    && TrueRows(rows, k, final, step, boundary)
    && (forall t :: On(t, step) && Covered(ranges, t) && t <= boundary && final(k, t).Some? ==> HasStamp(rows, t))
  }

  lemma LogGrows(rows: seq<Row>, ranges: seq<Range>, more: seq<Row>, r: Range,
                 k: Key, final: History, step: int, boundary: int)
    requires step > 0 && LogOk(rows, ranges, k, final, step, boundary)
    requires TrueRows(more, k, final, step, boundary)
    requires CompleteRows(more, k, final, step, boundary, r.lo / DAY, r.hi / DAY)
    ensures LogOk(rows + more, ranges + [r], k, final, step, boundary)
  {
    hide On, Covered;
    forall t | On(t, step) && Covered(ranges + [r], t) && t <= boundary && final(k, t).Some?
      ensures HasStamp(rows + more, t)
    {
      CoveredSnoc(ranges, r, t);
      StampsJoin(rows, more, t);
      if In(t, r) { DaysMonotone(r.lo, t); DaysMonotone(t, r.hi); }
    }
  }

  lemma DaysMonotone(a: int, b: int)
    requires a <= b
    ensures a / DAY <= b / DAY
  {
  }

  lemma StampsJoin(a: seq<Row>, b: seq<Row>, t: int)
    ensures HasStamp(a + b, t) <==> HasStamp(a, t) || HasStamp(b, t)
  {
    if HasStamp(a, t) {
      var i :| 0 <= i < |a| && a[i].t == t;
      assert (a + b)[i].t == t;
    }
    if HasStamp(b, t) {
      var i :| 0 <= i < |b| && b[i].t == t;
      assert (a + b)[|a| + i].t == t;
    }
  }

  /** Bars already held that disagree with those just fetched. */
  predicate AdjustedHistoryChanged(cached: Bars, rows: seq<Row>) {
    exists i :: 0 <= i < |rows| && rows[i].t in cached &&
      (cached[rows[i].t].close - rows[i].bar.close > 0.000001 || rows[i].bar.close - cached[rows[i].t].close > 0.000001)
  }

  function MinLo(rs: seq<Range>): (m: int)
    requires rs != []
    ensures (exists i :: 0 <= i < |rs| && rs[i].lo == m) && forall i :: 0 <= i < |rs| ==> m <= rs[i].lo
  {
    var n := |rs| - 1;
    if n == 0 then rs[0].lo else
      var m := MinLo(rs[..n]);
      assert forall i :: 0 <= i < n ==> rs[..n][i] == rs[i];
      if rs[n].lo < m then rs[n].lo else m
  }

  function TrimAll(rs: seq<Range>, boundary: int): seq<Range> {
    if rs == [] then [] else
      var n := |rs| - 1;
      match TrimTail(rs[n], boundary)
      case Some(r) => TrimAll(rs[..n], boundary) + [r]
      case None => TrimAll(rs[..n], boundary)
  }

  lemma {:induction false} TrimAllMeans(rs: seq<Range>, boundary: int, step: int)
    requires step > 0 && Shape(rs, step) && On(boundary, step)
    ensures Shape(TrimAll(rs, boundary), step)
    ensures forall t :: Covered(TrimAll(rs, boundary), t) <==> Covered(rs, t) && t <= boundary
  {
    hide On, Covered;
    if rs == [] {
      forall t ensures !Covered(rs, t) { CoveredEmpty(t); }
    } else {
      var n := |rs| - 1;
      TrimAllMeans(rs[..n], boundary, step);
      assert rs == rs[..n] + [rs[n]];
      forall t { CoveredSnoc(rs[..n], rs[n], t); }
      if rs[n].lo <= boundary {
        forall t { CoveredSnoc(TrimAll(rs[..n], boundary), TrimTail(rs[n], boundary).value, t); }
      }
    }
  }

  /** A frame with one row per stamp. The source's sort is not stable, so which
      of several rows with one stamp survives is not promised. */
  function Dedupe(rows: seq<Row>): (out: Bars) {
    Upsert(map[], rows)
  }

  lemma DedupeMeans(rows: seq<Row>)
    ensures forall t :: t in Dedupe(rows) <==> HasStamp(rows, t)
    ensures forall t :: t in Dedupe(rows) ==> Row(t, Dedupe(rows)[t]) in rows
  {
    forall t
      ensures (t in Dedupe(rows) <==> HasStamp(rows, t)) && (t in Dedupe(rows) ==> Row(t, Dedupe(rows)[t]) in rows)
    {
      UpsertMeans(map[], rows, t);
    }
  }

  // ---- value-level steps of a pass ------------------------------------

  /** Fetched rows, once written, bring the gap up to date and disturb nothing
      that was already right. */
  lemma WriteKeeps(db: Tables, db': Tables, k: Key, rows: seq<Row>, wire: Range,
                   final: History, step: int, boundary: int)
    requires step > 0
    requires BarsOf(db', k) == Upsert(BarsOf(db, k), rows) && CoverageOf(db', k) == CoverageOf(db, k)
    requires TrueRows(rows, k, final, step, boundary)
    requires CompleteRows(rows, k, final, step, boundary, wire.lo / DAY, wire.hi / DAY)
    requires Good(db, k, final, step, boundary)
    ensures Good(db', k, final, step, boundary)
    ensures Fresh(db', k, wire, final, step, boundary)
    ensures forall r :: Fresh(db, k, r, final, step, boundary) ==> Fresh(db', k, r, final, step, boundary)
  {
    hide On, Covered, BarsOf, CoverageOf, Upsert;
    var bars, bars' := BarsOf(db, k), BarsOf(db', k);
    forall t ensures t in bars' ==> On(t, step) && final(k, t).Some?
      ensures On(t, step) && t <= boundary && Get(bars, t) == final(k, t) ==> Get(bars', t) == final(k, t)
      ensures On(t, step) && In(t, wire) && t <= boundary ==> Get(bars', t) == final(k, t)
    {
      UpsertMeans(bars, rows, t);
      if HasStamp(rows, t) {
        var r := Row(t, bars'[t]);
        assert r in rows;
      }
      if In(t, wire) { DaysMonotone(wire.lo, t); DaysMonotone(t, wire.hi); }
    }
  }

  lemma WriteLatest(db: Tables, db': Tables, k: Key, seen: seq<Row>, rows: seq<Row>)
    requires BarsOf(db', k) == Upsert(BarsOf(db, k), rows) && Latest(db, k, seen)
    ensures Latest(db', k, seen + rows)
  {
    hide BarsOf, Upsert;
    forall t | HasStamp(seen + rows, t)
      ensures t in BarsOf(db', k) && Row(t, BarsOf(db', k)[t]) in seen + rows
    {
      StampsJoin(seen, rows, t);
      UpsertMeans(BarsOf(db, k), rows, t);
    }
  }

  /** Coverage may claim a range once its completed bars are right. */
  lemma RecordKeeps(db: Tables, db': Tables, k: Key, wire: Range, final: History, step: int, boundary: int)
    requires step > 0 && wire.lo <= wire.hi && wire.lo <= boundary
    requires BarsOf(db', k) == BarsOf(db, k)
    requires CoverageOf(db', k) == CoverageOf(db, k) + [TrimTail(wire, boundary).value]
    requires Good(db, k, final, step, boundary) && Fresh(db, k, wire, final, step, boundary)
    ensures Good(db', k, final, step, boundary)
    ensures forall r :: Fresh(db, k, r, final, step, boundary) ==> Fresh(db', k, r, final, step, boundary)
  {
    hide On, Covered, BarsOf, CoverageOf;
    forall t { CoveredSnoc(CoverageOf(db, k), TrimTail(wire, boundary).value, t); }
  }

  lemma RecordShape(cov: seq<Range>, wire: Range, step: int, boundary: int)
    requires step > 0 && Shape(cov, step) && On(wire.lo, step) && On(wire.hi, step) && On(boundary, step)
    requires wire.lo <= wire.hi && wire.lo <= boundary
    ensures Shape(cov + [TrimTail(wire, boundary).value], step)
  {
    hide On;
  }

  // ---- the cache ------------------------------------------------------

  type Widths = string -> Option<int>

  ghost predicate WidthsOk(widths: Widths) {
    forall s :: widths(s).Some? ==> GridWidth(widths(s).value)
  }

  /** Coverage always holds proper ranges on the key's grid. */
  ghost predicate Shapes(db: Tables, keys: set<Key>, widths: Widths)
    requires WidthsOk(widths)
  {
    forall k :: k in keys && widths(k.interval).Some? ==> Shape(CoverageOf(db, k), widths(k.interval).value)
  }

  /** Every other key is as it was. */
  ghost predicate Others(db: Tables, db': Tables, torn: set<Key>, torn': set<Key>, keys: set<Key>, k: Key) {
    forall o :: o in keys && o != k ==> SameEntry(db, db', o) && (o in torn <==> o in torn')
  }

  lemma OthersRefl(db: Tables, torn: set<Key>, keys: set<Key>, k: Key)
    ensures Others(db, db, torn, torn, keys, k)
  {
  }

  lemma OthersTrans(a: Tables, b: Tables, c: Tables, tornA: set<Key>, tornB: set<Key>, tornC: set<Key>, keys: set<Key>,
                    k: Key)
    requires Others(a, b, tornA, tornB, keys, k) && Others(b, c, tornB, tornC, keys, k)
    ensures Others(a, c, tornA, tornC, keys, k)
  {
    hide BarsOf, CoverageOf;
  }

  lemma ShapesStep(db: Tables, db': Tables, keys: set<Key>, widths: Widths, k: Key)
    requires WidthsOk(widths) && Shapes(db, keys, widths)
    requires forall o :: o in keys && o != k ==> SameEntry(db, db', o)
    requires widths(k.interval).Some? ==> Shape(CoverageOf(db', k), widths(k.interval).value)
    ensures Shapes(db', keys, widths)
  {
    hide Shape, CoverageOf, BarsOf;
  }

  // ---- what a half-done drop or a dying q does -------------------------

  /** A drop of a sound key leaves it sound, except when it stops right after
      removing the bars while some covered bar exists upstream. */
  lemma DropKeepsPromise(db: Tables, keys: set<Key>, k: Key, done: nat, final: History, step: int, boundary: int)
    requires step > 0 && NamesDistinct(keys) && k in keys && Good(db, k, final, step, boundary)
    ensures Good(Dropped(db, k, done), k, final, step, boundary) <==>
      done != 1 || forall t :: On(t, step) && Covered(CoverageOf(db, k), t) ==> final(k, t).None?
  {
    hide On, Covered, Dropped, BarsOf, CoverageOf, Gone;
    DropMeans(db, keys, k, done);
    var db' := Dropped(db, k, done);
    if done >= 2 { GoneIsGood(db', k, final, step, boundary); }
  }

  /** Such a drop: of a covered bar that upstream has. */
  lemma DropBreaks(k: Key, bar: Bar)
    ensures var db := Tables(map[TableName(k) := map[0 := bar]], map[k := [Range(0, 0)]], map[k := 1]);
            var final: History := (_, t) => if t == 0 then Some(bar) else None;
            Good(db, k, final, DAY, 0) && !Good(Dropped(db, k, 1), k, final, DAY, 0)
  {
    hide TableName;
    var db := Tables(map[TableName(k) := map[0 := bar]], map[k := [Range(0, 0)]], map[k := 1]);
    var final: History := (_, t) => if t == 0 then Some(bar) else None;
    assert On(0, DAY) && CoverageOf(db, k) == [Range(0, 0)] && BarsOf(db, k) == map[0 := bar];
    CoverIntro([Range(0, 0)], 0, 0);
    forall t | Covered([Range(0, 0)], t) ensures t == 0 { var j := CoverElim([Range(0, 0)], t); }
    assert Good(db, k, final, DAY, 0);
    DropKeepsPromise(db, {k}, k, 1, final, DAY, 0);
    assert final(k, 0).Some?;
  }

  /** If q comes back empty after a gap was written and before its range is
      recorded, the record is sound only when upstream has no bar in it. */
  lemma RespawnBeforeRecord(k: Key, wire: Range, final: History, step: int, boundary: int)
    requires step > 0 && wire.lo <= wire.hi && wire.lo <= boundary
    ensures Good(Recorded(Tables(map[], map[], map[]), k, TrimTail(wire, boundary).value), k, final, step,
                 boundary) <==>
      forall t :: On(t, step) && In(t, wire) && t <= boundary ==> final(k, t).None?
  {
    hide On, Covered;
    var r := TrimTail(wire, boundary).value;
    var empty := Tables(map[], map[], map[]);
    RecordedMeans(empty, {}, k, r);
    forall t ensures Covered(CoverageOf(Recorded(empty, k, r), k), t) <==> In(t, wire) && t <= boundary {
      CoveredSnoc([], r, t);
      CoveredEmpty(t);
    }
  }

  /** Such a death: of a range with a bar. */
  lemma RespawnBreaks(k: Key, bar: Bar)
    ensures var final: History := (_, t) => if t == 0 then Some(bar) else None;
            !Good(Recorded(Tables(map[], map[], map[]), k, TrimTail(Range(0, 0), 0).value), k, final, DAY, 0)
  {
    var final: History := (_, t) => if t == 0 then Some(bar) else None;
    assert In(0, Range(0, 0)) && On(0, DAY);
    RespawnBeforeRecord(k, Range(0, 0), final, DAY, 0);
    assert final(k, 0).Some?;
  }

  /** Over covered bars the overlap check raises no false alarm. */
  lemma NoFalseAlarm(db: Tables, k: Key, overlap: Range, rows: seq<Row>, final: History, step: int, boundary: int)
    requires step > 0 && Good(db, k, final, step, boundary) && TrueRows(rows, k, final, step, boundary)
    requires forall t :: On(t, step) && In(t, overlap) ==> Covered(CoverageOf(db, k), t)
    ensures !AdjustedHistoryChanged(Clip(BarsOf(db, k), overlap), rows)
  {
    hide On, Covered, BarsOf, CoverageOf;
    forall i | 0 <= i < |rows| && rows[i].t in Clip(BarsOf(db, k), overlap)
      ensures Clip(BarsOf(db, k), overlap)[rows[i].t] == rows[i].bar
    {
      assert rows[i] in rows;
    }
  }

  predicate Differs(a: Bar, b: Bar) {
    a.close - b.close > 0.000001 || b.close - a.close > 0.000001
  }

  /** The alarm: over bars that are complete, against an honest reply, the check
      finds rewritten history exactly if a bar held in the overlap is no longer
      what upstream has. */
  lemma AlarmIff(db: Tables, k: Key, overlap: Range, rows: seq<Row>, wire: Range, final: History, step: int,
                 boundary: int)
    requires step > 0 && Known(db, k, final, step) && TrueRows(rows, k, final, step, boundary)
    requires CompleteRows(rows, k, final, step, boundary, wire.lo / DAY, wire.hi / DAY)
    requires wire.lo <= overlap.lo && overlap.hi <= wire.hi && overlap.hi <= boundary
    ensures AdjustedHistoryChanged(Clip(BarsOf(db, k), overlap), rows) <==>
            exists t :: t in BarsOf(db, k) && In(t, overlap) && Differs(BarsOf(db, k)[t], final(k, t).value)
  {
    hide On, BarsOf;
    var bars := BarsOf(db, k);
    forall i | 0 <= i < |rows| && rows[i].t in Clip(bars, overlap) ensures rows[i].bar == final(k, rows[i].t).value {
      assert rows[i] in rows;
    }
    forall t | t in bars && In(t, overlap) ensures HasStamp(rows, t) {
      DaysMonotone(wire.lo, t);
      DaysMonotone(t, wire.hi);
    }
  }

  /** Where the last gap is compared with what is held: a few bars before it,
      not before coverage starts, complete ones only. */
  function Overlap(effective: seq<Range>, gap: Range, step: int, boundary: int): Range
    requires effective != []
  {
    var back := gap.lo - step * OVERLAP_BARS;
    Range(if MinLo(effective) > back then MinLo(effective) else back,
          if gap.lo - step <= boundary then gap.lo - step else boundary)
  }

  /** What the comparison of a gap says, where there is one. */
  predicate Alarm(db: Tables, k: Key, gap: Range, compares: bool, effective: seq<Range>, rows: seq<Row>, step: int,
                  boundary: int) {
    compares && effective != []
      && AdjustedHistoryChanged(Clip(BarsOf(db, k), Overlap(effective, gap, step, boundary)), rows)
  }

  /** The code compares only where there is something before the gap to compare. */
  lemma AlarmIs(db: Tables, k: Key, gap: Range, compares: bool, effective: seq<Range>, rows: seq<Row>, step: int,
                boundary: int, compare: bool, start: int, cached: Bars)
    requires start == if compares && effective != [] && Overlap(effective, gap, step, boundary).lo < gap.lo
                      then Overlap(effective, gap, step, boundary).lo else gap.lo
    requires compare <==> compares && effective != [] && start < gap.lo
    requires step > 0
             && (compare ==> cached == Clip(BarsOf(db, k), Range(start, Overlap(effective, gap, step, boundary).hi)))
    ensures compare && AdjustedHistoryChanged(cached, rows) <==>
            Alarm(db, k, gap, compares, effective, rows, step, boundary)
  {
    hide BarsOf;
  }

  /** Upstream no longer has a bar as it is held, within three bars before the gap,
      not before coverage starts, and complete; `fetched` is what was stored since. */
  ghost predicate Noticed(bars: Bars, fetched: seq<Row>, k: Key, gap: Range, effective: seq<Range>, final: History,
                          step: int, boundary: int)
    requires step > 0
  {
    exists t :: t in bars && NoLonger(bars[t], final(k, t)) && On(t, step) && !HasStamp(fetched, t)
                && gap.lo - 3 * step <= t <= gap.lo - step && t <= boundary
                && exists i :: 0 <= i < |effective| && effective[i].lo <= t
  }

  /** The last of these gaps is where it shows, by what was held and what was replied
      for the gaps before it. */
  ghost predicate Rewrote(bars: Bars, up: Upstream, k: Key, before: seq<Range>, asked: seq<Range>, gaps: seq<Range>,
                          effective: seq<Range>, final: History, step: int, boundary: int)
    requires step > 0
  {
    && gaps != [] && |before| + |gaps| <= |asked|
    && Noticed(bars, Replied(up, k, |before|, asked[|before|..|before| + |gaps| - 1]), k, gaps[|gaps| - 1], effective,
               final, step, boundary)
  }

  /** The close has moved by more than a millionth. */
  ghost predicate NoLonger(held: Bar, now: Option<Bar>) {
    now.Some? && (held.close > now.value.close + 0.000001 || now.value.close > held.close + 0.000001)
  }

  lemma MovedOn(held: Bar, now: Bar)
    ensures NoLonger(held, Some(now)) <==> Differs(held, now)
  {
  }

  /** The three bars, in those terms. */
  lemma OverlapMeans(effective: seq<Range>, gap: Range, step: int, boundary: int, t: int)
    requires step > 0 && effective != []
    ensures In(t, Overlap(effective, gap, step, boundary)) <==>
            && gap.lo - 3 * step <= t <= gap.lo - step && t <= boundary
            && exists i :: 0 <= i < |effective| && effective[i].lo <= t
  {
    var m := MinLo(effective);
    assert step * OVERLAP_BARS == 3 * step;
    if m <= t {
      var i :| 0 <= i < |effective| && effective[i].lo == m;
    }
  }

  /** The later of three bars before the gap and the start of coverage, if that is
      before the gap. */
  ghost predicate ComparesFrom(start: int, effective: seq<Range>, gap: Range, step: int) {
    && gap.lo - 3 * step <= start <= gap.lo
    && (start < gap.lo <==> exists i :: 0 <= i < |effective| && effective[i].lo < gap.lo)
    && (start == gap.lo - 3 * step || forall i :: 0 <= i < |effective| ==> start <= effective[i].lo || start == gap.lo)
    && (gap.lo - 3 * step < start < gap.lo ==> exists i :: 0 <= i < |effective| && effective[i].lo == start)
  }

  lemma StartMeans(start: int, effective: seq<Range>, gap: Range, step: int, boundary: int)
    requires step > 0 && effective != []
    requires start == if Overlap(effective, gap, step, boundary).lo < gap.lo
                      then Overlap(effective, gap, step, boundary).lo else gap.lo
    ensures ComparesFrom(start, effective, gap, step)
  {
    var m := MinLo(effective);
    var i :| 0 <= i < |effective| && effective[i].lo == m;
    assert step * OVERLAP_BARS == 3 * step;
  }

  /** What the comparison says of an honest reply is just that. */
  lemma AlarmMeans(db: Tables, k: Key, gap: Range, effective: seq<Range>, rows: seq<Row>, wire: Range, final: History,
                   step: int, boundary: int)
    requires step > 0 && TrueRows(rows, k, final, step, boundary)
    requires CompleteRows(rows, k, final, step, boundary, wire.lo / DAY, wire.hi / DAY)
    requires effective != [] ==>
      forall t :: On(t, step) && In(t, Overlap(effective, gap, step, boundary)) ==> In(t, wire)
    ensures Alarm(db, k, gap, true, effective, rows, step, boundary) <==>
            Noticed(BarsOf(db, k), [], k, gap, effective, final, step, boundary)
  {
    hide On, BarsOf, Overlap;
    var bars := BarsOf(db, k);
    if effective != [] {
      var overlap := Overlap(effective, gap, step, boundary);
      var cached := Clip(bars, overlap);
      if AdjustedHistoryChanged(cached, rows) {
        var i :| 0 <= i < |rows| && rows[i].t in cached && Differs(cached[rows[i].t], rows[i].bar);
        assert rows[i] in rows;
        OverlapMeans(effective, gap, step, boundary, rows[i].t);
        assert final(k, rows[i].t) == Some(rows[i].bar);
        MovedOn(bars[rows[i].t], rows[i].bar);
      }
      if Noticed(bars, [], k, gap, effective, final, step, boundary) {
        var t :| t in bars && NoLonger(bars[t], final(k, t)) && On(t, step) && !HasStamp([], t)
                 && gap.lo - 3 * step <= t <= gap.lo - step && t <= boundary
                 && exists i :: 0 <= i < |effective| && effective[i].lo <= t;
        OverlapMeans(effective, gap, step, boundary, t);
        assert In(t, overlap) && t in cached;
        DaysMonotone(wire.lo, t);
        DaysMonotone(t, wire.hi);
        assert In(t, wire);
        assert wire.lo / DAY <= t / DAY <= wire.hi / DAY;
        assert final(k, t).Some?;
        assert HasStamp(rows, t);
        var i :| 0 <= i < |rows| && rows[i].t == t;
        assert rows[i] in rows;
        MovedOn(bars[t], rows[i].bar);
      }
    }
  }

  /** Before the last gap what is held is what was, with the replies so far. */
  lemma RewroteNow(bars: Bars, now: Bars, up: Upstream, k: Key, before: seq<Range>, mid: seq<Range>, asked: seq<Range>,
                   ranges0: seq<Range>, ranges: seq<Range>, rows0: seq<Row>, rows: seq<Row>, gaps: seq<Range>, i: nat,
                   effective: seq<Range>, final: History, step: int, boundary: int)
    requires step > 0 && i < |gaps| && |mid| == |before| + i && mid <= asked && |asked| == |mid| + 1
    requires Grew(up, k, before, mid, ranges0, ranges, rows0, rows)
    requires now == Upsert(bars, rows[|rows0|..]) && TrueRows(rows, k, final, step, boundary)
    ensures i == |gaps| - 1 ==>
      (Noticed(now, [], k, gaps[i], effective, final, step, boundary) <==>
       Rewrote(bars, up, k, before, asked, gaps, effective, final, step, boundary))
  {
    hide On, Upsert, Noticed;
    var fetched := rows[|rows0|..];
    forall r | r in fetched ensures r in rows {
      var j :| 0 <= j < |fetched| && fetched[j] == r;
      assert rows[|rows0| + j] == r;
    }
    assert fetched == Replied(up, k, |before|, mid[|before|..]);
    NoticedLater(bars, fetched, k, gaps[i], effective, final, step, boundary);
    if i == |gaps| - 1 { assert asked[|before|..|before| + |gaps| - 1] == mid[|before|..]; }
  }

  lemma RewroteStill(bars: Bars, up: Upstream, k: Key, before: seq<Range>, mid: seq<Range>, asked: seq<Range>,
                     gaps: seq<Range>, effective: seq<Range>, final: History, step: int, boundary: int)
    requires step > 0 && mid <= asked && Rewrote(bars, up, k, before, mid, gaps, effective, final, step, boundary)
    ensures Rewrote(bars, up, k, before, asked, gaps, effective, final, step, boundary)
  {
    hide Noticed;
    assert asked[|before|..|before| + |gaps| - 1] == mid[|before|..|before| + |gaps| - 1];
  }

  lemma RewroteNothing(bars: Bars, up: Upstream, k: Key, before: seq<Range>, asked: seq<Range>, gaps: seq<Range>,
                       effective: seq<Range>, final: History, step: int, boundary: int)
    requires step > 0
    ensures gaps == [] ==> !Rewrote(bars, up, k, before, asked, gaps, effective, final, step, boundary)
  {
  }

  lemma CallTrue(rows: seq<Row>, ranges: seq<Range>, gapsFetched: nat, k: Key, final: History, step: int,
                 boundary: int)
    requires step > 0 && CallOk(rows, ranges, gapsFetched, k, final, step, boundary)
    ensures TrueRows(rows, k, final, step, boundary)
  {
  }

  lemma UpsertMore(bars: Bars, rows0: seq<Row>, rows1: seq<Row>, rows2: seq<Row>)
    requires rows0 <= rows1 <= rows2
    ensures Upsert(Upsert(bars, rows1[|rows0|..]), rows2[|rows1|..]) == Upsert(bars, rows2[|rows0|..])
  {
    hide Upsert;
    UpsertJoin(bars, rows1[|rows0|..], rows2[|rows1|..]);
    assert rows1[|rows0|..] + rows2[|rows1|..] == rows2[|rows0|..];
  }

  lemma {:induction false} UpsertJoin(bars: Bars, a: seq<Row>, b: seq<Row>)
    ensures Upsert(bars, a + b) == Upsert(Upsert(bars, a), b)
    decreases |b|
  {
    if b == [] {
      assert a + b == a;
    } else {
      var n := |b| - 1;
      UpsertJoin(bars, a, b[..n]);
      assert (a + b)[..|a + b| - 1] == a + b[..n];
    }
  }

  lemma NoAlarm(db: Tables, k: Key, gap: Range, effective: seq<Range>, rows: seq<Row>, step: int, boundary: int)
    ensures !Alarm(db, k, gap, false, effective, rows, step, boundary)
  {
  }

  /** The bars compared lie within what is fetched. */
  lemma OverlapFetched(effective: seq<Range>, gap: Range, wire: Range, start: int, step: int, boundary: int)
    requires step > 0 && Floor(gap.lo, step) <= gap.hi
    requires effective != [] ==>
      start == if Overlap(effective, gap, step, boundary).lo < gap.lo then Overlap(effective, gap, step, boundary).lo
               else gap.lo
    requires forall t :: On(t, step) && start <= t <= gap.hi ==> In(t, wire)
    ensures effective != [] ==>
      forall t :: On(t, step) && In(t, Overlap(effective, gap, step, boundary)) ==> In(t, wire)
  {
    hide On;
  }

  lemma StoredBars(db: Tables, k: Key, rows: seq<Row>, wire: Range, boundary: int)
    ensures BarsOf(Stored(db, k, rows, wire, boundary), k) == Upsert(BarsOf(db, k), rows)
  {
    hide TableName;
    UpsertNothing(BarsOf(db, k));
  }

  /** Rows stored meanwhile are upstream's own. */
  lemma NoticedLater(bars: Bars, fetched: seq<Row>, k: Key, gap: Range, effective: seq<Range>, final: History,
                     step: int, boundary: int)
    requires step > 0 && TrueRows(fetched, k, final, step, boundary)
    ensures Noticed(Upsert(bars, fetched), [], k, gap, effective, final, step, boundary) <==>
            Noticed(bars, fetched, k, gap, effective, final, step, boundary)
  {
    hide On, Upsert;
    var later := Upsert(bars, fetched);
    forall t
      ensures !HasStamp(fetched, t) ==> (t in later <==> t in bars) && (t in bars ==> later[t] == bars[t])
      ensures HasStamp(fetched, t) && t <= boundary ==> t in later && !NoLonger(later[t], final(k, t))
    {
      UpsertMeans(bars, fetched, t);
    }
  }

  // ---- whose fault ----------------------------------------------------

  /** The provider fails one of the calls made between two points of the list of calls. */
  ghost predicate Refused(up: Upstream, k: Key, before: seq<Range>, asked: seq<Range>) {
    exists n: nat :: |before| <= n < |asked| && up(k, n, asked[n].lo / DAY, asked[n].hi / DAY).Failed?
  }

  /** Who is to blame when something was raised: one statement that failed, or one
      of the provider calls in between; and if nothing was raised nothing failed. */
  ghost predicate Blames(faults: nat, faults': nat, up: Upstream, k: Key, before: seq<Range>, asked: seq<Range>,
                         raised: bool) {
    && before <= asked
    && if raised then faults' == faults + 1 || (faults' == faults && Refused(up, k, before, asked))
       else faults' == faults
  }

  lemma BlamesNext(f0: nat, f1: nat, f2: nat, up: Upstream, k: Key, a0: seq<Range>, a1: seq<Range>, a2: seq<Range>,
                   raised: bool)
    requires Blames(f0, f1, up, k, a0, a1, false) && Blames(f1, f2, up, k, a1, a2, raised)
    ensures Blames(f0, f2, up, k, a0, a2, raised)
  {
  }

  lemma BlamesAfter(f0: nat, f1: nat, f2: nat, up: Upstream, k: Key, a0: seq<Range>, a1: seq<Range>, ok: bool)
    requires Blames(f0, f1, up, k, a0, a1, false) && Went(f1, f2, ok)
    ensures Blames(f0, f2, up, k, a0, a1, !ok)
  {
    hide Refused;
  }

  /** Whatever is asked later, the call that was refused was refused. */
  lemma BlamesStill(f0: nat, f1: nat, up: Upstream, k: Key, a0: seq<Range>, a1: seq<Range>, a2: seq<Range>)
    requires Blames(f0, f1, up, k, a0, a1, true) && a1 <= a2
    ensures Blames(f0, f1, up, k, a0, a2, true)
  {
  }

  /** Tears that came after steps in which nothing failed. */
  lemma TearsAfter(db: Tables, torn0: set<Key>, torn1: set<Key>, torn2: set<Key>, f0: nat, f1: nat, f2: nat)
    requires torn1 <= torn0 && f1 == f0 && Tears(db, torn1, torn2, f1, f2)
    ensures Tears(db, torn0, torn2, f0, f2)
  {
    hide BarsOf;
  }

  // ---- what coverage remembers ----------------------------------------

  /** The completed bars of `r` are covered. */
  ghost predicate Holds(db: Tables, k: Key, r: Range, step: int, boundary: int)
    requires step > 0
  {
    forall t :: On(t, step) && In(t, r) && t <= boundary ==> Covered(CoverageOf(db, k), t)
  }

  /** The tables with a wire range's rows written and its completed part recorded. */
  function Stored(db: Tables, k: Key, rows: seq<Row>, wire: Range, boundary: int): Tables {
    var w := if rows == [] then db else Written(db, k, rows);
    if wire.lo <= boundary then Recorded(w, k, TrimTail(wire, boundary).value) else w
  }

  /** Coverage has grown, by these gaps at least. */
  ghost predicate CoversMore(db: Tables, db': Tables, k: Key, gaps: seq<Range>, step: int, boundary: int)
    requires step > 0
  {
    && CoverageOf(db, k) <= CoverageOf(db', k)
    && forall j :: 0 <= j < |gaps| ==> Holds(db', k, gaps[j], step, boundary)
  }

  lemma PrefixCovers(a: seq<Range>, b: seq<Range>, t: int)
    requires a <= b && Covered(a, t)
    ensures Covered(b, t)
  {
    var j := CoverElim(a, t);
    CoverIntro(b, j, t);
  }

  lemma StoredCovers(db: Tables, k: Key, rows: seq<Row>, wire: Range, gap: Range, step: int, boundary: int)
    requires step > 0 && wire.lo <= wire.hi && forall t :: On(t, step) && gap.lo <= t <= gap.hi ==> In(t, wire)
    ensures CoversMore(db, Stored(db, k, rows, wire, boundary), k, [gap], step, boundary)
  {
    hide On, Covered;
    var cov := CoverageOf(Stored(db, k, rows, wire, boundary), k);
    forall t | On(t, step) && In(t, gap) && t <= boundary ensures Covered(cov, t) {
      CoverIntro(cov, |CoverageOf(db, k)|, t);
    }
  }

  lemma CoversNone(db: Tables, k: Key, gaps: seq<Range>, step: int, boundary: int)
    requires step > 0
    ensures CoversMore(db, db, k, gaps[..0], step, boundary)
  {
  }

  lemma CoversNext(db: Tables, mid: Tables, db': Tables, k: Key, gaps: seq<Range>, i: nat, step: int, boundary: int)
    requires step > 0 && i < |gaps|
    requires CoversMore(db, mid, k, gaps[..i], step, boundary) && CoversMore(mid, db', k, [gaps[i]], step, boundary)
    ensures CoversMore(db, db', k, gaps[..i + 1], step, boundary)
  {
    hide On, Covered, CoverageOf;
    assert forall j :: 0 <= j < i + 1 ==> gaps[..i + 1][j] == gaps[j];
    forall j | 0 <= j < i + 1 ensures Holds(db', k, gaps[j], step, boundary) {
      if j < i {
        assert gaps[..i][j] == gaps[j];
        forall t | On(t, step) && In(t, gaps[j]) && t <= boundary ensures Covered(CoverageOf(db', k), t) {
          PrefixCovers(CoverageOf(mid, k), CoverageOf(db', k), t);
        }
      } else {
        assert [gaps[i]][0] == gaps[i];
      }
    }
  }

  /** Effective coverage: the covered bars up to the boundary. */
  ghost predicate Effective(effective: seq<Range>, db: Tables, k: Key, step: int, boundary: int)
    requires step > 0
  {
    && Shape(effective, step)
    && forall t :: On(t, step) ==> (Covered(effective, t) <==> Covered(CoverageOf(db, k), t) && t <= boundary)
  }

  /** After a pass the whole window is remembered as far as it is complete. */
  lemma WindowHeld(db: Tables, db': Tables, k: Key, window: Range, effective: seq<Range>, gaps: seq<Range>,
                   step: int, boundary: int)
    requires step > 0 && Effective(effective, db, k, step, boundary) && Gaps(gaps, window, effective, step)
    requires CoversMore(db, db', k, gaps, step, boundary)
    ensures Holds(db', k, window, step, boundary)
  {
    hide On, Covered, CoverageOf;
    forall t | On(t, step) && In(t, window) && t <= boundary ensures Covered(CoverageOf(db', k), t) {
      if Covered(effective, t) {
        PrefixCovers(CoverageOf(db, k), CoverageOf(db', k), t);
      } else {
        var j := CoverElim(gaps, t);
      }
    }
  }

  lemma HeldStill(db: Tables, db': Tables, k: Key, window: Range, step: int, boundary: int)
    requires step > 0 && CoverageOf(db, k) == CoverageOf(db', k) && Holds(db, k, window, step, boundary)
    ensures Holds(db', k, window, step, boundary)
  {
    hide On, Covered, CoverageOf;
  }

  /** The window is of whole bars, all of them complete and covered. */
  ghost predicate Remembered(db: Tables, k: Key, window: Range, step: int, boundary: int)
    requires step > 0
  {
    On(window.lo, step) && On(window.hi, step) && window.hi <= boundary && Holds(db, k, window, step, boundary)
  }

  lemma GapOpen(gaps: seq<Range>, window: Range, effective: seq<Range>, step: int)
    requires step > 0 && Gaps(gaps, window, effective, step) && gaps != []
    requires On(window.lo, step) && On(window.hi, step)
    ensures var t := gaps[0].lo; On(t, step) && In(t, window) && !Covered(effective, t)
  {
    hide Covered, On;
    FloorOn(gaps[0].lo, step);
    CoverIntro(gaps, 0, gaps[0].lo);
  }

  /** Such a window has no gap. */
  lemma HeldHits(db: Tables, k: Key, window: Range, effective: seq<Range>, gaps: seq<Range>, step: int, boundary: int)
    requires step > 0 && Effective(effective, db, k, step, boundary) && Gaps(gaps, window, effective, step)
    ensures Remembered(db, k, window, step, boundary) ==> gaps == []
  {
    hide Covered, CoverageOf, On, Gaps;
    if gaps != [] && On(window.lo, step) && On(window.hi, step) {
      GapOpen(gaps, window, effective, step);
    }
  }

  // ---- runs -----------------------------------------------------------

  /** A run of the cache: requests, and deaths of q between them. */
  datatype Event = Ask(k: Key, window: Range, now: int, up: Upstream) | Respawn

  predicate InTime(events: seq<Event>, from: int) {
    && (forall i :: 0 <= i < |events| && events[i].Ask? ==> from <= events[i].now)
    && (forall i, j :: 0 <= i < j < |events| && events[i].Ask? && events[j].Ask? ==> events[i].now <= events[j].now)
  }

  /** The clock of requests does not run back. */
  lemma InTimeMeans(events: seq<Event>, from: int)
    ensures InTime(events, from) <==>
            forall j :: 0 <= j < |events| && events[j].Ask? ==>
              from <= events[j].now && forall i :: 0 <= i < j && events[i].Ask? ==> events[i].now <= events[j].now
  {
  }

  /** Every key whose drops never tore is sound as of `now`. */
  ghost predicate AllGood(db: Tables, torn: set<Key>, keys: set<Key>, widths: Widths, final: History, now: int)
    requires WidthsOk(widths)
  {
    forall k :: k in keys && k !in torn && widths(k.interval).Some? ==>
      var step := widths(k.interval).value;
      Good(db, k, final, step, LastCompleteBoundary(step, now))
  }

  lemma AllGoodLater(db: Tables, torn: set<Key>, keys: set<Key>, widths: Widths, final: History, now: int, later: int)
    requires WidthsOk(widths) && AllGood(db, torn, keys, widths, final, now) && now <= later
    ensures AllGood(db, torn, keys, widths, final, later)
  {
    hide Good, LastCompleteBoundary;
    forall k | k in keys && k !in torn && widths(k.interval).Some?
      ensures var step := widths(k.interval).value; Good(db, k, final, step, LastCompleteBoundary(step, later))
    {
      var step := widths(k.interval).value;
      BoundaryGrows(step, now, later);
      GoodLater(db, k, final, step, LastCompleteBoundary(step, now), LastCompleteBoundary(step, later));
    }
  }

  lemma AllGoodEmpty(keys: set<Key>, widths: Widths, final: History, now: int)
    requires WidthsOk(widths)
    ensures AllGood(Tables(map[], map[], map[]), {}, keys, widths, final, now)
    ensures Shapes(Tables(map[], map[], map[]), keys, widths)
  {
    hide LastCompleteBoundary;
    forall k | k in keys && widths(k.interval).Some?
      ensures var step := widths(k.interval).value;
              && Good(Tables(map[], map[], map[]), k, final, step, LastCompleteBoundary(step, now))
              && Shape(CoverageOf(Tables(map[], map[], map[]), k), step)
    {
      var step := widths(k.interval).value;
      GoneIsGood(Tables(map[], map[], map[]), k, final, step, LastCompleteBoundary(step, now));
    }
  }

  function LastNow(events: seq<Event>, from: int): int {
    if events == [] then from
    else if events[|events| - 1].Ask? then events[|events| - 1].now
    else LastNow(events[..|events| - 1], from)
  }

  lemma {:induction false} LastNowBound(events: seq<Event>, i: nat, from: int)
    requires i < |events| && InTime(events, from)
    ensures events[i].Ask? ==> LastNow(events[..i], from) <= events[i].now
    ensures LastNow(events[..i + 1], from) == if events[i].Ask? then events[i].now else LastNow(events[..i], from)
  {
    assert events[..i + 1][..i] == events[..i];
    var n := i;
    while n > 0
      invariant 0 <= n <= i && LastNow(events[..i], from) == LastNow(events[..n], from)
    {
      if events[n - 1].Ask? { break; }
      assert events[..n][..n - 1] == events[..n - 1];
      n := n - 1;
    }
  }

  /** What a cache has to show between two events: its store, and what it has
      asked of q's heap and of the provider so far. */
  datatype Snap = Snap(db: Tables, torn: set<Key>, faults: nat, readings: seq<int>, asked: seq<Range>)

  /** Whatever of the window was not complete was asked for between these two
      points, and what came is what is served. */
  ghost predicate Live(rows: Bars, k: Key, window: Range, up: Upstream, before: seq<Range>, asked: seq<Range>,
                       step: int, boundary: int)
    requires step > 0
  {
    exists n: nat :: |before| <= n <= |asked|
      && TailAsked(asked[n..], window, step, boundary) && Newest(rows, window, Replied(up, k, n, asked[n..]))
  }

  lemma LiveIntro(rows: Bars, k: Key, window: Range, up: Upstream, before: seq<Range>, asked: seq<Range>, step: int,
                  boundary: int, n: nat)
    requires step > 0 && |before| <= n <= |asked|
    requires TailAsked(asked[n..], window, step, boundary) && Newest(rows, window, Replied(up, k, n, asked[n..]))
    ensures Live(rows, k, window, up, before, asked, step, boundary)
  {
    hide TailAsked, Newest, Replied;
  }

  /** The entry asked for was evicted to make room: q answered over budget, and
      nothing is left of the access table. */
  predicate Emptied(rows: Bars, s: Snap, s': Snap, budget: int) {
    rows == map[] && Roomy(s.readings, s'.readings, budget, s'.db.lru, true) && s'.db.lru == map[]
  }

  /** So the answer is empty, q was read since and found over budget, and the last
      time it was, nothing was left to drop. */
  lemma EmptiedMeans(rows: Bars, s: Snap, s': Snap, budget: int)
    requires Emptied(rows, s, s', budget)
    ensures rows == map[] && s'.db.lru == map[]
    ensures exists i :: |s.readings| <= i < |s'.readings| && s'.readings[i] > budget
  {
    assert s'.readings[|s.readings|] > budget;
  }

  /** A bypassed answer: the provider answered for every bar of the window in this
      very request, the rows are its replies, and the gaps counted are the calls
      but for the refused one, if that is what ended the read-through. */
  ghost predicate Bypassed(window: Range, up: Upstream, k: Key, before: seq<Range>, asked: seq<Range>, reply: Reply,
                           step: int)
    requires reply.Answer? && step > 0
  {
    && before <= asked
    && WindowAsked(Granted(up, k, |before|, asked[|before|..]), window, step)
    && reply.rows == Dedupe(Replied(up, k, |before|, asked[|before|..]))
    && reply.gapsFetched == |asked| - |before| - if Refused(up, k, before, asked) then 1 else 0
  }

  lemma BypassedIntro(window: Range, up: Upstream, k: Key, before: seq<Range>, asked: seq<Range>, reply: Reply,
                      step: int, ranges: seq<Range>, rows: seq<Row>)
    requires reply.Answer? && step > 0 && Grew(up, k, before, asked, [], ranges, [], rows)
    requires WindowAsked(ranges, window, step) && reply.rows == Dedupe(rows) && reply.gapsFetched == |ranges|
    requires |asked| - |before| <= reply.gapsFetched + 1
    ensures Bypassed(window, up, k, before, asked, reply, step)
  {
    hide WindowAsked, Dedupe, Refused, Granted, Replied;
    GrantedAll(up, k, before, asked);
    assert ranges == Granted(up, k, |before|, asked[|before|..]) && rows == Replied(up, k, |before|, asked[|before|..]);
  }

  /** What a request for a key of known width promises of its answer. */
  ghost predicate Answers(k: Key, window: Range, up: Upstream, s: Snap, s': Snap, reply: Reply, budget: int,
                          final: History, step: int, boundary: int)
    requires reply.Answer? && step > 0
  {
    && reply.fromCache + reply.fromUpstream == |reply.rows|
    && if reply.status == Bypass then
         && AllFetched(reply.rows, k, window, final, step, boundary)
         && Bypassed(window, up, k, s.asked, s'.asked, reply, step)
         && Blames(s.faults, s'.faults, up, k, s.asked, s'.asked, true)
       else
         && s'.faults == s.faults && s'.torn <= s.torn && reply.gapsFetched == |s'.asked| - |s.asked|
         && Roomy(s.readings, s'.readings, budget, s'.db.lru, false)
         && (|| Emptied(reply.rows, s, s', budget)
             || (&& Live(reply.rows, k, window, up, s.asked, s'.asked, step, boundary)
                 && Holds(s'.db, k, window, step, boundary)
                 && (k !in s.torn ==> Exact(reply.rows, k, window, final, step, boundary))))
  }

  /** What one event does and replies. */
  ghost predicate Told(e: Event, s: Snap, s': Snap, reply: Reply, budget: int, widths: Widths, final: History)
    requires WidthsOk(widths)
  {
    match e
    case Respawn =>
      s' == s.(db := Tables(map[], map[], map[]), torn := {}) && reply == Error
    case Ask(k, window, now, up) =>
      && Tears(s'.db, s.torn, s'.torn, s.faults, s'.faults)
      && s.faults <= s'.faults <= s.faults + 1 && s.readings <= s'.readings && s.asked <= s'.asked
      && (reply.Error? ==> Refused(up, k, s.asked, s'.asked))
      && if widths(k.interval).Some? then
           var step := widths(k.interval).value;
           reply.Answer? ==>
             Answers(k, window, up, s, s', reply, budget, final, step, LastCompleteBoundary(step, now))
         else
           && s' == s.(asked := s'.asked)
           && (reply.Answer? ==> Straight(k, window, up, s.asked, s'.asked, reply))
  }

  /** An interval the cache does not know is served by one call for the window. */
  ghost predicate Straight(k: Key, window: Range, up: Upstream, before: seq<Range>, asked: seq<Range>, reply: Reply)
    requires reply.Answer?
  {
    && asked == before + [window] && up(k, |before|, window.lo / DAY, window.hi / DAY).Rows?
    && reply.status == Bypass && reply.rows == Dedupe(Replied(up, k, |before|, [window]))
    && reply.fromCache == 0 && reply.fromUpstream == |reply.rows| && reply.gapsFetched == 1
  }

  lemma AllGoodAt(db: Tables, torn: set<Key>, keys: set<Key>, widths: Widths, final: History, now: int, k: Key)
    requires WidthsOk(widths) && AllGood(db, torn, keys, widths, final, now) && k in keys
    ensures k !in torn && widths(k.interval).Some? ==>
      var step := widths(k.interval).value; Good(db, k, final, step, LastCompleteBoundary(step, now))
  {
    hide Good, LastCompleteBoundary;
  }

  lemma AllGoodStep(db: Tables, db': Tables, torn: set<Key>, torn': set<Key>, keys: set<Key>, widths: Widths,
                    final: History, now: int, k: Key)
    requires WidthsOk(widths) && AllGood(db, torn, keys, widths, final, now)
    requires KeptOthers(db, db', torn, torn', keys, k) && k in keys
    requires widths(k.interval).Some? ==>
      var step := widths(k.interval).value;
      Kept(db, db', torn, torn', k, final, step, LastCompleteBoundary(step, now))
    ensures AllGood(db', torn', keys, widths, final, now)
  {
    hide Good, LastCompleteBoundary;
  }

  /** The key's promise stands, unless a drop of it tore; if an earlier one had,
      it stands again once a drop is complete. */
  ghost predicate Kept(db: Tables, db': Tables, torn: set<Key>, torn': set<Key>, k: Key, final: History, step: int,
                       boundary: int)
    requires step > 0
  {
    k !in torn' && (k in torn || Good(db, k, final, step, boundary)) ==> Good(db', k, final, step, boundary)
  }

  /** How one gap went. */
  datatype Step = Filled | Rewritten | Raised

  class ReadThroughCache {
    const store: Store
    const budget: int
    const widths: Widths
    var calls: nat
    /** The ranges asked of the provider so far, one a call. */
    ghost var asked: seq<Range>

    ghost function Now(): Snap
      reads this, store
    {
      Snap(store.Db(), store.torn, store.faults, store.readings, asked)
    }

    ghost predicate Valid()
      reads this, store
    {
      calls == |asked| && store.Valid() && WidthsOk(widths) && Shapes(store.Db(), store.keys, widths)
    }

    constructor (store: Store, budget: int, widths: Widths)
      requires store.Valid() && WidthsOk(widths) && Shapes(store.Db(), store.keys, widths)
      ensures Valid() && this.store == store && this.budget == budget && this.widths == widths
    {
      this.store, this.budget, this.widths, calls, asked := store, budget, widths, 0, [];
    }

    /** One upstream call, recorded in the metadata and in the log. */
    method Fetch(k: Key, r: Range, up: Upstream, call: Call) returns (ok: bool, rows: seq<Row>)
      modifies this`calls, this`asked, call`rows, call`ranges, call`gapsFetched
      ensures calls == old(calls) + 1 && asked == old(asked) + [r]
      ensures !ok ==> up(k, old(calls), r.lo / DAY, r.hi / DAY).Failed?
      ensures ok ==> up(k, old(calls), r.lo / DAY, r.hi / DAY) == Rows(rows)
      ensures ok ==> call.rows == old(call.rows) + rows && call.ranges == old(call.ranges) + [r]
                     && call.gapsFetched == old(call.gapsFetched) + 1
      ensures !ok ==> call.rows == old(call.rows) && call.ranges == old(call.ranges)
                      && call.gapsFetched == old(call.gapsFetched)
    {
      var got := up(k, calls, r.lo / DAY, r.hi / DAY);
      calls, asked := calls + 1, asked + [r];
      if got.Failed? { return false, []; }
      ok, rows := true, got.rows;
      call.rows, call.ranges, call.gapsFetched := call.rows + rows, call.ranges + [r], call.gapsFetched + 1;
    }

    /** Write the rows of one wire range and record the part that is complete. */
    method StoreGap(k: Key, rows: seq<Row>, wire: Range, step: int, boundary: int, ghost final: History,
                    ghost seen: seq<Row>)
      returns (ok: bool)
      requires Valid() && k in store.keys && widths(k.interval) == Some(step) && On(boundary, step)
      requires On(wire.lo, step) && On(wire.hi, step) && wire.lo <= wire.hi
      requires TrueRows(rows, k, final, step, boundary)
      requires CompleteRows(rows, k, final, step, boundary, wire.lo / DAY, wire.hi / DAY)
      modifies store`bars, store`cov, store`faults
      ensures Valid()
      ensures Others(old(store.Db()), store.Db(), store.torn, store.torn, store.keys, k)
      ensures Good(old(store.Db()), k, final, step, boundary) ==> Good(store.Db(), k, final, step, boundary)
      ensures ok && Good(old(store.Db()), k, final, step, boundary) ==>
        && Fresh(store.Db(), k, wire, final, step, boundary)
        && (forall r :: Fresh(old(store.Db()), k, r, final, step, boundary) ==>
            Fresh(store.Db(), k, r, final, step, boundary))
      ensures ok && Latest(old(store.Db()), k, seen) ==> Latest(store.Db(), k, seen + rows)
      ensures ok ==> store.Db() == Stored(old(store.Db()), k, rows, wire, boundary)
      ensures Went(old(store.faults), store.faults, ok)
    {
      hide On, Good, Fresh, Latest, TrueRows, CompleteRows, Written, Recorded, Upsert, BarsOf, CoverageOf, Shape,
           TrimTail;
      ok := true;
      ghost var db0 := store.Db();
      UpsertNothing(BarsOf(db0, k));
      if rows != [] {
        ok := store.WriteBars(k, rows);
      }
      ghost var db1 := store.Db();
      AfterWrite(db0, db1, store.keys, widths, k, seen, rows, wire, final, step, boundary);
      if !ok { return; }
      var recorded := TrimTail(wire, boundary);
      TrimTailMeans(wire, boundary);
      if recorded.Some? {
        ok := store.RecordCoverage(k, recorded.value);
        AfterRecord(db1, store.Db(), store.keys, widths, k, seen + rows, wire, final, step, boundary);
      }
    }

    /** History was rewritten: start the key over. */
    method DropRewritten(k: Key, step: int, boundary: int, ghost final: History) returns (r: Step)
      requires Valid() && k in store.keys && widths(k.interval) == Some(step)
      modifies store`bars, store`cov, store`lru, store`torn, store`faults
      ensures Valid() && r != Filled
      ensures Went(old(store.faults), store.faults, r == Rewritten)
      ensures Others(old(store.Db()), store.Db(), old(store.torn), store.torn, store.keys, k)
      ensures r == Rewritten ==> Gone(store.Db(), k) && store.torn == old(store.torn) - {k}
      ensures Kept(old(store.Db()), store.Db(), old(store.torn), store.torn, k, final, step, boundary)
      ensures Tears(store.Db(), old(store.torn), store.torn, old(store.faults), store.faults)
    {
      hide On, Good, Gone, Shape, Dropped, SameEntry, BarsOf, CoverageOf, Shapes, Tears;
      ghost var db := store.Db();
      ghost var done;
      var ok;
      ok, done := store.Drop(k);
      AfterDrop(db, store.keys, widths, k, done, final, step, boundary);
      DropTears(db, old(store.torn), k, done, old(store.faults), store.faults);
      return if ok then Rewritten else Raised;
    }

    /** Where the fetch of a gap starts: at the overlap with what is held, if
        history is to be compared and the overlap reaches before the gap. */
    method FetchFrom(gap: Range, compares: bool, effective: seq<Range>, step: int, boundary: int)
      returns (compare: bool, start: int)
      requires GridWidth(step) && Shape(effective, step)
      requires Floor(gap.lo, step) <= gap.hi && (step == DAY ==> On(gap.lo, step) && On(gap.hi, step))
      ensures start == if compares && effective != [] && Overlap(effective, gap, step, boundary).lo < gap.lo
                       then Overlap(effective, gap, step, boundary).lo else gap.lo
      ensures compare <==> compares && effective != [] && start < gap.lo
      ensures Floor(start, step) <= gap.hi
      ensures var w := DayRange(start, gap.hi, step);
              && On(w.lo, step) && On(w.hi, step) && w.lo <= w.hi
              && (forall t :: On(t, step) && start <= t <= gap.hi ==> In(t, w))
      // three bars back, but not before coverage starts nor after the gap does
      ensures !compares || effective == [] ==> start == gap.lo
      ensures compares && effective != [] ==> ComparesFrom(start, effective, gap, step)
    {
      hide On, Shape, Floor, DayRange, Overlap;
      compare, start := compares && effective != [], gap.lo;
      if compare {
        var overlap := Overlap(effective, gap, step, boundary);
        if overlap.lo < gap.lo { start := overlap.lo; }
        compare := start < gap.lo;
        OverlapStart(effective, gap, step, boundary);
      }
      FetchStart(start, gap, step);
      if compares && effective != [] { StartMeans(start, effective, gap, step, boundary); }
    }

    /** Storing the reply for a gap, what was held of the overlap having been read
        before; the key is dropped if history proves rewritten. */
    method StoreReply(k: Key, gap: Range, compares: bool, effective: seq<Range>, rows: seq<Row>, wire: Range,
                      compare: bool, start: int, step: int, boundary: int, ghost final: History, ghost seen: seq<Row>)
      returns (r: Step)
      requires Valid() && k in store.keys && widths(k.interval) == Some(step) && On(boundary, step)
      requires On(wire.lo, step) && On(wire.hi, step) && wire.lo <= wire.hi
      requires TrueRows(rows, k, final, step, boundary)
      requires CompleteRows(rows, k, final, step, boundary, wire.lo / DAY, wire.hi / DAY)
      requires forall t :: On(t, step) && gap.lo <= t <= gap.hi ==> In(t, wire)
      requires start == if compares && effective != [] && Overlap(effective, gap, step, boundary).lo < gap.lo
                        then Overlap(effective, gap, step, boundary).lo else gap.lo
      requires compare <==> compares && effective != [] && start < gap.lo
      modifies store`bars, store`cov, store`lru, store`torn, store`faults
      ensures Valid()
      ensures Others(old(store.Db()), store.Db(), old(store.torn), store.torn, store.keys, k)
      ensures Kept(old(store.Db()), store.Db(), old(store.torn), store.torn, k, final, step, boundary)
      ensures Tears(store.Db(), old(store.torn), store.torn, old(store.faults), store.faults)
      ensures Went(old(store.faults), store.faults, r != Raised)
      ensures r == Filled ==>
        store.torn == old(store.torn) && store.Db() == Stored(old(store.Db()), k, rows, wire, boundary)
      ensures r == Rewritten ==> compares && Gone(store.Db(), k) && store.torn == old(store.torn) - {k}
      ensures r == Filled && Good(old(store.Db()), k, final, step, boundary) ==>
        && Fresh(store.Db(), k, gap, final, step, boundary)
        && (forall x :: Fresh(old(store.Db()), k, x, final, step, boundary) ==>
            Fresh(store.Db(), k, x, final, step, boundary))
      ensures r == Filled && Latest(old(store.Db()), k, seen) ==> Latest(store.Db(), k, seen + rows)
      ensures r != Raised ==>
        (r == Rewritten <==> Alarm(old(store.Db()), k, gap, compares, effective, rows, step, boundary))
    {
      hide On, Good, Fresh, Latest, TrueRows, CompleteRows, Gone, SameEntry, Dropped, AdjustedHistoryChanged, Shapes,
           BarsOf, CoverageOf, Others, Stored, Overlap, Alarm, Tears;
      OthersRefl(store.Db(), store.torn, store.keys, k);
      TearsNot(store.torn);
      var ok, cached := true, map[];
      if compare {
        ok, cached := store.ReadBars(k, start, Overlap(effective, gap, step, boundary).hi);
        if !ok { return Raised; }
        assert cached == Clip(BarsOf(store.Db(), k), Range(start, Overlap(effective, gap, step, boundary).hi));
      }
      AlarmIs(store.Db(), k, gap, compares, effective, rows, step, boundary, compare, start, cached);
      ok := StoreGap(k, rows, wire, step, boundary, final, seen);
      if !ok { return Raised; }
      if compare && AdjustedHistoryChanged(cached, rows) {
        ghost var db1, torn1, faults1 := store.Db(), store.torn, store.faults;
        r := DropRewritten(k, step, boundary, final);
        OthersTrans(old(store.Db()), db1, store.Db(), old(store.torn), torn1, store.torn, store.keys, k);
        TearsAfter(store.Db(), old(store.torn), torn1, store.torn, old(store.faults), faults1, store.faults);
        return;
      }
      if Good(old(store.Db()), k, final, step, boundary) { FreshPart(store.Db(), k, wire, gap, final, step, boundary); }
      return Filled;
    }

    /** Fetch one gap and store it. The last gap before the tail of coverage is
        fetched from a few bars further back, and bars already held there are
        compared with the fresh ones; a difference drops the key. */
    method FillGap(k: Key, gap: Range, last: bool, effective: seq<Range>, step: int, boundary: int, up: Upstream,
                   backstop: bool, call: Call, ghost final: History, ghost from: nat) returns (r: Step)
      requires Valid() && k in store.keys && widths(k.interval) == Some(step)
      requires On(boundary, step) && Honest(up, k, final, step, boundary) && Shape(effective, step)
      requires Floor(gap.lo, step) <= gap.hi && (step == DAY ==> On(gap.lo, step) && On(gap.hi, step))
      requires CallOk(call.rows, call.ranges, call.gapsFetched, k, final, step, boundary) && from <= |call.rows|
      modifies this`calls, this`asked, store`bars, store`cov, store`lru, store`torn, call`rows, call`ranges,
               call`gapsFetched, store`faults
      ensures Valid() && old(call.rows) <= call.rows
      ensures CallOk(call.rows, call.ranges, call.gapsFetched, k, final, step, boundary)
      ensures Others(old(store.Db()), store.Db(), old(store.torn), store.torn, store.keys, k)
      ensures r == Filled ==> store.torn == old(store.torn)
      ensures calls == old(calls) + 1
      ensures call.gapsFetched == old(call.gapsFetched) + 1
              || (r == Raised && call.gapsFetched == old(call.gapsFetched))
      ensures r == Rewritten ==> backstop && Gone(store.Db(), k) && store.torn == old(store.torn) - {k}
      ensures Kept(old(store.Db()), store.Db(), old(store.torn), store.torn, k, final, step, boundary)
      ensures Tears(store.Db(), old(store.torn), store.torn, old(store.faults), store.faults)
      ensures r == Filled && Good(old(store.Db()), k, final, step, boundary) ==>
        && Fresh(store.Db(), k, gap, final, step, boundary)
        && (forall x :: Fresh(old(store.Db()), k, x, final, step, boundary) ==>
            Fresh(store.Db(), k, x, final, step, boundary))
      ensures r == Filled && Latest(old(store.Db()), k, old(call.rows)[from..]) ==>
        Latest(store.Db(), k, call.rows[from..])
      ensures r == Filled ==>
        AskedOnce(old(call.ranges), call.ranges, old(call.rows), call.rows, gap, step, up, k, old(calls))
      ensures r != Raised ==> asked == old(asked) + call.ranges[|old(call.ranges)|..] && old(call.ranges) <= call.ranges
      ensures r == Filled ==> CoversMore(old(store.Db()), store.Db(), k, [gap], step, boundary)
      ensures Grew(up, k, old(asked), asked, old(call.ranges), call.ranges, old(call.rows), call.rows)
      ensures Blames(old(store.faults), store.faults, up, k, old(asked), asked, r == Raised)
      ensures r == Filled ==>
        BarsOf(store.Db(), k) == Upsert(BarsOf(old(store.Db()), k), call.rows[|old(call.rows)|..])
      // the key is dropped exactly if upstream no longer has a bar held just before the gap
      ensures r != Raised ==>
        (r == Rewritten <==>
         backstop && last && Noticed(BarsOf(old(store.Db()), k), [], k, gap, effective, final, step, boundary))
    {
      hide On, Good, Fresh, Latest, Honest, TrueRows, CompleteRows, Gone, Shape, SameEntry, Dropped,
           AdjustedHistoryChanged, Floor, DayRange, CallOk, Shapes, BarsOf, CoverageOf, Others, AskedOnce, CoversMore,
           Stored, Overlap, Alarm, Tears, Grew, Noticed, Upsert, ComparesFrom;
      OthersRefl(store.Db(), store.torn, store.keys, k);
      TearsNot(store.torn);
      var compare, fetchStart := FetchFrom(gap, backstop && last, effective, step, boundary);
      var wire := DayRange(fetchStart, gap.hi, step);
      var ok, rows := Fetch(k, wire, up, call);
      GrewOne(up, k, old(asked), wire, old(call.ranges), call.ranges, old(call.rows), call.rows);
      if !ok {
        RefusedNow(up, k, old(asked), wire, store.faults);
        return Raised;
      }
      FetchedRows(up, k, old(calls), wire, rows, final, step, boundary);
      CallGrows(old(call.rows), old(call.ranges), old(call.gapsFetched), rows, wire, k, final, step, boundary);
      assert call.rows[|old(call.rows)|..] == rows;
      StoredCovers(store.Db(), k, rows, wire, gap, step, boundary);
      AskedWire(old(call.ranges), old(call.rows), rows, wire, gap, step, up, k, old(calls));
      assert call.rows[from..] == old(call.rows)[from..] + rows;
      StoredBars(store.Db(), k, rows, wire, boundary);
      if backstop && last {
        OverlapFetched(effective, gap, wire, fetchStart, step, boundary);
        AlarmMeans(store.Db(), k, gap, effective, rows, wire, final, step, boundary);
      } else {
        NoAlarm(store.Db(), k, gap, effective, rows, step, boundary);
      }
      r := StoreReply(k, gap, backstop && last, effective, rows, wire, compare, fetchStart, step, boundary, final,
                      old(call.rows)[from..]);
    }

    /** Record the access, make room, and read the window back. */
    method Serve(k: Key, window: Range) returns (r: PassEnd, ghost evicted: bool)
      requires Valid() && k in store.keys
      modifies store`bars, store`cov, store`lru, store`clock, store`torn, store`readings, store`faults
      ensures Valid() && !r.Restart? && Went(old(store.faults), store.faults, r.Served?)
      ensures KeptGood(old(store.Db()), store.Db(), old(store.torn), store.torn, store.keys)
      ensures r.Served? && !evicted ==> r.rows == Clip(BarsOf(old(store.Db()), k), window)
      ensures r.Served? && !evicted ==> CoverageOf(store.Db(), k) == CoverageOf(old(store.Db()), k)
      ensures r.Served? && evicted ==> r.rows == map[] && store.lru == map[]
      ensures r.Served? ==> Roomy(old(store.readings), store.readings, budget, store.lru, evicted)
      ensures old(store.readings) <= store.readings
      ensures Tears(store.Db(), old(store.torn), store.torn, old(store.faults), store.faults)
      ensures r.Served? && !evicted ==>
        k in store.lru && forall o :: o in store.lru && o != k ==> store.lru[o] < store.lru[k]
    {
      hide On, Good, BarsOf, CoverageOf, Shapes, EvictedDb, EachWholeOrGone, KeptGood, Gone, IsAccessOrder, TableName,
           EvictedNames;
      ghost var db := store.Db();
      evicted := false;
      var ok := store.Touch(k);
      ghost var touched := store.Db();
      AfterTouch(db, touched, k, old(store.clock), store.torn, store.keys, widths);
      if !ok { return Fault, false; }
      ghost var order, heaps, lru := [], [], store.lru;
      var names;
      ghost var n, done;
      ok, names, order, heaps, n, done := store.EvictUntilBelow(budget);
      AfterEvict(touched, store.Db(), old(store.torn), store.torn, store.keys, widths);
      KeptTrans(db, touched, store.Db(), old(store.torn), old(store.torn), store.torn, store.keys);
      if !ok { return Fault, false; }
      evicted := k in order[..n];
      EvictedKey(touched, store.keys, order, n, k);
      EvictedLru(touched, order, n);
      if n == |order| { AllEvicted(touched, order); }
      var rows;
      ok, rows := store.ReadBars(k, window.lo, window.hi);
      if !ok { return Fault, evicted; }
      assert rows == Clip(BarsOf(store.Db(), k), window);
      return Served(rows), evicted;
    }

    /** Fill the gaps in order; only the last one may be widened to compare. */
    method FillGaps(k: Key, gaps: seq<Range>, effective: seq<Range>, step: int, boundary: int, up: Upstream,
                    backstop: bool, call: Call, ghost final: History, ghost from: nat) returns (r: Step)
      requires Valid() && k in store.keys && widths(k.interval) == Some(step)
      requires On(boundary, step) && Honest(up, k, final, step, boundary) && Shape(effective, step)
      requires forall j :: 0 <= j < |gaps| ==>
        Floor(gaps[j].lo, step) <= gaps[j].hi && (step == DAY ==> On(gaps[j].lo, step) && On(gaps[j].hi, step))
      requires CallOk(call.rows, call.ranges, call.gapsFetched, k, final, step, boundary) && from <= |call.rows|
      requires Latest(store.Db(), k, call.rows[from..])
      modifies this`calls, this`asked, store`bars, store`cov, store`lru, store`torn, call`rows, call`ranges,
               call`gapsFetched, store`faults
      ensures Valid() && old(call.rows) <= call.rows
      ensures CallOk(call.rows, call.ranges, call.gapsFetched, k, final, step, boundary)
      ensures Counted(old(calls), calls, old(call.gapsFetched), call.gapsFetched, r == Raised)
      ensures r == Filled ==> calls == old(calls) + |gaps|
      ensures Others(old(store.Db()), store.Db(), old(store.torn), store.torn, store.keys, k)
      ensures r == Filled ==> store.torn == old(store.torn) && Latest(store.Db(), k, call.rows[from..])
      ensures r == Rewritten ==> backstop && Gone(store.Db(), k) && store.torn == old(store.torn) - {k}
      ensures Kept(old(store.Db()), store.Db(), old(store.torn), store.torn, k, final, step, boundary)
      ensures Tears(store.Db(), old(store.torn), store.torn, old(store.faults), store.faults)
      ensures r == Filled && k !in old(store.torn) && Good(old(store.Db()), k, final, step, boundary) ==>
        && (forall x :: Fresh(old(store.Db()), k, x, final, step, boundary) ==>
            Fresh(store.Db(), k, x, final, step, boundary))
        && (forall j :: 0 <= j < |gaps| ==> Fresh(store.Db(), k, gaps[j], final, step, boundary))
      ensures r == Filled ==>
        AskedAll(old(call.ranges), call.ranges, old(call.rows), call.rows, gaps, step, up, k, old(calls))
      ensures r == Filled ==> CoversMore(old(store.Db()), store.Db(), k, gaps, step, boundary)
      ensures r == Filled ==> asked == old(asked) + call.ranges[|old(call.ranges)|..]
      ensures gaps == [] ==> r == Filled
      ensures r != Raised ==> |asked| == |old(asked)| + |gaps|
      ensures r != Raised ==>
        (r == Rewritten <==> backstop && Rewrote(BarsOf(old(store.Db()), k), up, k, old(asked), asked, gaps, effective,
                                                 final, step, boundary))
      ensures Grew(up, k, old(asked), asked, old(call.ranges), call.ranges, old(call.rows), call.rows)
      ensures Blames(old(store.faults), store.faults, up, k, old(asked), asked, r == Raised)
    {
      hide On, Good, Fresh, Latest, Honest, Gone, Shape, Floor, CallOk, Shapes, BarsOf, CoverageOf, Others, AskedOnce,
           AskedAll, CoversMore, Grew, Noticed, Rewrote, Upsert, TrueRows;
      UpsertNothing(BarsOf(store.Db(), k));
      assert call.rows[|call.rows|..] == [];
      ghost var db, torn := store.Db(), store.torn;
      OthersRefl(db, torn, store.keys, k);
      AskedNone(call.ranges, call.rows, gaps, step, up, k, calls);
      CoversNone(db, k, gaps, step, boundary);
      GrewNot(up, k, asked, call.ranges, call.rows);
      var i := 0;
      while i < |gaps|
        invariant 0 <= i <= |gaps| && Valid() && old(call.rows) <= call.rows && store.torn == torn
        invariant CallOk(call.rows, call.ranges, call.gapsFetched, k, final, step, boundary)
        invariant calls == old(calls) + i && call.gapsFetched == old(call.gapsFetched) + i
        invariant Others(db, store.Db(), torn, store.torn, store.keys, k)
        invariant Latest(store.Db(), k, call.rows[from..])
        invariant Kept(db, store.Db(), torn, torn, k, final, step, boundary)
        invariant k !in torn && Good(db, k, final, step, boundary) ==>
          && (forall x :: Fresh(db, k, x, final, step, boundary) ==> Fresh(store.Db(), k, x, final, step, boundary))
          && (forall j :: 0 <= j < i ==> Fresh(store.Db(), k, gaps[j], final, step, boundary))
        invariant AskedAll(old(call.ranges), call.ranges, old(call.rows), call.rows, gaps[..i], step, up, k, old(calls))
        invariant CoversMore(db, store.Db(), k, gaps[..i], step, boundary)
        invariant Grew(up, k, old(asked), asked, old(call.ranges), call.ranges, old(call.rows), call.rows)
        invariant Blames(old(store.faults), store.faults, up, k, old(asked), asked, false)
        invariant old(call.ranges) <= call.ranges && asked == old(asked) + call.ranges[|old(call.ranges)|..]
        invariant |asked| == |old(asked)| + i
        invariant BarsOf(store.Db(), k) == Upsert(BarsOf(db, k), call.rows[|old(call.rows)|..])
        invariant i == |gaps| && i > 0 && backstop ==>
          !Rewrote(BarsOf(db, k), up, k, old(asked), asked, gaps, effective, final, step, boundary)
      {
        ghost var db1, ranges1, rows1 := store.Db(), call.ranges, call.rows;
        ghost var faults1, asked1 := store.faults, asked;
        CallTrue(call.rows, call.ranges, call.gapsFetched, k, final, step, boundary);
        r := FillGap(k, gaps[i], i == |gaps| - 1, effective, step, boundary, up, backstop, call, final, from);
        OthersTrans(db, db1, store.Db(), torn, torn, store.torn, store.keys, k);
        BlamesNext(old(store.faults), faults1, store.faults, up, k, old(asked), asked1, asked, r == Raised);
        TearsAfter(store.Db(), torn, torn, store.torn, old(store.faults), faults1, store.faults);
        GrewNext(up, k, old(asked), asked1, asked, old(call.ranges), ranges1, call.ranges, old(call.rows), rows1,
                 call.rows);
        if r != Raised {
          RewroteNow(BarsOf(db, k), BarsOf(db1, k), up, k, old(asked), asked1, asked, old(call.ranges), ranges1,
                     old(call.rows), rows1, gaps, i, effective, final, step, boundary);
        }
        if r != Filled { return; }
        UpsertMore(BarsOf(db, k), old(call.rows), rows1, call.rows);
        AskedNext(old(call.ranges), ranges1, call.ranges, old(call.rows), rows1, call.rows, gaps, i, step, up, k,
                  old(calls));
        CoversNext(db, db1, store.Db(), k, gaps, i, step, boundary);
        i := i + 1;
      }
      assert gaps[..i] == gaps;
      RewroteNothing(BarsOf(db, k), up, k, old(asked), asked, gaps, effective, final, step, boundary);
      r := Filled;
    }

    /** What of the window has to be fetched. */
    method FindGaps(k: Key, window: Range, step: int, boundary: int)
      returns (ok: bool, effective: seq<Range>, gaps: seq<Range>)
      requires Valid() && k in store.keys && widths(k.interval) == Some(step) && On(boundary, step)
      modifies store`faults
      ensures Valid() && store.Db() == old(store.Db()) && Went(old(store.faults), store.faults, ok)
      ensures ok ==> Planned(store.Db(), k, window, effective, gaps, step, boundary)
    {
      hide On, Gaps, Shapes, CoverageOf, SameStamps, Floor, Effective, TrimAll, Edges;
      effective, gaps := [], [];
      var covered;
      ok, covered := store.ReadCoverage(k);
      if !ok { return; }
      CoverageShape(store.Db(), store.keys, widths, k);
      covered := Coalesce(covered, step);
      effective := TrimAll(covered, boundary);
      EffectiveMeans(covered, store.Db(), k, step, boundary);
      EffectiveShape(effective, store.Db(), k, step, boundary);
      gaps := Subtract(window, effective, step);
      GapShape(gaps, window, effective, step);
    }

    /** One read-through attempt. */
    method Pass(k: Key, window: Range, step: int, boundary: int, up: Upstream, backstop: bool, call: Call,
                ghost final: History)
      returns (r: PassEnd, ghost evicted: bool, ghost effective: seq<Range>, ghost gaps: seq<Range>)
      requires Valid() && k in store.keys && widths(k.interval) == Some(step)
      requires On(boundary, step) && Honest(up, k, final, step, boundary)
      requires step == DAY ==> On(window.lo, step) && On(window.hi, step)
      requires CallOk(call.rows, call.ranges, call.gapsFetched, k, final, step, boundary)
      modifies this`calls, this`asked, store`bars, store`cov, store`lru, store`clock, store`torn, store`readings,
               store`faults
      modifies call`rows, call`ranges, call`gapsFetched, call`status
      ensures Valid() && old(call.rows) <= call.rows
      ensures CallOk(call.rows, call.ranges, call.gapsFetched, k, final, step, boundary)
      ensures Counted(old(calls), calls, old(call.gapsFetched), call.gapsFetched, r.Fault?)
      ensures KeptOthers(old(store.Db()), store.Db(), old(store.torn), store.torn, store.keys, k)
      ensures r.Restart? ==> backstop && Gone(store.Db(), k) && store.torn == old(store.torn) - {k}
      ensures r.Restart? ==> store.readings == old(store.readings)
      // unless something fails, it starts over exactly if upstream no longer has a bar held before the last gap
      ensures !r.Fault? ==> Planned(old(store.Db()), k, window, effective, gaps, step, boundary)
      ensures !r.Fault? ==> |asked| == |old(asked)| + |gaps|
      ensures !r.Fault? ==>
        (r.Restart? <==>
         backstop && Rewrote(BarsOf(old(store.Db()), k), up, k, old(asked), asked, gaps, effective, final, step,
                             boundary))
      ensures old(store.readings) <= store.readings
      ensures Kept(old(store.Db()), store.Db(), old(store.torn), store.torn, k, final, step, boundary)
      ensures Tears(store.Db(), old(store.torn), store.torn, old(store.faults), store.faults)
      ensures r.Served? ==> call.status != Bypass && (call.status == Hit <==> calls == old(calls))
      ensures r.Served? && !evicted ==> Holds(store.Db(), k, window, step, boundary)
      ensures r.Served? ==> Roomy(old(store.readings), store.readings, budget, store.lru, evicted)
      ensures Blames(old(store.faults), store.faults, up, k, old(asked), asked, r.Fault?)
      ensures Grew(up, k, old(asked), asked, old(call.ranges), call.ranges, old(call.rows), call.rows)
      ensures Remembered(old(store.Db()), k, window, step, boundary) ==> calls == old(calls) && !r.Restart?
      ensures r.Served? && evicted ==> r.rows == map[] && store.lru == map[]
      ensures r.Served? ==> TailAsked(asked[|old(asked)|..], window, step, boundary)
      ensures r.Served? ==> call.rows[|old(call.rows)|..] == Replied(up, k, |old(asked)|, asked[|old(asked)|..])
      ensures r.Served? && !evicted ==> Newest(r.rows, window, call.rows[|old(call.rows)|..])
      ensures r.Served? && !evicted && k !in old(store.torn) && Good(old(store.Db()), k, final, step, boundary) ==>
        Exact(r.rows, k, window, final, step, boundary)
    {
      hide On, Good, Fresh, Latest, Honest, Gone, Shape, Floor, CallOk, Shapes, BarsOf, CoverageOf, Others, KeptGood,
           KeptOthers, Exact, Newest, Clip, Planned, AskedAll, TailAsked, Replied, CoversMore, Holds, Remembered, Tears,
           Grew, Rewrote;
      evicted, effective, gaps := false, [], [];
      ghost var db, torn, from := store.Db(), store.torn, |call.rows|;
      OthersRefl(db, torn, store.keys, k);
      OthersKept(db, db, torn, torn, store.keys, k);
      TearsNot(torn);
      GrewNot(up, k, asked, call.ranges, call.rows);
      var ok, covered, missing := FindGaps(k, window, step, boundary);
      effective, gaps := covered, missing;
      if !ok { return Fault, false, effective, gaps; }
      PlannedGaps(db, k, window, effective, gaps, step, boundary);
      call.status := if missing == [] then Hit else if covered != [] then Partial else Miss;
      LatestNothing(db, k, call.rows, from);
      var filled := FillGaps(k, missing, covered, step, boundary, up, backstop, call, final, from);
      OthersKept(db, store.Db(), torn, store.torn, store.keys, k);
      if filled == Raised { return Fault, false, effective, gaps; }
      if filled == Rewritten { return Restart, false, effective, gaps; }
      ghost var full, faults1 := store.Db(), store.faults;
      AfterFill(db, full, k, window, effective, gaps, old(call.ranges), call.ranges, old(call.rows), call.rows,
                k !in torn && Good(db, k, final, step, boundary), final, step, boundary, up, old(calls));
      assert asked[|old(asked)|..] == call.ranges[|old(call.ranges)|..];
      r, evicted := Serve(k, window);
      BlamesAfter(old(store.faults), faults1, store.faults, up, k, old(asked), asked, r.Served?);
      TearsAfter(store.Db(), torn, torn, store.torn, old(store.faults), faults1, store.faults);
      KeptAll(db, full, store.Db(), torn, store.torn, store.keys, k, final, step, boundary);
      if r.Served? && !evicted { HeldStill(full, store.Db(), k, window, step, boundary); }
    }

    /** Serve the request straight from upstream, asking only for what this
        call has not fetched yet. */
    method BypassStore(k: Key, window: Range, width: Option<int>, up: Upstream, call: Call, ghost final: History,
                       ghost boundary: int)
      returns (ok: bool, rows: Bars)
      requires width.Some? ==> GridWidth(width.value) && Honest(up, k, final, width.value, boundary)
                               && CallOk(call.rows, call.ranges, call.gapsFetched, k, final, width.value, boundary)
      requires width.None? ==> call.rows == [] && call.ranges == [] && call.gapsFetched == 0
      requires calls == |asked|
      ensures calls == |asked|
      modifies this`calls, this`asked, call
      ensures Counted(old(calls), calls, old(call.gapsFetched), call.gapsFetched, !ok)
      ensures old(asked) <= asked && (!ok ==> Refused(up, k, old(asked), asked))
      ensures ok ==> call.status == Bypass && call.fromCache == 0 && call.fromUpstream == |rows|
      ensures ok ==> rows == Dedupe(call.rows) && call.gapsFetched == |call.ranges|
      ensures ok && width.Some? ==> AllFetched(rows, k, window, final, width.value, boundary)
      ensures ok && width.Some? ==> WindowAsked(call.ranges, window, width.value)
      ensures Grew(up, k, old(asked), asked, old(call.ranges), call.ranges, old(call.rows), call.rows)
      ensures width.Some? ==> NothingTwice(old(call.ranges), call.ranges, width.value)
      ensures ok && width.None? ==>
        && asked == old(asked) + [window] && call.rows == Replied(up, k, |old(asked)|, [window])
        && call.gapsFetched == 1 && up(k, |old(asked)|, window.lo / DAY, window.hi / DAY).Rows?
    {
      hide On, Honest, TrueRows, CompleteRows, LogOk, Covered, AllFetched, NothingTwice, Dedupe, Disjoint, Refused,
           Replied, AskedSoFar, Grew, WindowAsked, Gaps;
      var remaining;
      if width.Some? {
        CallMeans(call.rows, call.ranges, call.gapsFetched, k, final, width.value, boundary);
        remaining := Subtract(window, call.ranges, width.value);
        NothingYet(call.ranges, remaining, window, width.value);
      } else {
        remaining := if call.ranges != [] then [] else [window];
      }
      ghost var ranges := call.ranges;
      AskedNothing(asked, call.rows, remaining, up, k);
      GrewNot(up, k, asked, call.ranges, call.rows);
      var i := 0;
      while i < |remaining|
        invariant 0 <= i <= |remaining|
        invariant Counted(old(calls), calls, old(call.gapsFetched), call.gapsFetched, false)
        invariant call.ranges == ranges + remaining[..i] && call.gapsFetched == |call.ranges|
        invariant Grew(up, k, old(asked), asked, old(call.ranges), call.ranges, old(call.rows), call.rows)
        invariant calls == |asked| && AskedSoFar(old(asked), asked, old(call.rows), call.rows, remaining, i, up, k)
        invariant width.Some? ==> LogOk(call.rows, call.ranges, k, final, width.value, boundary)
        invariant width.Some? ==> NothingTwice(ranges, call.ranges, width.value)
      {
        ghost var rows0, ranges0, asked0 := call.rows, call.ranges, asked;
        var got;
        ok, got := Fetch(k, remaining[i], up, call);
        GrewOne(up, k, asked0, remaining[i], ranges0, call.ranges, rows0, call.rows);
        GrewNext(up, k, old(asked), asked0, asked, old(call.ranges), ranges0, call.ranges, old(call.rows), rows0,
                 call.rows);
        if !ok {
          AskedRefused(old(asked), asked0, old(call.rows), rows0, remaining, i, up, k);
          return false, map[];
        }
        AskedMore(old(asked), asked0, old(call.rows), rows0, remaining, i, up, k, got);
        if width.Some? {
          FetchedRows(up, k, |asked0|, remaining[i], got, final, width.value, boundary);
          LogGrows(rows0, ranges0, got, remaining[i], k, final, width.value, boundary);
          NothingNext(ranges, remaining, i, window, width.value);
        }
        assert remaining[..i + 1] == remaining[..i] + [remaining[i]];
        assert call.ranges == ranges + remaining[..i + 1];
        i := i + 1;
      }
      assert remaining[..i] == remaining;
      AskedMeans(old(asked), asked, old(call.rows), call.rows, remaining, up, k);
      assert width.None? ==> remaining == [window] && old(call.rows) == [];
      rows := Dedupe(call.rows);
      if width.Some? {
        BypassRows(call.rows, ranges, remaining, window, k, final, width.value, boundary);
        BypassAsks(ranges, remaining, window, width.value);
      }
      call.status, call.fromUpstream, call.fromCache := Bypass, |rows|, 0;
      ok := true;
    }

    /** Split the served rows into those this call fetched and those it did not. */
    method AttributeRows(rows: Bars, call: Call)
      modifies call`fromCache, call`fromUpstream
      ensures call.fromUpstream == |set t | t in rows && HasStamp(call.rows, t)|
      ensures call.fromCache == |set t | t in rows && !HasStamp(call.rows, t)|
    {
      var fetched := set t | t in rows && HasStamp(call.rows, t);
      var held := set t | t in rows && !HasStamp(call.rows, t);
      assert fetched + held == rows.Keys && fetched !! held;
      call.fromUpstream := |fetched|;
      call.fromCache := |rows| - |fetched|;
    }

    /** A pass, and after rewritten history a second one, which starts from nothing. */
    method ReadThrough(k: Key, window: Range, step: int, boundary: int, up: Upstream, call: Call, ghost final: History)
      returns (r: PassEnd, ghost evicted: bool, ghost rewritten: bool, ghost first: nat, ghost effective: seq<Range>,
               ghost gaps: seq<Range>)
      requires Valid() && k in store.keys && widths(k.interval) == Some(step)
      requires On(boundary, step) && Honest(up, k, final, step, boundary)
      requires step == DAY ==> On(window.lo, step) && On(window.hi, step)
      requires CallOk(call.rows, call.ranges, call.gapsFetched, k, final, step, boundary)
      modifies this`calls, this`asked, store`bars, store`cov, store`lru, store`clock, store`torn, store`readings,
               store`faults
      modifies call`rows, call`ranges, call`gapsFetched, call`status
      ensures Valid() && !r.Restart?
      ensures CallOk(call.rows, call.ranges, call.gapsFetched, k, final, step, boundary)
      ensures Counted(old(calls), calls, old(call.gapsFetched), call.gapsFetched, r.Fault?)
      ensures KeptOthers(old(store.Db()), store.Db(), old(store.torn), store.torn, store.keys, k)
      ensures Kept(old(store.Db()), store.Db(), old(store.torn), store.torn, k, final, step, boundary)
      ensures Tears(store.Db(), old(store.torn), store.torn, old(store.faults), store.faults)
      ensures Blames(old(store.faults), store.faults, up, k, old(asked), asked, r.Fault?)
      ensures Grew(up, k, old(asked), asked, old(call.ranges), call.ranges, old(call.rows), call.rows)
      ensures old(store.readings) <= store.readings
      ensures r.Served? ==>
        && call.status != Bypass && (call.status == Hit && !rewritten ==> calls == old(calls))
        && Roomy(old(store.readings), store.readings, budget, store.lru, evicted)
        && |old(asked)| <= first <= |asked| && TailAsked(asked[first..], window, step, boundary)
      ensures r.Served? && evicted ==> r.rows == map[] && store.lru == map[]
      ensures r.Served? && !evicted ==>
        Holds(store.Db(), k, window, step, boundary) && Newest(r.rows, window, Replied(up, k, first, asked[first..]))
      ensures r.Served? && !evicted
              && (rewritten || (k !in old(store.torn) && Good(old(store.Db()), k, final, step, boundary))) ==>
        Exact(r.rows, k, window, final, step, boundary)
      ensures Remembered(old(store.Db()), k, window, step, boundary) ==> calls == old(calls) && !rewritten
      ensures r.Served? ==> Planned(old(store.Db()), k, window, effective, gaps, step, boundary)
      ensures r.Served? ==>
        (rewritten <==> Rewrote(BarsOf(old(store.Db()), k), up, k, old(asked), asked, gaps, effective, final, step,
                                boundary))
    {
      hide On, Good, Honest, Gone, CallOk, Shapes, KeptOthers, Exact, Newest, TailAsked, Replied, Holds, Remembered,
           Refused, Tears, Roomy, Grew, Planned, Rewrote;
      ghost var db, torn := store.Db(), store.torn;
      rewritten, first := false, calls;
      r, evicted, effective, gaps := Pass(k, window, step, boundary, up, true, call, final);
      if r.Restart? {
        rewritten, first := true, calls;
        ghost var db1, torn1, faults1, asked1 := store.Db(), store.torn, store.faults, asked;
        ghost var ranges1, rows1 := call.ranges, call.rows;
        GoneIsGood(db1, k, final, step, boundary);
        ghost var covered, missing;
        r, evicted, covered, missing := Pass(k, window, step, boundary, up, false, call, final);
        KeptOthersTrans(db, db1, store.Db(), torn, torn1, store.torn, store.keys, k);
        TearsAfter(store.Db(), torn, torn1, store.torn, old(store.faults), faults1, store.faults);
        BlamesNext(old(store.faults), faults1, store.faults, up, k, old(asked), asked1, asked, r.Fault?);
        GrewNext(up, k, old(asked), asked1, asked, old(call.ranges), ranges1, call.ranges, old(call.rows), rows1,
                 call.rows);
        if r.Served? {
          assert old(asked) <= asked1 <= asked;
          RewroteStill(BarsOf(db, k), up, k, old(asked), asked1, asked, gaps, effective, final, step, boundary);
        }
      }
    }

    /** Rows and metadata for the window, or the provider's own failure. */
    method Get(k: Key, window: Range, now: int, up: Upstream, ghost final: History)
      returns (reply: Reply, ghost evicted: bool, ghost rewritten: bool, ghost first: nat, ghost effective: seq<Range>,
               ghost gaps: seq<Range>)
      requires Valid() && k in store.keys
      requires WellAsked(k, window, now, up, final, widths)
      modifies this`calls, this`asked, store`bars, store`cov, store`lru, store`clock, store`torn, store`readings,
               store`faults
      ensures Valid()
      ensures KeptOthers(old(store.Db()), store.Db(), old(store.torn), store.torn, store.keys, k)
      ensures widths(k.interval).Some? ==>
        var step := widths(k.interval).value;
        var boundary := LastCompleteBoundary(step, now);
        // what the store promises of the key survives the call, whatever fails in it
        && Kept(old(store.Db()), store.Db(), old(store.torn), store.torn, k, final, step, boundary)
        // a served answer is upstream's; after a rewrite it owes nothing to what was held
        && (reply.Answer? && reply.status != Bypass && !evicted
            && (rewritten || (k !in old(store.torn) && Good(old(store.Db()), k, final, step, boundary))) ==>
              Exact(reply.rows, k, window, final, step, boundary))
        // and it starts over exactly if upstream no longer has what was held before the last gap
        && (reply.Answer? && reply.status != Bypass ==>
            && Planned(old(store.Db()), k, window, effective, gaps, step, boundary)
            && (rewritten <==>
                Rewrote(BarsOf(old(store.Db()), k), up, k, old(asked), asked, gaps, effective, final, step,
                                       boundary)))
        // what was served is remembered, as far as it is complete ...
        && (reply.Answer? && reply.status != Bypass && !evicted ==> Holds(store.Db(), k, window, step, boundary))
        // ... and a window of whole completed bars that is remembered costs no call
        && (Remembered(old(store.Db()), k, window, step, boundary) && reply.Answer? && reply.status != Bypass ==>
              calls == old(calls) && !rewritten)
        // bars still forming were asked for just now, and what came is served
        && (reply.Answer? && reply.status != Bypass ==>
              |old(asked)| <= first <= |asked| && TailAsked(asked[first..], window, step, boundary))
        && (reply.Answer? && reply.status != Bypass && !evicted ==>
            Newest(reply.rows, window, Replied(up, k, first, asked[first..])))
        // a bypassed answer holds every completed upstream bar of the window
        && (reply.Answer? && reply.status == Bypass ==>
              && AllFetched(reply.rows, k, window, final, step, boundary)
              && Bypassed(window, up, k, old(asked), asked, reply, step))
      // nobody is bypassed for nothing, and only the provider can fail a request
      ensures old(asked) <= asked && old(store.readings) <= store.readings
      ensures reply.Answer? && widths(k.interval).Some? ==>
        Blames(old(store.faults), store.faults, up, k, old(asked), asked, reply.status == Bypass)
      ensures reply.Error? ==>
        Refused(up, k, old(asked), asked) && old(store.faults) <= store.faults <= old(store.faults) + 1
      ensures Tears(store.Db(), old(store.torn), store.torn, old(store.faults), store.faults)
      ensures reply.Answer? && reply.status != Bypass ==>
        store.torn <= old(store.torn) && Roomy(old(store.readings), store.readings, budget, store.lru, evicted)
      ensures reply.Answer? && evicted ==> reply.status != Bypass && reply.rows == map[] && store.lru == map[]
      ensures widths(k.interval).None? ==>
        Now() == old(Now()).(asked := asked) && (reply.Answer? ==> Straight(k, window, up, old(asked), asked, reply))
      ensures reply.Answer? ==> reply.fromCache + reply.fromUpstream == |reply.rows|
      ensures reply.Answer? && reply.status != Bypass ==> reply.gapsFetched == calls - old(calls)
      ensures reply.Answer? && reply.status == Bypass ==> reply.fromCache == 0
      ensures reply.Answer? && reply.status == Hit && !rewritten ==> calls == old(calls)
    {
      hide On, Good, Honest, Gone, CallOk, Shapes, KeptOthers, Exact, Newest, AllFetched, NothingTwice,
           LastCompleteBoundary, Dedupe, TailAsked, Replied, Holds, Remembered, Refused, Tears, Grew, Bypassed,
           WindowAsked, Planned, Rewrote;
      evicted, rewritten, first, effective, gaps := false, false, calls, [], [];
      var call := new Call();
      ghost var db, torn := store.Db(), store.torn;
      KeptRefl(db, torn, store.keys, k);
      TearsNot(torn);
      var width := widths(k.interval);
      var r := Fault;
      if width.Some? {
        var step := width.value;
        var boundary := LastCompleteBoundary(step, now);
        BoundaryMeans(step, now);
        EmptyCallOk(k, final, step, boundary);
        r, evicted, rewritten, first, effective, gaps := ReadThrough(k, window, step, boundary, up, call, final);
      }
      if r.Served? {
        ServedTears(store.Db(), torn, store.torn, old(store.faults), store.faults);
        AttributeRows(r.rows, call);
        CountsAdd(r.rows, call.rows);
        reply := Answer(r.rows, call.status, call.fromCache, call.fromUpstream, call.gapsFetched);
      } else {
        evicted := false;
        ghost var boundary := if width.Some? then LastCompleteBoundary(width.value, now) else 0;
        ghost var asked1, ranges1, rows1 := asked, call.ranges, call.rows;
        var ok, rows := BypassStore(k, window, width, up, call, final, boundary);
        if width.Some? {
          BlamesStill(old(store.faults), store.faults, up, k, old(asked), asked1, asked);
          GrewNext(up, k, old(asked), asked1, asked, [], ranges1, call.ranges, [], rows1, call.rows);
        }
        if !ok { RefusedStill(up, k, old(asked), asked1, asked); }
        reply := if ok then Answer(rows, call.status, call.fromCache, call.fromUpstream, call.gapsFetched) else Error;
        if ok && width.Some? {
          BypassedIntro(window, up, k, old(asked), asked, reply, width.value, call.ranges, call.rows);
        }
      }
    }

    /** One event of a run: it is answered as told, and the promises of all keys
        stand, as of its time, but for those that a drop has torn. */
    method Step(e: Event, ghost final: History, ghost now: int) returns (reply: Reply)
      requires Valid() && AllGood(store.Db(), store.torn, store.keys, widths, final, now)
      requires e.Ask? ==> now <= e.now && e.k in store.keys && WellAsked(e.k, e.window, e.now, e.up, final, widths)
      modifies this`calls, this`asked, store`bars, store`cov, store`lru, store`clock, store`torn, store`readings,
               store`faults
      ensures Valid()
      ensures AllGood(store.Db(), store.torn, store.keys, widths, final, if e.Ask? then e.now else now)
      ensures Told(e, old(Now()), Now(), reply, budget, widths, final)
    {
      hide On, Good, Honest, Shapes, AllGood, KeptOthers, Exact, LastCompleteBoundary, WellAsked, TailAsked, Newest,
           Replied, Holds, Remembered, AllFetched, Tears, Refused, Kept, Live, Straight, Told, Answers, Bypassed;
      match e {
      case Respawn =>
        store.Respawn();
        AllGoodEmpty(store.keys, widths, final, now);
        reply := Error;
        RespawnTold(old(Now()), Now(), budget, widths, final);
      case Ask(k, window, at, up) =>
        AllGoodLater(store.Db(), store.torn, store.keys, widths, final, now, at);
        AllGoodAt(store.Db(), store.torn, store.keys, widths, final, at, k);
        ghost var evicted, rewritten, first, effective, gaps;
        reply, evicted, rewritten, first, effective, gaps := Get(k, window, at, up, final);
        AllGoodStep(old(store.Db()), store.Db(), old(store.torn), store.torn, store.keys, widths, final, at, k);
        if reply.Answer? && widths(k.interval).Some? {
          AnswersIntro(k, window, up, old(Now()), Now(), reply, budget, final, widths(k.interval).value,
                       LastCompleteBoundary(widths(k.interval).value, at), evicted, first);
        }
        AskTold(e, old(Now()), Now(), reply, budget, widths, final);
      }
    }

    /** Any sequence of requests at non-decreasing times and deaths of q,
        whatever fails along the way. `snaps` is what the cache had to show
        before each event and after the last one. */
    method Run(events: seq<Event>, from: int, ghost final: History)
      returns (replies: seq<Reply>, ghost snaps: seq<Snap>)
      requires Valid() && InTime(events, from)
      requires AllGood(store.Db(), store.torn, store.keys, widths, final, from)
      requires forall i :: 0 <= i < |events| && events[i].Ask? ==>
        events[i].k in store.keys
          && WellAsked(events[i].k, events[i].window, events[i].now, events[i].up, final, widths)
      modifies this`calls, this`asked, store`bars, store`cov, store`lru, store`clock, store`torn, store`readings,
               store`faults
      ensures Valid() && Runs(events, snaps, replies, budget, widths, final)
      ensures snaps[0] == old(Now()) && snaps[|events|] == Now()
      ensures forall i :: 0 <= i <= |events| ==>
        AllGood(snaps[i].db, snaps[i].torn, store.keys, widths, final, LastNow(events[..i], from))
    {
      hide On, Good, Shapes, AllGood, Told, WellAsked;
      replies, snaps := [], [Now()];
      ghost var now := from;
      var i := 0;
      while i < |events|
        invariant 0 <= i <= |events| && |replies| == i && |snaps| == i + 1 && Valid()
        invariant snaps[0] == old(Now()) && snaps[i] == Now() && now == LastNow(events[..i], from)
        invariant forall j :: 0 <= j < i ==> Told(events[j], snaps[j], snaps[j + 1], replies[j], budget, widths, final)
        invariant forall j :: 0 <= j <= i ==>
          AllGood(snaps[j].db, snaps[j].torn, store.keys, widths, final, LastNow(events[..j], from))
      {
        LastNowBound(events, i, from);
        var reply := Step(events[i], final, now);
        now := if events[i].Ask? then events[i].now else now;
        replies, snaps := replies + [reply], snaps + [Now()];
        i := i + 1;
      }
    }
  }

  // ---- what a run says ------------------------------------------------

  lemma TearsNot(torn: set<Key>)
    ensures forall db, faults, faults' :: Tears(db, torn, torn, faults, faults')
  {
  }

  lemma ServedTears(db: Tables, torn: set<Key>, torn': set<Key>, faults: nat, faults': nat)
    requires Tears(db, torn, torn', faults, faults')
    ensures faults' == faults ==> torn' <= torn
  {
    hide BarsOf;
  }

  lemma RefusedNow(up: Upstream, k: Key, before: seq<Range>, r: Range, faults: nat)
    requires up(k, |before|, r.lo / DAY, r.hi / DAY).Failed?
    ensures Refused(up, k, before, before + [r]) && Blames(faults, faults, up, k, before, before + [r], true)
  {
    var asked := before + [r];
    assert asked[|before|] == r;
  }

  lemma RefusedStill(up: Upstream, k: Key, a0: seq<Range>, a1: seq<Range>, a2: seq<Range>)
    requires a0 <= a1 && Refused(up, k, a1, a2)
    ensures Refused(up, k, a0, a2)
  {
  }

  lemma RespawnTold(s: Snap, s': Snap, budget: int, widths: Widths, final: History)
    requires WidthsOk(widths) && s' == s.(db := Tables(map[], map[], map[]), torn := {})
    ensures Told(Respawn, s, s', Error, budget, widths, final)
  {
  }

  lemma AnswersIntro(k: Key, window: Range, up: Upstream, s: Snap, s': Snap, reply: Reply, budget: int,
                     final: History, step: int, boundary: int, evicted: bool, first: nat)
    requires reply.Answer? && step > 0 && reply.fromCache + reply.fromUpstream == |reply.rows|
    requires Blames(s.faults, s'.faults, up, k, s.asked, s'.asked, reply.status == Bypass)
    requires reply.status == Bypass ==>
      AllFetched(reply.rows, k, window, final, step, boundary)
        && Bypassed(window, up, k, s.asked, s'.asked, reply, step)
    requires reply.status != Bypass ==>
      && s'.torn <= s.torn && reply.gapsFetched == |s'.asked| - |s.asked|
      && Roomy(s.readings, s'.readings, budget, s'.db.lru, evicted)
      && |s.asked| <= first <= |s'.asked| && TailAsked(s'.asked[first..], window, step, boundary)
    requires evicted ==> reply.rows == map[] && s'.db.lru == map[]
    requires reply.status != Bypass && !evicted ==>
      && Newest(reply.rows, window, Replied(up, k, first, s'.asked[first..])) && Holds(s'.db, k, window, step, boundary)
      && (k !in s.torn ==> Exact(reply.rows, k, window, final, step, boundary))
    ensures Answers(k, window, up, s, s', reply, budget, final, step, boundary)
  {
    hide AllFetched, TailAsked, Newest, Replied, Holds, Exact, Refused, Live, Bypassed;
    if reply.status != Bypass && !evicted {
      LiveIntro(reply.rows, k, window, up, s.asked, s'.asked, step, boundary, first);
    }
  }

  lemma AskTold(e: Event, s: Snap, s': Snap, reply: Reply, budget: int, widths: Widths, final: History)
    requires WidthsOk(widths) && e.Ask?
    requires Tears(s'.db, s.torn, s'.torn, s.faults, s'.faults) && s.faults <= s'.faults <= s.faults + 1
    requires s.readings <= s'.readings && s.asked <= s'.asked
    requires reply.Error? ==> Refused(e.up, e.k, s.asked, s'.asked)
    requires widths(e.k.interval).Some? && reply.Answer? ==>
      var step := widths(e.k.interval).value;
      Answers(e.k, e.window, e.up, s, s', reply, budget, final, step, LastCompleteBoundary(step, e.now))
    requires widths(e.k.interval).None? ==>
      s' == s.(asked := s'.asked) && (reply.Answer? ==> Straight(e.k, e.window, e.up, s.asked, s'.asked, reply))
    ensures Told(e, s, s', reply, budget, widths, final)
  {
    hide Tears, Refused, Answers, Straight, LastCompleteBoundary;
  }

  /** No reply for nothing: whatever is replied, the request has asked the provider,
      or read q's heap, or met a statement that failed. */
  lemma LeavesTrace(e: Event, s: Snap, s': Snap, reply: Reply, budget: int, widths: Widths, final: History)
    requires WidthsOk(widths) && e.Ask? && Told(e, s, s', reply, budget, widths, final)
    ensures |s'.asked| > |s.asked| || |s'.readings| > |s.readings| || s'.faults > s.faults
  {
    hide AllFetched, Live, Exact, Holds, LastCompleteBoundary, Tears;
  }

  ghost predicate Runs(events: seq<Event>, snaps: seq<Snap>, replies: seq<Reply>, budget: int, widths: Widths,
                       final: History)
    requires WidthsOk(widths)
  {
    && |snaps| == |events| + 1 && |replies| == |events|
    && forall i :: 0 <= i < |events| ==> Told(events[i], snaps[i], snaps[i + 1], replies[i], budget, widths, final)
  }

  /** The provider answers whatever it is asked. */
  ghost predicate Reliable(up: Upstream) {
    forall k, n, d0, d1 :: up(k, n, d0, d1).Rows?
  }

  /** Failed statements only add up. */
  lemma {:induction false} FaultsGrow(events: seq<Event>, snaps: seq<Snap>, replies: seq<Reply>, budget: int,
                                      widths: Widths, final: History, i: nat, j: nat)
    requires WidthsOk(widths) && Runs(events, snaps, replies, budget, widths, final) && i <= j <= |events|
    ensures snaps[i].faults <= snaps[j].faults
    decreases j
  {
    hide Tears, Refused, Answers, Straight, LastCompleteBoundary;
    if i < j {
      FaultsGrow(events, snaps, replies, budget, widths, final, i, j - 1);
      assert Told(events[j - 1], snaps[j - 1], snaps[j], replies[j - 1], budget, widths, final);
    }
  }

  /** While no statement fails no key is torn. */
  lemma {:induction false} NothingTorn(events: seq<Event>, snaps: seq<Snap>, replies: seq<Reply>, budget: int,
                                       widths: Widths, final: History, i: nat)
    requires WidthsOk(widths) && Runs(events, snaps, replies, budget, widths, final) && i <= |events|
    requires snaps[0].torn == {} && snaps[|events|].faults == snaps[0].faults
    ensures snaps[i].torn == {} && snaps[i].faults == snaps[0].faults
    decreases i
  {
    hide Refused, Answers, Straight, LastCompleteBoundary, BarsOf;
    FaultsGrow(events, snaps, replies, budget, widths, final, 0, i);
    FaultsGrow(events, snaps, replies, budget, widths, final, i, |events|);
    if i > 0 {
      NothingTorn(events, snaps, replies, budget, widths, final, i - 1);
      assert Told(events[i - 1], snaps[i - 1], snaps[i], replies[i - 1], budget, widths, final);
    }
  }

  /** Over a run in which no statement and no provider call fails, every request
      for a key of known width is served by the cache, with exactly upstream's
      completed bars of the window and what upstream said of the others just now
      -- or with nothing, where q's heap left no room for the entry itself. */
  lemma NothingFails(events: seq<Event>, snaps: seq<Snap>, replies: seq<Reply>, budget: int, widths: Widths,
                     final: History, i: nat)
    requires WidthsOk(widths) && Runs(events, snaps, replies, budget, widths, final) && i < |events|
    requires snaps[0].torn == {} && snaps[|events|].faults == snaps[0].faults
    requires events[i].Ask? && Reliable(events[i].up) && widths(events[i].k.interval).Some?
    ensures var e, step := events[i], widths(events[i].k.interval).value;
            var boundary := LastCompleteBoundary(step, e.now);
            && replies[i].Answer? && replies[i].status != Bypass
            && (|| Emptied(replies[i].rows, snaps[i], snaps[i + 1], budget)
                || (&& Exact(replies[i].rows, e.k, e.window, final, step, boundary)
                    && Live(replies[i].rows, e.k, e.window, e.up, snaps[i].asked, snaps[i + 1].asked, step, boundary)))
  {
    hide Tears, LastCompleteBoundary, Exact, Live, Holds, AllFetched, Straight, Emptied;
    NothingTorn(events, snaps, replies, budget, widths, final, i);
    NothingTorn(events, snaps, replies, budget, widths, final, i + 1);
    assert Told(events[i], snaps[i], snaps[i + 1], replies[i], budget, widths, final);
  }

  // ---- a whole pass ---------------------------------------------------

  datatype PassEnd = Served(rows: Bars) | Restart | Fault

  /** The rows are the upstream bars of the window: every completed one with
      its final value, and none that upstream does not have. */
  ghost predicate Exact(rows: Bars, k: Key, window: Range, final: History, step: int, boundary: int)
    requires step > 0
  {
    && (forall t :: t in rows ==> In(t, window) && On(t, step) && final(k, t).Some?)
    && (forall t :: On(t, step) && In(t, window) && t <= boundary ==> Get(rows, t) == final(k, t))
  }

  /** A stamp of the window fetched just now is served from what was fetched. */
  ghost predicate Newest(rows: Bars, window: Range, fetched: seq<Row>) {
    forall t :: In(t, window) && HasStamp(fetched, t) ==> t in rows && Row(t, rows[t]) in fetched
  }

  /** What the provider answered to the calls from the `n`-th on, for these ranges. */
  ghost function Replied(up: Upstream, k: Key, n: nat, asked: seq<Range>): seq<Row> {
    if asked == [] then []
    else
      var m := |asked| - 1;
      var reply := up(k, n + m, asked[m].lo / DAY, asked[m].hi / DAY);
      Replied(up, k, n, asked[..m]) + if reply.Rows? then reply.rows else []
  }

  /** The ranges among these that the provider answered. */
  ghost function Granted(up: Upstream, k: Key, n: nat, asked: seq<Range>): seq<Range> {
    if asked == [] then []
    else
      var m := |asked| - 1;
      Granted(up, k, n, asked[..m]) + if up(k, n + m, asked[m].lo / DAY, asked[m].hi / DAY).Rows? then [asked[m]]
        else []
  }

  /** What a call has logged since: the ranges answered, and the replies. */
  ghost predicate Grew(up: Upstream, k: Key, before: seq<Range>, asked: seq<Range>, ranges0: seq<Range>,
                       ranges: seq<Range>, rows0: seq<Row>, rows: seq<Row>) {
    && before <= asked
    && ranges == ranges0 + Granted(up, k, |before|, asked[|before|..])
    && rows == rows0 + Replied(up, k, |before|, asked[|before|..])
  }

  lemma GrewNot(up: Upstream, k: Key, asked: seq<Range>, ranges: seq<Range>, rows: seq<Row>)
    ensures Grew(up, k, asked, asked, ranges, ranges, rows, rows)
  {
    assert asked[|asked|..] == [];
  }

  lemma GrewOne(up: Upstream, k: Key, before: seq<Range>, r: Range, ranges0: seq<Range>, ranges: seq<Range>,
                rows0: seq<Row>, rows: seq<Row>)
    requires var reply := up(k, |before|, r.lo / DAY, r.hi / DAY);
             if reply.Rows? then ranges == ranges0 + [r] && rows == rows0 + reply.rows
               else ranges == ranges0 && rows == rows0
    ensures Grew(up, k, before, before + [r], ranges0, ranges, rows0, rows)
  {
    var asked := (before + [r])[|before|..];
    assert asked == [r] && asked[..0] == [];
    assert Replied(up, k, |before|, asked[..0]) == [] && Granted(up, k, |before|, asked[..0]) == [];
  }

  lemma {:induction false} RepliesJoin(up: Upstream, k: Key, n: nat, x: seq<Range>, y: seq<Range>)
    ensures Replied(up, k, n, x + y) == Replied(up, k, n, x) + Replied(up, k, n + |x|, y)
    ensures Granted(up, k, n, x + y) == Granted(up, k, n, x) + Granted(up, k, n + |x|, y)
    decreases |y|
  {
    if y == [] {
      assert x + y == x;
    } else {
      var m := |y| - 1;
      RepliesJoin(up, k, n, x, y[..m]);
      assert (x + y)[..|x + y| - 1] == x + y[..m];
    }
  }

  lemma GrewNext(up: Upstream, k: Key, a0: seq<Range>, a1: seq<Range>, a2: seq<Range>, ranges0: seq<Range>,
                 ranges1: seq<Range>, ranges2: seq<Range>, rows0: seq<Row>, rows1: seq<Row>, rows2: seq<Row>)
    requires Grew(up, k, a0, a1, ranges0, ranges1, rows0, rows1) && Grew(up, k, a1, a2, ranges1, ranges2, rows1, rows2)
    ensures Grew(up, k, a0, a2, ranges0, ranges2, rows0, rows2)
  {
    hide Replied, Granted;
    RepliesJoin(up, k, |a0|, a1[|a0|..], a2[|a1|..]);
    assert a2[|a0|..] == a1[|a0|..] + a2[|a1|..];
  }

  /** All of them were answered exactly if none was refused. */
  lemma {:induction false} GrantedAll(up: Upstream, k: Key, before: seq<Range>, asked: seq<Range>)
    requires before <= asked
    ensures |Granted(up, k, |before|, asked[|before|..])| <= |asked| - |before|
    ensures |Granted(up, k, |before|, asked[|before|..])| == |asked| - |before| <==> !Refused(up, k, before, asked)
    decreases |asked|
  {
    if |asked| > |before| {
      var m := |asked| - 1;
      GrantedAll(up, k, before, asked[..m]);
      assert asked[|before|..][..m - |before|] == asked[..m][|before|..];
      assert asked == asked[..m] + [asked[m]];
      if Refused(up, k, before, asked[..m]) {
        var n: nat :| |before| <= n < m && up(k, n, asked[..m][n].lo / DAY, asked[..m][n].hi / DAY).Failed?;
        assert asked[n] == asked[..m][n];
      }
      if n: nat :| |before| <= n < m && up(k, n, asked[n].lo / DAY, asked[n].hi / DAY).Failed? {
        assert asked[n] == asked[..m][n];
      }
    }
  }

  /** Every bar of the window lies in these ranges. */
  ghost predicate WindowAsked(asked: seq<Range>, window: Range, step: int)
    requires step > 0
  {
    forall t :: On(t, step) && In(t, window) ==> Covered(asked, t)
  }

  /** The bypass leaves no bar of the window unasked for. */
  lemma BypassAsks(ranges: seq<Range>, remaining: seq<Range>, window: Range, step: int)
    requires step > 0 && Gaps(remaining, window, ranges, step)
    ensures WindowAsked(ranges + remaining, window, step)
  {
    hide On, Covered;
    forall t | On(t, step) && In(t, window) ensures Covered(ranges + remaining, t) {
      if Covered(ranges, t) {
        var i := CoverElim(ranges, t);
        CoverIntro(ranges + remaining, i, t);
      } else {
        var i := CoverElim(remaining, t);
        CoverIntro(ranges + remaining, |ranges| + i, t);
      }
    }
  }

  /** The first `i` of these ranges were asked for, and the provider's replies are in the log. */
  ghost predicate AskedSoFar(before: seq<Range>, asked: seq<Range>, rowsBefore: seq<Row>, rows: seq<Row>,
                             remaining: seq<Range>, i: nat, up: Upstream, k: Key) {
    && i <= |remaining| && asked == before + remaining[..i]
    && rows == rowsBefore + Replied(up, k, |before|, remaining[..i])
    && forall j :: 0 <= j < i ==> up(k, |before| + j, remaining[j].lo / DAY, remaining[j].hi / DAY).Rows?
  }

  lemma AskedNothing(asked: seq<Range>, rows: seq<Row>, remaining: seq<Range>, up: Upstream, k: Key)
    ensures AskedSoFar(asked, asked, rows, rows, remaining, 0, up, k)
  {
  }

  lemma AskedMore(before: seq<Range>, asked: seq<Range>, rowsBefore: seq<Row>, rows: seq<Row>, remaining: seq<Range>,
                  i: nat, up: Upstream, k: Key, got: seq<Row>)
    requires AskedSoFar(before, asked, rowsBefore, rows, remaining, i, up, k) && i < |remaining|
    requires up(k, |asked|, remaining[i].lo / DAY, remaining[i].hi / DAY) == Rows(got)
    ensures AskedSoFar(before, asked + [remaining[i]], rowsBefore, rows + got, remaining, i + 1, up, k)
  {
    assert remaining[..i + 1] == remaining[..i] + [remaining[i]] && remaining[..i + 1][..i] == remaining[..i];
  }

  lemma AskedRefused(before: seq<Range>, asked: seq<Range>, rowsBefore: seq<Row>, rows: seq<Row>, remaining: seq<Range>,
                     i: nat, up: Upstream, k: Key)
    requires AskedSoFar(before, asked, rowsBefore, rows, remaining, i, up, k) && i < |remaining|
    requires up(k, |asked|, remaining[i].lo / DAY, remaining[i].hi / DAY).Failed?
    ensures before <= asked + [remaining[i]] && Refused(up, k, before, asked + [remaining[i]])
  {
    hide Replied, Refused;
    RefusedNow(up, k, asked, remaining[i], 0);
    RefusedStill(up, k, before, asked, asked + [remaining[i]]);
  }

  lemma AskedMeans(before: seq<Range>, asked: seq<Range>, rowsBefore: seq<Row>, rows: seq<Row>, remaining: seq<Range>,
                   up: Upstream, k: Key)
    requires AskedSoFar(before, asked, rowsBefore, rows, remaining, |remaining|, up, k)
    ensures asked == before + remaining && rows == rowsBefore + Replied(up, k, |before|, remaining)
    ensures |remaining| == 1 ==> up(k, |before|, remaining[0].lo / DAY, remaining[0].hi / DAY).Rows?
  {
    hide Replied;
    assert remaining[..|remaining|] == remaining;
  }

  /** Every bar of the window that was not complete lies in these ranges. */
  ghost predicate TailAsked(asked: seq<Range>, window: Range, step: int, boundary: int)
    requires step > 0
  {
    forall t :: On(t, step) && In(t, window) && t > boundary ==> Covered(asked, t)
  }

  /** One call more, for a range with every bar of the gap. */
  ghost predicate AskedOnce(before: seq<Range>, ranges: seq<Range>, rowsBefore: seq<Row>, rows: seq<Row>, gap: Range,
                            step: int, up: Upstream, k: Key, n: nat)
    requires step > 0
  {
    && |ranges| == |before| + 1 && before <= ranges
    && (forall t :: On(t, step) && In(t, gap) ==> In(t, ranges[|before|]))
    && up(k, n, ranges[|before|].lo / DAY, ranges[|before|].hi / DAY).Rows?
    && rows == rowsBefore + up(k, n, ranges[|before|].lo / DAY, ranges[|before|].hi / DAY).rows
  }

  /** One call more for each gap. */
  ghost predicate AskedAll(before: seq<Range>, ranges: seq<Range>, rowsBefore: seq<Row>, rows: seq<Row>,
                           gaps: seq<Range>, step: int, up: Upstream, k: Key, n: nat)
    requires step > 0
  {
    && |ranges| == |before| + |gaps| && before <= ranges
    && (forall j, t :: 0 <= j < |gaps| && On(t, step) && In(t, gaps[j]) ==> In(t, ranges[|before| + j]))
    && rows == rowsBefore + Replied(up, k, n, ranges[|before|..])
  }

  lemma AskedWire(before: seq<Range>, rowsBefore: seq<Row>, rows: seq<Row>, wire: Range, gap: Range,
                  step: int, up: Upstream, k: Key, n: nat)
    requires step > 0 && up(k, n, wire.lo / DAY, wire.hi / DAY) == Rows(rows)
    requires forall t :: On(t, step) && gap.lo <= t <= gap.hi ==> In(t, wire)
    ensures AskedOnce(before, before + [wire], rowsBefore, rowsBefore + rows, gap, step, up, k, n)
  {
    hide On;
  }

  lemma AskedNone(ranges: seq<Range>, rows: seq<Row>, gaps: seq<Range>, step: int, up: Upstream, k: Key, n: nat)
    requires step > 0
    ensures AskedAll(ranges, ranges, rows, rows, gaps[..0], step, up, k, n)
  {
    assert ranges[|ranges|..] == [];
  }

  lemma AskedNext(before: seq<Range>, mid: seq<Range>, ranges: seq<Range>, rowsBefore: seq<Row>, rowsMid: seq<Row>,
                  rows: seq<Row>, gaps: seq<Range>, i: nat, step: int, up: Upstream, k: Key, n: nat)
    requires step > 0 && i < |gaps|
    requires AskedAll(before, mid, rowsBefore, rowsMid, gaps[..i], step, up, k, n)
    requires AskedOnce(mid, ranges, rowsMid, rows, gaps[i], step, up, k, n + i)
    ensures AskedAll(before, ranges, rowsBefore, rows, gaps[..i + 1], step, up, k, n)
  {
    hide On;
    var asked := ranges[|before|..];
    assert asked[..i] == mid[|before|..] && asked[i] == ranges[|mid|];
    forall j, t | 0 <= j < i + 1 && On(t, step) && In(t, gaps[j]) ensures In(t, ranges[|before| + j]) {
      if j < i { assert gaps[..i][j] == gaps[j] && mid[|before| + j] == ranges[|before| + j]; }
    }
  }

  /** Coverage ends at the boundary, so the gaps hold the rest of the window. */
  lemma TailMeans(before: seq<Range>, ranges: seq<Range>, rowsBefore: seq<Row>, rows: seq<Row>, gaps: seq<Range>,
                  window: Range, effective: seq<Range>, db: Tables, step: int, boundary: int, up: Upstream, k: Key,
                  n: nat)
    requires step > 0 && AskedAll(before, ranges, rowsBefore, rows, gaps, step, up, k, n)
    requires Gaps(gaps, window, effective, step) && Effective(effective, db, k, step, boundary)
    ensures before <= ranges && |ranges| == |before| + |gaps|
            && rows[|rowsBefore|..] == Replied(up, k, n, ranges[|before|..])
    ensures TailAsked(ranges[|before|..], window, step, boundary)
  {
    hide On, Covered, CoverageOf, Shape;
    var asked := ranges[|before|..];
    forall t | On(t, step) && In(t, window) && t > boundary ensures Covered(asked, t) {
      assert Covered(gaps, t);
      var j := CoverElim(gaps, t);
      assert In(t, asked[j]);
      CoverIntro(asked, j, t);
    }
  }

  function Clip(bars: Bars, window: Range): Bars {
    map t | t in bars && In(t, window) :: bars[t]
  }

  lemma ClipMeans(db: Tables, k: Key, window: Range, fetched: seq<Row>, final: History, step: int, boundary: int)
    requires step > 0
    ensures Known(db, k, final, step) && Fresh(db, k, window, final, step, boundary) ==>
      Exact(Clip(BarsOf(db, k), window), k, window, final, step, boundary)
    ensures Latest(db, k, fetched) ==> Newest(Clip(BarsOf(db, k), window), window, fetched)
  {
    hide On, BarsOf;
  }

  lemma CoverageShape(db: Tables, keys: set<Key>, widths: Widths, k: Key)
    requires WidthsOk(widths) && Shapes(db, keys, widths) && k in keys && widths(k.interval).Some?
    ensures Shape(CoverageOf(db, k), widths(k.interval).value)
    ensures var cov := CoverageOf(db, k); AllOn(cov, widths(k.interval).value) && AllProper(cov)
  {
    hide On, CoverageOf;
  }

  lemma EffectiveMeans(covered: seq<Range>, db: Tables, k: Key, step: int, boundary: int)
    requires step > 0 && On(boundary, step) && AllOn(covered, step) && AllProper(covered)
    requires SameStamps(covered, CoverageOf(db, k), step)
    ensures Effective(TrimAll(covered, boundary), db, k, step, boundary)
  {
    hide On, Covered, TrimAll, CoverageOf;
    TrimAllMeans(covered, boundary, step);
  }

  /** The effective coverage is up to date to begin with. */
  lemma EffectiveFresh(db: Tables, k: Key, effective: seq<Range>, final: History, step: int, boundary: int)
    requires step > 0 && Effective(effective, db, k, step, boundary) && Good(db, k, final, step, boundary)
    ensures forall j :: 0 <= j < |effective| ==> Fresh(db, k, effective[j], final, step, boundary)
  {
    hide On, Covered, BarsOf, CoverageOf;
    forall j, t | 0 <= j < |effective| && On(t, step) && In(t, effective[j])
      ensures Get(BarsOf(db, k), t) == final(k, t)
    {
      CoverIntro(effective, j, t);
    }
  }

  /** What a pass sets out to fetch. */
  ghost predicate Planned(db: Tables, k: Key, window: Range, effective: seq<Range>, gaps: seq<Range>, step: int,
                          boundary: int)
    requires step > 0
  {
    && Effective(effective, db, k, step, boundary) && Gaps(gaps, window, effective, step)
    && Edges(gaps, window, effective, step)
    && (forall i :: 0 <= i < |gaps| ==> Floor(gaps[i].lo, step) <= gaps[i].hi)
    && (On(window.lo, step) && On(window.hi, step) ==>
        forall i :: 0 <= i < |gaps| ==> On(gaps[i].lo, step) && On(gaps[i].hi, step))
  }

  lemma PlannedGaps(db: Tables, k: Key, window: Range, effective: seq<Range>, gaps: seq<Range>, step: int,
                    boundary: int)
    requires step > 0 && Planned(db, k, window, effective, gaps, step, boundary)
    ensures Shape(effective, step)
    ensures forall i :: 0 <= i < |gaps| ==> Floor(gaps[i].lo, step) <= gaps[i].hi
    ensures On(window.lo, step) && On(window.hi, step) ==>
      forall i :: 0 <= i < |gaps| ==> On(gaps[i].lo, step) && On(gaps[i].hi, step)
    ensures Remembered(db, k, window, step, boundary) ==> gaps == []
  {
    hide On, Gaps, Shape, CoverageOf, Floor, Remembered, Effective;
    assert Shape(effective, step) by { EffectiveShape(effective, db, k, step, boundary); }
    HeldHits(db, k, window, effective, gaps, step, boundary);
  }

  lemma EffectiveShape(effective: seq<Range>, db: Tables, k: Key, step: int, boundary: int)
    requires step > 0 && Effective(effective, db, k, step, boundary)
    ensures Shape(effective, step)
  {
    hide On, Covered, CoverageOf;
  }

  /** What has come of the plan when every gap is filled: the window is
      remembered, its unfinished bars were asked for, and what is held of it
      is upstream's. */
  lemma AfterFill(db: Tables, full: Tables, k: Key, window: Range, effective: seq<Range>, gaps: seq<Range>,
                  before: seq<Range>, ranges: seq<Range>, rowsBefore: seq<Row>, rows: seq<Row>,
                  sound: bool, final: History, step: int, boundary: int, up: Upstream, n: nat)
    requires step > 0 && Planned(db, k, window, effective, gaps, step, boundary)
    requires AskedAll(before, ranges, rowsBefore, rows, gaps, step, up, k, n)
    requires rowsBefore <= rows && CoversMore(db, full, k, gaps, step, boundary)
             && Latest(full, k, rows[|rowsBefore|..])
    requires sound ==> Good(db, k, final, step, boundary) && Good(full, k, final, step, boundary)
    requires sound ==> forall x :: Fresh(db, k, x, final, step, boundary) ==> Fresh(full, k, x, final, step, boundary)
    requires sound ==> forall j :: 0 <= j < |gaps| ==> Fresh(full, k, gaps[j], final, step, boundary)
    ensures Holds(full, k, window, step, boundary)
    ensures before <= ranges && |ranges| == |before| + |gaps|
            && rows[|rowsBefore|..] == Replied(up, k, n, ranges[|before|..])
    ensures TailAsked(ranges[|before|..], window, step, boundary)
    ensures Newest(Clip(BarsOf(full, k), window), window, rows[|rowsBefore|..])
    ensures sound ==> Exact(Clip(BarsOf(full, k), window), k, window, final, step, boundary)
  {
    hide On, Good, Fresh, Latest, Shape, Floor, BarsOf, CoverageOf, Exact, Newest, Clip, Gaps, AskedAll, TailAsked,
         Replied, CoversMore, Holds, Effective;
    TailMeans(before, ranges, rowsBefore, rows, gaps, window, effective, db, step, boundary, up, k, n);
    WindowHeld(db, full, k, window, effective, gaps, step, boundary);
    if sound {
      EffectiveFresh(db, k, effective, final, step, boundary);
      WindowFresh(full, k, window, effective, gaps, final, step, boundary);
      GoodKnown(full, k, final, step, boundary);
    }
    ClipMeans(full, k, window, rows[|rowsBefore|..], final, step, boundary);
  }

  lemma GapShape(gaps: seq<Range>, window: Range, effective: seq<Range>, step: int)
    requires step > 0 && Gaps(gaps, window, effective, step)
    ensures forall i :: 0 <= i < |gaps| ==> Floor(gaps[i].lo, step) <= gaps[i].hi
    ensures On(window.lo, step) && On(window.hi, step) ==>
      forall i :: 0 <= i < |gaps| ==> On(gaps[i].lo, step) && On(gaps[i].hi, step)
  {
    hide On, Covered, Floor;
  }

  lemma LatestNothing(db: Tables, k: Key, rows: seq<Row>, from: nat)
    requires from == |rows|
    ensures Latest(db, k, rows[from..])
  {
    assert rows[from..] == [];
  }

  lemma GoodKnown(db: Tables, k: Key, final: History, step: int, boundary: int)
    requires step > 0 && Good(db, k, final, step, boundary)
    ensures Known(db, k, final, step)
  {
    hide Sound, Known;
  }

  /** With the effective coverage and every gap up to date, so is the window. */
  lemma WindowFresh(db: Tables, k: Key, window: Range, effective: seq<Range>, gaps: seq<Range>,
                    final: History, step: int, boundary: int)
    requires step > 0 && Gaps(gaps, window, effective, step)
    requires forall j :: 0 <= j < |effective| ==> Fresh(db, k, effective[j], final, step, boundary)
    requires forall j :: 0 <= j < |gaps| ==> Fresh(db, k, gaps[j], final, step, boundary)
    ensures Fresh(db, k, window, final, step, boundary)
  {
    hide On, Covered, BarsOf;
    forall t | On(t, step) && In(t, window) && t <= boundary ensures Get(BarsOf(db, k), t) == final(k, t) {
      if Covered(effective, t) {
        var j := CoverElim(effective, t);
      } else {
        var j := CoverElim(gaps, t);
      }
    }
  }

  /** What eviction may do to the promises of each key. */
  lemma AfterEvict(db: Tables, db': Tables, torn: set<Key>, torn': set<Key>, keys: set<Key>, widths: Widths)
    requires WidthsOk(widths) && Shapes(db, keys, widths) && EachWholeOrGone(db, db', torn, torn', keys)
    ensures Shapes(db', keys, widths)
    ensures KeptGood(db, db', torn, torn', keys)
  {
    hide On, Good, BarsOf, CoverageOf;
    forall k, final, step, boundary | k in keys && k !in torn' && step > 0
      && (k in torn || Good(db, k, final, step, boundary))
      ensures Good(db', k, final, step, boundary)
    {
      if Gone(db', k) {
        GoneIsGood(db', k, final, step, boundary);
      } else {
        GoodSame(db, db', k, final, step, boundary);
      }
    }
  }

  /** Whatever promise held of a key still holds, unless a drop of it tore. */
  ghost predicate KeptGood(db: Tables, db': Tables, torn: set<Key>, torn': set<Key>, keys: set<Key>) {
    forall k, final, step, boundary ::
      (k in keys && k !in torn' && step > 0 && (k in torn || Good(db, k, final, step, boundary))) ==>
      Good(db', k, final, step, boundary)
  }

  datatype Reply = Answer(rows: Bars, status: Status, fromCache: nat, fromUpstream: nat, gapsFetched: nat) | Error

  /** What the cache asks of a request: an honest provider, and -- for daily
      bars, whose range goes on record as asked -- ends that are dates. */
  ghost predicate WellAsked(k: Key, window: Range, now: int, up: Upstream, final: History, widths: Widths)
    requires WidthsOk(widths)
  {
    widths(k.interval).Some? ==>
      var step := widths(k.interval).value;
      && Honest(up, k, final, step, LastCompleteBoundary(step, now))
      && (step == DAY ==> On(window.lo, step) && On(window.hi, step))
  }

  /** Every completed upstream bar of the window is among the rows, and every
      completed row is upstream's. */
  ghost predicate AllFetched(rows: Bars, k: Key, window: Range, final: History, step: int, boundary: int)
    requires step > 0
  {
    && (forall t :: On(t, step) && In(t, window) && t <= boundary && final(k, t).Some? ==> t in rows)
    && (forall t :: t in rows ==> On(t, step) && final(k, t).Some? && (t <= boundary ==> rows[t] == final(k, t).value))
  }

  /** No range fetched after the first ones holds a bar of an earlier range. */
  ghost predicate NothingTwice(before: seq<Range>, ranges: seq<Range>, step: int)
    requires step > 0
  {
    && before <= ranges
    && (forall i, j, t :: 0 <= i < j < |ranges| && |before| <= j && On(t, step) && In(t, ranges[i]) ==>
        !In(t, ranges[j]))
  }

  lemma NothingYet(ranges: seq<Range>, remaining: seq<Range>, window: Range, step: int)
    requires step > 0 && Gaps(remaining, window, ranges, step)
    ensures NothingTwice(ranges, ranges, step)
  {
    hide On, Covered;
  }

  lemma NothingNext(ranges: seq<Range>, remaining: seq<Range>, i: nat, window: Range, step: int)
    requires step > 0 && i < |remaining| && Gaps(remaining, window, ranges, step)
    requires NothingTwice(ranges, ranges + remaining[..i], step)
    ensures NothingTwice(ranges, ranges + remaining[..i] + [remaining[i]], step)
  {
    hide On, Covered;
    var next := ranges + remaining[..i] + [remaining[i]];
    assert forall a :: |ranges| <= a < |next| - 1 ==> next[a] == remaining[a - |ranges|];
    forall a, t | 0 <= a < |next| - 1 && On(t, step) && In(t, next[a]) ensures !In(t, remaining[i]) {
      if In(t, remaining[i]) {
        CoverIntro(remaining, i, t);
        if a < |ranges| { CoverIntro(ranges, a, t); }
      }
    }
    assert forall a :: 0 <= a < |next| - 1 ==> next[a] == (ranges + remaining[..i])[a];
  }

  lemma BypassRows(rows: seq<Row>, ranges: seq<Range>, remaining: seq<Range>, window: Range,
                   k: Key, final: History, step: int, boundary: int)
    requires step > 0 && Gaps(remaining, window, ranges, step)
    requires LogOk(rows, ranges + remaining, k, final, step, boundary)
    ensures AllFetched(Dedupe(rows), k, window, final, step, boundary)
  {
    hide On, Covered, Dedupe;
    DedupeMeans(rows);
    forall t | On(t, step) && In(t, window) && t <= boundary && final(k, t).Some? ensures t in Dedupe(rows) {
      if Covered(ranges, t) {
        var i := CoverElim(ranges, t);
        CoverIntro(ranges + remaining, i, t);
      } else {
        var i := CoverElim(remaining, t);
        CoverIntro(ranges + remaining, |ranges| + i, t);
      }
    }
  }

  lemma CallMeans(rows: seq<Row>, ranges: seq<Range>, gapsFetched: nat, k: Key, final: History, step: int,
                  boundary: int)
    requires step > 0 && CallOk(rows, ranges, gapsFetched, k, final, step, boundary)
    ensures gapsFetched == |ranges| && AllOn(ranges, step) && AllProper(ranges)
            && LogOk(rows, ranges, k, final, step, boundary)
  {
    hide On, LogOk;
  }

  lemma EmptyCallOk(k: Key, final: History, step: int, boundary: int)
    requires step > 0
    ensures CallOk([], [], 0, k, final, step, boundary)
  {
    hide On;
    forall t { CoveredEmpty(t); }
  }

  lemma CountsAdd(rows: Bars, fetched: seq<Row>)
    ensures |set t | t in rows && HasStamp(fetched, t)| + |set t | t in rows && !HasStamp(fetched, t)| == |rows|
  {
    var a := set t | t in rows && HasStamp(fetched, t);
    var b := set t | t in rows && !HasStamp(fetched, t);
    assert a + b == rows.Keys && a !! b;
  }

  lemma KeptRefl(db: Tables, torn: set<Key>, keys: set<Key>, k: Key)
    ensures KeptOthers(db, db, torn, torn, keys, k)
  {
    hide Good;
  }

  lemma KeptOthersTrans(a: Tables, b: Tables, c: Tables, tornA: set<Key>, tornB: set<Key>, tornC: set<Key>,
                        keys: set<Key>, k: Key)
    requires KeptOthers(a, b, tornA, tornB, keys, k) && KeptOthers(b, c, tornB, tornC, keys, k)
    ensures KeptOthers(a, c, tornA, tornC, keys, k)
  {
    hide Good;
  }

  /** Whatever promise held of another key still holds, unless a drop of it tore. */
  ghost predicate KeptOthers(db: Tables, db': Tables, torn: set<Key>, torn': set<Key>, keys: set<Key>, k: Key) {
    forall o, final, step, boundary ::
      (o in keys && o != k && o !in torn' && step > 0 && (o in torn || Good(db, o, final, step, boundary))) ==>
      Good(db', o, final, step, boundary)
  }

  lemma OthersKept(db: Tables, db': Tables, torn: set<Key>, torn': set<Key>, keys: set<Key>, k: Key)
    requires Others(db, db', torn, torn', keys, k)
    ensures KeptOthers(db, db', torn, torn', keys, k)
  {
    hide Good;
    forall o, final, step, boundary | o in keys && o != k && o !in torn' && step > 0
      && Good(db, o, final, step, boundary)
      ensures Good(db', o, final, step, boundary)
    {
      GoodSame(db, db', o, final, step, boundary);
    }
  }

  lemma KeptAll(a: Tables, b: Tables, c: Tables, tornA: set<Key>, tornC: set<Key>, keys: set<Key>, k: Key,
                final: History, step: int, boundary: int)
    requires Others(a, b, tornA, tornA, keys, k) && KeptGood(b, c, tornA, tornC, keys) && step > 0 && k in keys
    requires Kept(a, b, tornA, tornA, k, final, step, boundary)
    ensures KeptOthers(a, c, tornA, tornC, keys, k)
    ensures Kept(a, c, tornA, tornC, k, final, step, boundary)
  {
    hide Good;
    OthersKept(a, b, tornA, tornA, keys, k);
  }

  /** Upstream calls and the count of fetched gaps move together; a call that
      raised may have gone uncounted. */
  predicate Counted(calls: nat, calls': nat, gaps: nat, gaps': nat, raised: bool) {
    && calls <= calls' && gaps <= gaps'
    && (calls' - calls == gaps' - gaps || (raised && calls' - calls == gaps' - gaps + 1))
  }

  lemma AfterTouch(db: Tables, db': Tables, k: Key, now: int, torn: set<Key>, keys: set<Key>, widths: Widths)
    requires WidthsOk(widths) && Shapes(db, keys, widths)
    requires db' == Touched(db, k, now) || db' == db
    ensures Shapes(db', keys, widths) && KeptGood(db, db', torn, torn, keys) && SameEntry(db, db', k)
  {
    hide On, Good, Gone, TableName;
    assert forall o :: SameEntry(db, db', o);
    forall o, final, step, boundary | o in keys && o !in torn && step > 0 && Good(db, o, final, step, boundary)
      ensures Good(db', o, final, step, boundary)
    {
      GoodSame(db, db', o, final, step, boundary);
    }
  }

  lemma KeptTrans(a: Tables, b: Tables, c: Tables, tornA: set<Key>, tornB: set<Key>, tornC: set<Key>, keys: set<Key>)
    requires KeptGood(a, b, tornA, tornB, keys) && KeptGood(b, c, tornB, tornC, keys)
    requires tornA == tornB
    ensures KeptGood(a, c, tornA, tornC, keys)
  {
    hide Good;
  }

  /** If eviction took `k`, it took every key; otherwise `k` is as it was. */
  lemma EvictedKey(db: Tables, keys: set<Key>, order: seq<Key>, n: nat, k: Key)
    requires NamesDistinct(keys) && db.lru.Keys <= keys && k in db.lru && n <= |order|
    requires IsAccessOrder(order, db.lru)
    requires forall o :: o in db.lru && o != k ==> db.lru[o] < db.lru[k]
    ensures var after := EvictedDb(db, order, n);
            if k in order[..n] then BarsOf(after, k) == map[] && after.lru == map[]
            else SameEntry(db, after, k)
  {
    hide BarsOf, CoverageOf, EvictedDb, NamesDistinct;
    assert KeySet(order) <= keys;
    assert k in keys;
    EvictionMeans(db, keys, order, n);
    EvictedLru(db, order, n);
    if k in order[..n] {
      NewestGoesLast(db.lru, order, n, k);
      assert order[..n] == order;
    }
  }

  /** q was asked for its heap, and its last answer is within budget unless
      there is nothing left to drop; every answer before was over budget, and
      there was one if anything was evicted. */
  predicate Roomy(before: seq<int>, readings: seq<int>, budget: int, lru: map<Key, int>, evicted: bool) {
    && before < readings
    && (readings[|readings| - 1] <= budget || lru == map[])
    && (forall i :: |before| <= i < |readings| - 1 ==> readings[i] > budget)
    && (evicted ==> |readings| > |before| + 1)
  }

  lemma AllEvicted(db: Tables, order: seq<Key>)
    requires IsAccessOrder(order, db.lru)
    ensures EvictedDb(db, order, |order|).lru == map[]
  {
    hide TableName, EvictedDb;
    EvictedLru(db, order, |order|);
    assert order[..|order|] == order;
  }

  lemma {:induction false} EvictedLru(db: Tables, order: seq<Key>, n: nat)
    requires n <= |order|
    ensures EvictedDb(db, order, n).lru == db.lru - KeySet(order[..n])
  {
    hide TableName;
    if n > 0 {
      EvictedLru(db, order, n - 1);
      assert order[..n] == order[..n - 1] + [order[n - 1]];
      assert KeySet(order[..n]) == KeySet(order[..n - 1]) + {order[n - 1]};
    } else {
      assert order[..0] == [];
    }
  }

  /** The call's log keeps count and keeps faith. */
  ghost predicate CallOk(rows: seq<Row>, ranges: seq<Range>, gapsFetched: nat, k: Key, final: History, step: int,
                         boundary: int)
    requires step > 0
  {
    gapsFetched == |ranges| && Shape(ranges, step) && LogOk(rows, ranges, k, final, step, boundary)
  }

  lemma CallGrows(rows: seq<Row>, ranges: seq<Range>, gapsFetched: nat, more: seq<Row>, wire: Range,
                  k: Key, final: History, step: int, boundary: int)
    requires step > 0 && CallOk(rows, ranges, gapsFetched, k, final, step, boundary)
    requires On(wire.lo, step) && On(wire.hi, step) && wire.lo <= wire.hi
    requires TrueRows(more, k, final, step, boundary)
    requires CompleteRows(more, k, final, step, boundary, wire.lo / DAY, wire.hi / DAY)
    ensures CallOk(rows + more, ranges + [wire], gapsFetched + 1, k, final, step, boundary)
  {
    hide On, LogOk, TrueRows, CompleteRows;
    LogGrows(rows, ranges, more, wire, k, final, step, boundary);
  }

  lemma FetchedRows(up: Upstream, k: Key, n: nat, wire: Range, rows: seq<Row>, final: History, step: int, boundary: int)
    requires step > 0 && Honest(up, k, final, step, boundary)
    requires up(k, n, wire.lo / DAY, wire.hi / DAY) == Rows(rows)
    ensures TrueRows(rows, k, final, step, boundary)
    ensures CompleteRows(rows, k, final, step, boundary, wire.lo / DAY, wire.hi / DAY)
  {
    hide TrueRows, CompleteRows, On;
  }

  lemma OverlapStart(effective: seq<Range>, gap: Range, step: int, boundary: int)
    requires GridWidth(step) && Shape(effective, step) && effective != []
    ensures On(gap.lo, step) ==> On(Overlap(effective, gap, step, boundary).lo, step)
  {
    hide On;
    var lo := gap.lo;
    if On(lo, step) {
      GridStep(lo, step);
      GridStep(lo - step, step);
      GridStep(lo - step - step, step);
      assert lo - step * OVERLAP_BARS == lo - step - step - step;
    }
  }

  lemma FetchStart(fetchStart: int, gap: Range, step: int)
    requires GridWidth(step) && Floor(gap.lo, step) <= gap.hi && fetchStart <= gap.lo
    requires step == DAY ==> On(fetchStart, step) && On(gap.hi, step)
    ensures Floor(fetchStart, step) <= gap.hi
    ensures var w := DayRange(fetchStart, gap.hi, step);
            && On(w.lo, step) && On(w.hi, step) && w.lo <= w.hi && w.lo <= fetchStart
            && (forall t :: On(t, step) && fetchStart <= t <= gap.hi ==> In(t, w))
  {
    hide On, Floor, DayRange;
    if Floor(fetchStart, step) > gap.lo { assert false; }
    if Floor(gap.lo, step) < Floor(fetchStart, step) { GridGap(Floor(gap.lo, step), Floor(fetchStart, step), step); }
    DayRangeMeans(fetchStart, gap.hi, step);
  }

  lemma FreshPart(db: Tables, k: Key, wire: Range, gap: Range, final: History, step: int, boundary: int)
    requires step > 0 && Fresh(db, k, wire, final, step, boundary)
    requires forall t :: On(t, step) && gap.lo <= t <= gap.hi ==> In(t, wire)
    ensures Fresh(db, k, gap, final, step, boundary)
  {
    hide On, BarsOf;
  }

  lemma AfterDrop(db: Tables, keys: set<Key>, widths: Widths, k: Key, done: nat, final: History, step: int,
                  boundary: int)
    requires WidthsOk(widths) && Shapes(db, keys, widths) && NamesDistinct(keys) && k in keys
    requires widths(k.interval) == Some(step)
    ensures var db' := Dropped(db, k, done);
            && Shapes(db', keys, widths)
            && (forall o :: o in keys && o != k ==> SameEntry(db, db', o))
            && (done == 0 ==> db' == db)
            && (done >= 2 ==> Gone(db', k) && Good(db', k, final, step, boundary))
  {
    hide On, Covered, Dropped, BarsOf, CoverageOf, Gone, Good, Shape;
    DropMeans(db, keys, k, done);
    var db' := Dropped(db, k, done);
    if done >= 2 {
      GoneIsGood(db', k, final, step, boundary);
    }
    ShapesStep(db, db', keys, widths, k);
  }

  lemma TrimTailMeans(wire: Range, boundary: int)
    ensures TrimTail(wire, boundary).Some? <==> wire.lo <= boundary
  {
  }

  lemma UpsertNothing(bars: Bars)
    ensures Upsert(bars, []) == bars
  {
  }

  lemma AfterWrite(db: Tables, db': Tables, keys: set<Key>, widths: Widths, k: Key, seen: seq<Row>, rows: seq<Row>,
                   wire: Range, final: History, step: int, boundary: int)
    requires WidthsOk(widths) && Shapes(db, keys, widths) && widths(k.interval) == Some(step)
    requires NamesDistinct(keys) && k in keys
    requires db' == Written(db, k, rows) || db' == db
    requires TrueRows(rows, k, final, step, boundary)
    requires CompleteRows(rows, k, final, step, boundary, wire.lo / DAY, wire.hi / DAY)
    ensures Shapes(db', keys, widths)
    ensures forall o :: o in keys && o != k ==> SameEntry(db, db', o)
    ensures Good(db, k, final, step, boundary) ==> Good(db', k, final, step, boundary)
    ensures (db' == Written(db, k, rows) || rows == []) && Good(db, k, final, step, boundary) ==>
      && Fresh(db', k, wire, final, step, boundary)
      && (forall r :: Fresh(db, k, r, final, step, boundary) ==> Fresh(db', k, r, final, step, boundary))
    ensures (db' == Written(db, k, rows) || rows == []) && Latest(db, k, seen) ==> Latest(db', k, seen + rows)
  {
    hide On, Good, Fresh, Latest, TrueRows, CompleteRows, Upsert, BarsOf, CoverageOf, Shape, Written;
    WrittenMeans(db, keys, k, rows);
    UpsertNothing(BarsOf(db, k));
    ShapesStep(db, db', keys, widths, k);
    if db' == Written(db, k, rows) || rows == [] {
      if Good(db, k, final, step, boundary) {
        WriteKeeps(db, db', k, rows, wire, final, step, boundary);
      }
      if Latest(db, k, seen) { WriteLatest(db, db', k, seen, rows); }
    }
  }

  lemma AfterRecord(db: Tables, db': Tables, keys: set<Key>, widths: Widths, k: Key, seen: seq<Row>, wire: Range,
                    final: History, step: int, boundary: int)
    requires WidthsOk(widths) && Shapes(db, keys, widths) && widths(k.interval) == Some(step) && k in keys
    requires On(wire.lo, step) && On(wire.hi, step) && wire.lo <= wire.hi && wire.lo <= boundary && On(boundary, step)
    requires db' == Recorded(db, k, TrimTail(wire, boundary).value) || db' == db
    ensures Shapes(db', keys, widths)
    ensures forall o :: o in keys && o != k ==> SameEntry(db, db', o)
    ensures Good(db, k, final, step, boundary) && Fresh(db, k, wire, final, step, boundary) ==>
      && Good(db', k, final, step, boundary)
      && (forall r :: Fresh(db, k, r, final, step, boundary) ==> Fresh(db', k, r, final, step, boundary))
    ensures Latest(db, k, seen) ==> Latest(db', k, seen)
  {
    hide On, Good, Fresh, Recorded, BarsOf, CoverageOf, Shape, TrimTail;
    TrimTailMeans(wire, boundary);
    RecordedMeans(db, keys, k, TrimTail(wire, boundary).value);
    RecordShape(CoverageOf(db, k), wire, step, boundary);
    ShapesStep(db, db', keys, widths, k);
    if db' != db && Good(db, k, final, step, boundary) && Fresh(db, k, wire, final, step, boundary) {
      RecordKeeps(db, db', k, wire, final, step, boundary);
    }
  }
}
