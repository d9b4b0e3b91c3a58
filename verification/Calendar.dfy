/** The economic calendar's window walk (openbb-eodhd/openbb_eodhd/models/calendar.py):
    every row of a date range, out of a server that sorts its rows newest day
    first and silently drops what lies past its page limit. */
module Calendar {
  import opened Options
  import Arith

  /** `time` orders the rows of a day. */
  datatype Row = Row(day: int, time: int, event: string)

  datatype Error = Unauthorized | EmptyData

  datatype Result<T> = Ok(value: T) | Err(error: Error)

  const PAGE_LIMIT := 1000
  const MAX_REQUESTS := 20

  // ---- the server -----------------------------------------------------

  predicate Descending(rows: seq<Row>) {
    forall x, y :: 0 <= x < y < |rows| ==> rows[x].day >= rows[y].day
  }

  /** The first row on `day` or before. */
  function First(rows: seq<Row>, day: int): (k: nat)
    requires Descending(rows)
    ensures k <= |rows|
    ensures forall x :: 0 <= x < |rows| ==> (rows[x].day <= day <==> k <= x)
  {
    if rows == [] || rows[0].day <= day then 0
    else
      var k := First(rows[1..], day);
      assert forall x :: 0 < x < |rows| ==> rows[x] == rows[1..][x - 1];
      1 + k
  }

  function Min(a: int, b: int): int { if a <= b then a else b }

  /** The rows from the lower end of the range on that the window `to` admits. */
  function Start(rows: seq<Row>, to: Option<int>): (k: nat)
    requires Descending(rows)
    ensures k <= |rows|
  {
    if to.None? then 0 else First(rows, to.value)
  }

  /** One answer: the window's rows after `offset`, as far as the limit goes. */
  function Page(rows: seq<Row>, to: Option<int>, offset: nat, cap: nat): seq<Row>
    requires Descending(rows)
  {
    var a := Min(Start(rows, to) + offset, |rows|);
    rows[a..Min(a + cap, |rows|)]
  }

  // ---- the walk -------------------------------------------------------

  predicate DayStart(rows: seq<Row>, i: nat) {
    i <= |rows| && (0 < i < |rows| ==> rows[i - 1].day != rows[i].day)
  }

  /** Where the day of row `i` ends. */
  function DayEnd(rows: seq<Row>, i: nat): (k: nat)
    requires Descending(rows) && i < |rows|
    ensures i < k <= |rows| && DayStart(rows, k)
    ensures forall x :: i <= x < |rows| ==> if x < k then rows[x].day == rows[i].day else rows[x].day < rows[i].day
  {
    First(rows, rows[i].day - 1)
  }

  /** A stretch of rows one request adds to the answer. */
  datatype Slice = Slice(lo: nat, hi: nat)

  /** Before a request: the window starts at row `i`, `offset` rows of it are
      skipped, and `paging` tells whether its newest day is being paged. */
  datatype Spot = Spot(i: nat, offset: nat, paging: bool)

  /** The request's rows that are kept. */
  function Piece(rows: seq<Row>, p: Spot, cap: nat): Slice
    requires Descending(rows) && cap > 0
  {
    var a := p.i + p.offset;
    var b := Min(a + cap, |rows|);
    if a >= |rows| then Slice(|rows|, |rows|)
    else if b - a < cap || rows[a].day == rows[b - 1].day then Slice(a, b)
    else Slice(a, First(rows, rows[b - 1].day))
  }

  /** The next request, unless this one was the last. */
  function Next(rows: seq<Row>, p: Spot, cap: nat): (n: Option<Spot>)
    requires Descending(rows) && DayStart(rows, p.i) && cap > 0
    ensures n.Some? ==> DayStart(rows, n.value.i) && n.value.i >= p.i
    ensures n.Some? ==> n.value.i > p.i || n.value.offset == p.offset + cap
    ensures n.Some? ==> p.i + p.offset < |rows|
  {
    var a := p.i + p.offset;
    var b := Min(a + cap, |rows|);
    if a >= |rows| then None
    else if b - a < cap then (if p.paging then Some(Spot(DayEnd(rows, p.i), 0, false)) else None)
    else
      var s := First(rows, rows[b - 1].day);
      if rows[a].day == rows[b - 1].day then Some(Spot(s, p.offset + cap, true)) else Some(Spot(s, 0, false))
  }

  /** The stretches collected from here on, one a request. */
  function Walk(rows: seq<Row>, p: Spot, cap: nat): (w: seq<Slice>)
    requires Descending(rows) && DayStart(rows, p.i) && cap > 0
    ensures |w| > 0
    decreases |rows| - p.i, Max(|rows| - p.i - p.offset)
  {
    var n := Next(rows, p, cap);
    [Piece(rows, p, cap)] + if n.None? then [] else Walk(rows, n.value, cap)
  }

  function Max(x: int): nat { if x < 0 then 0 else x }

  function Part(rows: seq<Row>, s: Slice): seq<Row> {
    if s.lo <= s.hi <= |rows| then rows[s.lo..s.hi] else []
  }

  function Collect(rows: seq<Row>, w: seq<Slice>): seq<Row> {
    if w == [] then [] else Collect(rows, w[..|w| - 1]) + Part(rows, w[|w| - 1])
  }

  predicate Hit(w: seq<Slice>, x: nat) {
    exists k :: 0 <= k < |w| && w[k].lo <= x < w[k].hi
  }

  predicate HitsAll(w: seq<Slice>, lo: nat, hi: nat) {
    forall x :: lo <= x < hi ==> Hit(w, x)
  }

  // ---- what is lost ---------------------------------------------------

  /** Whether the walk starting afresh at row `i` collects every row before `t`:
      a day whose size is an exact multiple of the limit lets the offset run on
      into the next day, which then must fit one page, with a tail behind it
      that the offset neither swallows nor leaves more than a short page of. */
  predicate Lossless(rows: seq<Row>, i: nat, t: nat, cap: nat)
    requires Descending(rows) && cap > 0
    decreases |rows| - i
  {
    if i >= |rows| || DayEnd(rows, i) >= t || DayEnd(rows, i) >= |rows| then true
    else
      var j := DayEnd(rows, i);
      var j2 := DayEnd(rows, j);
      if (j - i) % cap == 0 && j2 - j >= cap then
        t <= j + cap
        || (j2 == j + cap && j - i < |rows| - j2 < j - i + cap && Lossless(rows, j2, Min(t, j2 + (j - i)), cap))
      else Lossless(rows, j, t, cap)
  }

  lemma HitCons(s: Slice, w: seq<Slice>, x: nat)
    ensures Hit([s] + w, x) <==> s.lo <= x < s.hi || Hit(w, x)
  {
    var v := [s] + w;
    if Hit(v, x) {
      var k :| 0 <= k < |v| && v[k].lo <= x < v[k].hi;
      assert k > 0 ==> v[k] == w[k - 1];
    }
    if s.lo <= x < s.hi { assert v[0] == s; }
    if Hit(w, x) {
      var k :| 0 <= k < |w| && w[k].lo <= x < w[k].hi;
      assert v[k + 1] == w[k];
    }
  }

  /** Rows the walk has gone past: below the window, or below the offset on the
      window's newest day. */
  predicate Past(rows: seq<Row>, p: Spot, x: nat)
    requires Descending(rows)
  {
    x < p.i || (p.i < |rows| && x < p.i + p.offset && x < DayEnd(rows, p.i))
  }

  lemma PastStep(rows: seq<Row>, p: Spot, cap: nat, x: nat)
    requires Descending(rows) && DayStart(rows, p.i) && cap > 0 && Past(rows, p, x)
    ensures !(Piece(rows, p, cap).lo <= x < Piece(rows, p, cap).hi)
    ensures Next(rows, p, cap).Some? ==> Past(rows, Next(rows, p, cap).value, x)
  {
  }

  /** What it has gone past it never sees again. */
  lemma {:induction false} PastStays(rows: seq<Row>, p: Spot, cap: nat, x: nat)
    requires Descending(rows) && DayStart(rows, p.i) && cap > 0 && Past(rows, p, x)
    ensures !Hit(Walk(rows, p, cap), x)
    decreases |rows| - p.i, Max(|rows| - p.i - p.offset)
  {
    PastStep(rows, p, cap, x);
    hide Piece, Next, Past, Hit;
    WalkHits(rows, p, cap, x);
    var n := Next(rows, p, cap);
    if n.Some? { PastStays(rows, n.value, cap, x); }
  }

  lemma WalkHits(rows: seq<Row>, p: Spot, cap: nat, x: nat)
    requires Descending(rows) && DayStart(rows, p.i) && cap > 0
    ensures var n := Next(rows, p, cap); var c := Piece(rows, p, cap);
            Hit(Walk(rows, p, cap), x) <==> c.lo <= x < c.hi || (n.Some? && Hit(Walk(rows, n.value, cap), x))
  {
    hide Piece, Next;
    var n := Next(rows, p, cap);
    HitCons(Piece(rows, p, cap), if n.None? then [] else Walk(rows, n.value, cap), x);
  }

  lemma {:induction false} SmallLossless(rows: seq<Row>, i: nat, t: nat, cap: nat)
    requires Descending(rows) && cap > 0 && |rows| - i < cap
    ensures Lossless(rows, i, t, cap)
    decreases |rows| - i
  {
    if i < |rows| { SmallLossless(rows, DayEnd(rows, i), t, cap); }
  }

  /** Days that together stay under the limit do not matter. */
  lemma {:induction false} SkipLossless(rows: seq<Row>, j: nat, s: nat, t: nat, cap: nat)
    requires Descending(rows) && cap > 0 && j <= s < j + cap && DayStart(rows, s) && s < |rows|
    ensures Lossless(rows, j, t, cap) == Lossless(rows, s, t, cap)
    decreases s - j
  {
    if j < s {
      var k := DayEnd(rows, j);
      assert rows[s - 1].day != rows[s].day;
      assert k <= s;
      assert 0 < k - j < cap;
      SmallMod(k - j, cap);
      SkipLossless(rows, k, s, t, cap);
      if t <= k { assert DayEnd(rows, s) >= t; }
    }
  }

  lemma SmallMod(x: nat, cap: nat)
    requires 0 < x < cap
    ensures x % cap != 0
  {
  }

  /** An offset of whole pages. */
  predicate Whole(off: nat, cap: nat)
    requires cap > 0
  {
    off % cap == 0
  }

  lemma WholeMod(off: nat, r: nat, cap: nat)
    requires cap > 0 && r < cap && Whole(off, cap)
    ensures (off + r) % cap == r && Whole(off + cap, cap) && Whole(0, cap)
  {
    var m := off / cap;
    assert off == cap * m;
    Arith.DivMod(off + r, cap, m, r);
    assert off + cap == cap * (m + 1) + 0;
    Arith.DivMod(off + cap, cap, m + 1, 0);
    Arith.DivMod(0, cap, 0, 0);
  }

  /** The pieces from this spot on, a request further. */
  lemma HitsStep(rows: seq<Row>, p: Spot, cap: nat, lo: nat, hi: nat)
    requires Descending(rows) && DayStart(rows, p.i) && cap > 0
    requires Next(rows, p, cap).Some? && Piece(rows, p, cap).lo == lo <= Piece(rows, p, cap).hi
    ensures HitsAll(Walk(rows, p, cap), lo, hi) <==>
            HitsAll(Walk(rows, Next(rows, p, cap).value, cap), Piece(rows, p, cap).hi, hi)
  {
    hide Hit, Piece, Next;
    forall x { WalkHits(rows, p, cap, x); }
    var c := Piece(rows, p, cap);
    var v := Walk(rows, Next(rows, p, cap).value, cap);
    if HitsAll(v, c.hi, hi) {
      forall x | lo <= x < hi ensures Hit(Walk(rows, p, cap), x) {
        if c.hi <= x { assert Hit(v, x); }
      }
    }
    if HitsAll(Walk(rows, p, cap), lo, hi) {
      forall x | c.hi <= x < hi ensures Hit(v, x) {
        assert Hit(Walk(rows, p, cap), x);
      }
    }
  }

  /** The spot inside a day after `off` rows of it. */
  function Inside(i: nat, off: nat): Spot { Spot(i, off, off > 0) }

  /** The central count: from inside a day of which whole pages are taken,
      the walk collects every further row before `t` exactly if no later day
      breaks the condition. */
  lemma {:induction false} WalkKeeps(rows: seq<Row>, i: nat, off: nat, t: nat, cap: nat)
    requires Descending(rows) && DayStart(rows, i) && cap > 0 && t <= |rows|
    requires i == |rows| ==> off == 0
    requires Whole(off, cap)
    requires i < |rows| ==> i + off <= DayEnd(rows, i)
    ensures HitsAll(Walk(rows, Inside(i, off), cap), i + off, t) <==> Lossless(rows, i, t, cap)
    decreases |rows| - i, Max(|rows| - i - off)
  {
    hide Walk, HitsAll, Piece, Next, Lossless, Descending, Whole, First, DayEnd, DayStart;
    var p := Inside(i, off);
    var a := i + off;
    if a >= |rows| {
      PastEnd(rows, i, off, t, cap);
    } else {
      var b := Min(a + cap, |rows|);
      var j := DayEnd(rows, i);
      WholeMod(off, 0, cap);
      if b - a < cap {
        ShortPage(rows, i, off, t, cap);
      } else if b <= j {
        SameDay(rows, p, cap);
        WalkKeeps(rows, i, off + cap, t, cap);
        HitsStep(rows, p, cap, a, t);
      } else if a < j || DayEnd(rows, j) < j + cap {
        var s := First(rows, rows[b - 1].day);
        OtherPage(rows, i, off, cap);
        WalkKeeps(rows, s, 0, t, cap);
        HitsStep(rows, p, cap, a, t);
        OtherDay(rows, i, off, s, t, cap);
      } else {
        var j2 := DayEnd(rows, j);
        if j2 == j + cap && j2 < |rows| { WalkKeeps(rows, j2, 0, Min(t, j2 + (j - i)), cap); }
        ExactDay(rows, i, off, t, cap);
      }
    }
  }

  lemma PastEnd(rows: seq<Row>, i: nat, off: nat, t: nat, cap: nat)
    requires Descending(rows) && DayStart(rows, i) && cap > 0 && t <= |rows| <= i + off
    requires i < |rows| ==> i + off <= DayEnd(rows, i)
    ensures HitsAll(Walk(rows, Inside(i, off), cap), i + off, t) && Lossless(rows, i, t, cap)
  {
  }

  /** A full page that ends on a later day than it begins. */
  lemma OtherPage(rows: seq<Row>, i: nat, off: nat, cap: nat)
    requires Descending(rows) && DayStart(rows, i) && cap > 0 && i < |rows|
    requires var a, j := i + off, DayEnd(rows, i);
             a <= j < a + cap <= |rows| && (a == j ==> DayEnd(rows, j) < j + cap)
    ensures var p := Inside(i, off);
            var a := i + off;
            var s := First(rows, rows[a + cap - 1].day);
            Next(rows, p, cap) == Some(Spot(s, 0, false)) && Piece(rows, p, cap) == Slice(a, s)
            && DayEnd(rows, i) <= s < a + cap && DayStart(rows, s) && i < s && Inside(s, 0) == Spot(s, 0, false)
  {
    hide Descending, First, DayEnd;
    var a, j := i + off, DayEnd(rows, i);
    assert rows[a].day > rows[a + cap - 1].day;
  }

  lemma SameDay(rows: seq<Row>, p: Spot, cap: nat)
    requires Descending(rows) && DayStart(rows, p.i) && cap > 0 && p.i + p.offset + cap <= |rows|
    requires p.i < |rows| && p.i + p.offset + cap <= DayEnd(rows, p.i)
    ensures Next(rows, p, cap) == Some(Spot(p.i, p.offset + cap, true))
    ensures Piece(rows, p, cap) == Slice(p.i + p.offset, p.i + p.offset + cap)
  {
    var a := p.i + p.offset;
    assert rows[a].day == rows[p.i].day == rows[a + cap - 1].day;
  }

  lemma ShortPage(rows: seq<Row>, i: nat, off: nat, t: nat, cap: nat)
    requires Descending(rows) && DayStart(rows, i) && cap > 0 && Whole(off, cap) && t <= |rows| && i < |rows|
    requires i + off <= DayEnd(rows, i) && i + off < |rows| < i + off + cap
    ensures HitsAll(Walk(rows, Inside(i, off), cap), i + off, t)
    ensures Lossless(rows, i, t, cap)
  {
    var a, j := i + off, DayEnd(rows, i);
    SmallLossless(rows, j, t, cap);
    if a < j { WholeMod(off, j - a, cap); }
    forall x | a <= x < t ensures Hit(Walk(rows, Inside(i, off), cap), x) {
      WalkHits(rows, Inside(i, off), cap, x);
    }
  }

  lemma OtherDay(rows: seq<Row>, i: nat, off: nat, s: nat, t: nat, cap: nat)
    requires Descending(rows) && DayStart(rows, i) && cap > 0 && Whole(off, cap) && t <= |rows| && i < |rows|
    requires i + off <= DayEnd(rows, i) <= s < i + off + cap && s < |rows| && DayStart(rows, s)
    requires i + off == DayEnd(rows, i) ==> DayEnd(rows, DayEnd(rows, i)) < DayEnd(rows, i) + cap
    ensures Lossless(rows, i, t, cap) == Lossless(rows, s, t, cap)
  {
    hide Descending, First, DayEnd, Lossless, Whole, DayStart;
    var j := DayEnd(rows, i);
    ModOfDay(i, off, j, cap);
    LosslessNext(rows, i, t, cap);
    SkipLossless(rows, j, s, t, cap);
    if t <= s { LosslessDone(rows, s, t, cap); }
  }

  lemma ModOfDay(i: nat, off: nat, j: nat, cap: nat)
    requires cap > 0 && Whole(off, cap) && i + off <= j < i + off + cap
    ensures (j - i) % cap == j - (i + off)
  {
    WholeMod(off, j - (i + off), cap);
    assert off + (j - (i + off)) == j - i;
  }

  lemma LosslessNext(rows: seq<Row>, i: nat, t: nat, cap: nat)
    requires Descending(rows) && cap > 0 && i < |rows| && t <= |rows| && DayEnd(rows, i) < |rows|
    requires (DayEnd(rows, i) - i) % cap != 0 || DayEnd(rows, DayEnd(rows, i)) - DayEnd(rows, i) < cap
    ensures Lossless(rows, i, t, cap) == (DayEnd(rows, i) >= t || Lossless(rows, DayEnd(rows, i), t, cap))
  {
  }

  lemma LosslessDone(rows: seq<Row>, s: nat, t: nat, cap: nat)
    requires Descending(rows) && cap > 0 && t <= s
    ensures Lossless(rows, s, t, cap)
  {
  }

  lemma LosslessExact(rows: seq<Row>, i: nat, t: nat, cap: nat)
    requires Descending(rows) && cap > 0 && i < |rows| && t <= |rows| && DayEnd(rows, i) < |rows|
    requires (DayEnd(rows, i) - i) % cap == 0 && DayEnd(rows, DayEnd(rows, i)) - DayEnd(rows, i) >= cap
    ensures var j := DayEnd(rows, i);
            var j2 := DayEnd(rows, j);
            Lossless(rows, i, t, cap) <==>
              t <= j + cap
              || (j2 == j + cap && j - i < |rows| - j2 < j - i + cap && Lossless(rows, j2, Min(t, j2 + (j - i)), cap))
  {
  }

  /** The day ends with a full page and the next one fills a page too: the
      offset runs on into it. */
  lemma ExactDay(rows: seq<Row>, i: nat, off: nat, t: nat, cap: nat)
    requires Descending(rows) && DayStart(rows, i) && cap > 0 && Whole(off, cap) && t <= |rows| && i < |rows|
    requires i + off == DayEnd(rows, i) < |rows| && DayEnd(rows, DayEnd(rows, i)) >= DayEnd(rows, i) + cap
    requires var j := DayEnd(rows, i); var j2 := DayEnd(rows, j);
             j2 == j + cap && j2 < |rows| ==>
               var u := Min(t, j2 + (j - i));
               (HitsAll(Walk(rows, Inside(j2, 0), cap), j2, u) <==> Lossless(rows, j2, u, cap))
    ensures HitsAll(Walk(rows, Inside(i, off), cap), i + off, t) <==> Lossless(rows, i, t, cap)
  {
    hide Descending, Walk, Hit, Piece, Next, First, DayEnd, Lossless;
    var p, j := Inside(i, off), DayEnd(rows, i);
    var j2 := DayEnd(rows, j);
    var q := Spot(j, off + cap, true);
    NextDayPage(rows, i, off, cap);
    HitsStep(rows, p, cap, j, t);
    WholeMod(off, 0, cap);
    hide Whole;
    LosslessExact(rows, i, t, cap);
    if t > j + cap {
      if j2 > j + cap {
        PastStays(rows, q, cap, j + cap);
      } else {
        Overrun(rows, i, off, j, t, cap);
      }
    }
  }

  lemma NextDayPage(rows: seq<Row>, i: nat, off: nat, cap: nat)
    requires Descending(rows) && DayStart(rows, i) && cap > 0 && i < |rows| && i + off == DayEnd(rows, i) < |rows|
    requires var j := DayEnd(rows, i); DayEnd(rows, j) >= j + cap
    ensures var p, j := Inside(i, off), DayEnd(rows, i);
            Next(rows, p, cap) == Some(Spot(j, off + cap, true)) && Piece(rows, p, cap) == Slice(j, j + cap)
  {
    hide Descending;
    var j := DayEnd(rows, i);
    assert rows[j].day == rows[j + cap - 1].day;
    assert rows[j - 1].day == rows[i].day > rows[j].day;
  }

  lemma InOrder(rows: seq<Row>, x: nat, y: nat)
    requires Descending(rows) && x <= y < |rows|
    ensures rows[x].day >= rows[y].day
  {
  }

  /** The next day is exactly a page; what the offset does to the rest. */
  lemma Overrun(rows: seq<Row>, i: nat, off: nat, j: nat, t: nat, cap: nat)
    requires Descending(rows) && DayStart(rows, j) && cap > 0 && i < j && j + cap < t <= |rows| && j - i == off
    requires DayEnd(rows, j) == j + cap
    ensures var j2 := j + cap;
            HitsAll(Walk(rows, Spot(j, off + cap, true), cap), j2, t) <==>
            off < |rows| - j2 < off + cap && HitsAll(Walk(rows, Spot(j2, 0, false), cap), j2, Min(t, j2 + off))
  {
    hide Descending, Walk;
    var j2 := j + cap;
    var q := Spot(j, off + cap, true);
    var a := j2 + off;
    var w := Walk(rows, q, cap);
    if a >= |rows| {
      WalkHits(rows, q, cap, j2);
    } else if |rows| - a < cap {
      var v := Walk(rows, Spot(j2, 0, false), cap);
      assert Next(rows, q, cap) == Some(Spot(j2, 0, false)) && Piece(rows, q, cap) == Slice(a, |rows|);
      forall x | j2 <= x < t ensures Hit(w, x) <==> a <= x || Hit(v, x) { WalkHits(rows, q, cap, x); }
    } else {
      WalkHits(rows, q, cap, j2);
      var n := Next(rows, q, cap).value;
      InOrder(rows, j2, a);
      InOrder(rows, a, a + cap - 1);
      assert Past(rows, n, j2);
      PastStays(rows, n, cap, j2);
    }
  }

  // ---- what is repeated -----------------------------------------------

  /** The pieces lie end to end from `lo` to `hi`. */
  predicate Tiles(w: seq<Slice>, lo: nat, hi: nat) {
    if w == [] then lo == hi else w[0].lo == lo <= w[0].hi <= hi && Tiles(w[1..], w[0].hi, hi)
  }

  /** Whether a walk from row `i` takes every row once: a day of a page or more
      must leave, after its whole pages, none behind it or a full page. */
  predicate Exactly(rows: seq<Row>, i: nat, cap: nat)
    requires Descending(rows) && cap > 0
    decreases |rows| - i
  {
    if |rows| - i < cap then true
    else
      var j := DayEnd(rows, i);
      if j == |rows| then true
      else if j - i < cap then Exactly(rows, j, cap)
      else if (j - i) % cap + (|rows| - j) < cap then false
      else if (j - i) % cap == 0 && DayEnd(rows, j) - j >= cap then |rows| == j + cap
      else Exactly(rows, j, cap)
  }

  lemma {:induction false} SkipExactly(rows: seq<Row>, j: nat, s: nat, cap: nat)
    requires Descending(rows) && cap > 0 && j <= s < j + cap && DayStart(rows, s) && s < |rows|
    ensures Exactly(rows, j, cap) == Exactly(rows, s, cap)
    decreases s - j
  {
    hide Descending, First;
    if j < s {
      var k := DayEnd(rows, j);
      assert rows[s - 1].day != rows[s].day;
      assert k <= s;
      SkipExactly(rows, k, s, cap);
    }
  }

  lemma {:induction false} WalkTiles(rows: seq<Row>, i: nat, off: nat, cap: nat)
    requires Descending(rows) && DayStart(rows, i) && cap > 0
    requires i == |rows| ==> off == 0
    requires Whole(off, cap)
    requires i < |rows| ==> i + off <= DayEnd(rows, i)
    ensures Tiles(Walk(rows, Inside(i, off), cap), i + off, |rows|) <==> Exactly(rows, i, cap)
    decreases |rows| - i, Max(|rows| - i - off)
  {
    hide Walk, Tiles, Piece, Next, Exactly, Descending, First, DayEnd;
    var p := Inside(i, off);
    var a := i + off;
    if a + cap > |rows| {
      TilesShort(rows, i, off, cap);
    } else {
      var j := DayEnd(rows, i);
      WholeMod(off, 0, cap);
      if a + cap <= j {
        SameDay(rows, p, cap);
        WalkTiles(rows, i, off + cap, cap);
        TilesStep(rows, p, cap);
      } else if a < j || DayEnd(rows, j) < j + cap {
        var s := First(rows, rows[a + cap - 1].day);
        OtherPage(rows, i, off, cap);
        WalkTiles(rows, s, 0, cap);
        TilesStep(rows, p, cap);
        ExactlyOther(rows, i, off, s, cap);
      } else {
        NextDayPage(rows, i, off, cap);
        TilesStep(rows, p, cap);
        TilesOverrun(rows, i, off, cap);
      }
    }
  }

  lemma TilesStep(rows: seq<Row>, p: Spot, cap: nat)
    requires Descending(rows) && DayStart(rows, p.i) && cap > 0
    requires Next(rows, p, cap).Some?
    requires var c := Piece(rows, p, cap); c.lo == p.i + p.offset && c.lo <= c.hi <= |rows|
    ensures Tiles(Walk(rows, p, cap), p.i + p.offset, |rows|) <==>
            Tiles(Walk(rows, Next(rows, p, cap).value, cap), Piece(rows, p, cap).hi, |rows|)
  {
    hide Descending, Piece, Next;
    var w := Walk(rows, p, cap);
    assert w[1..] == Walk(rows, Next(rows, p, cap).value, cap);
  }

  lemma WholeBig(off: nat, cap: nat)
    requires cap > 0 && Whole(off, cap) && off > 0
    ensures off >= cap
  {
    if off < cap { Arith.DivMod(off, cap, 0, off); }
  }

  lemma TilesShort(rows: seq<Row>, i: nat, off: nat, cap: nat)
    requires Descending(rows) && DayStart(rows, i) && cap > 0 && Whole(off, cap)
    requires i == |rows| ==> off == 0
    requires i < |rows| ==> i + off <= DayEnd(rows, i)
    requires i + off + cap > |rows|
    ensures Tiles(Walk(rows, Inside(i, off), cap), i + off, |rows|) <==> Exactly(rows, i, cap)
  {
    hide Descending, First, DayEnd, Whole, Exactly;
    var p := Inside(i, off);
    ExactlyShort(rows, i, off, cap);
    if i + off < |rows| && off > 0 {
      var q := Spot(DayEnd(rows, i), 0, false);
      TilesStep(rows, p, cap);
      assert Walk(rows, q, cap)[0] == Piece(rows, q, cap);
      assert q.i == |rows| ==> Walk(rows, q, cap) == [Slice(|rows|, |rows|)];
    } else {
      assert Walk(rows, p, cap) == [Piece(rows, p, cap)];
    }
  }

  lemma ExactlyShort(rows: seq<Row>, i: nat, off: nat, cap: nat)
    requires Descending(rows) && DayStart(rows, i) && cap > 0 && Whole(off, cap)
    requires i == |rows| ==> off == 0
    requires i < |rows| ==> i + off <= DayEnd(rows, i)
    requires i + off + cap > |rows|
    ensures Exactly(rows, i, cap) <==> off == 0 || DayEnd(rows, i) == |rows|
  {
    hide Descending, First, DayEnd;
    if off > 0 {
      WholeBig(off, cap);
      WholeMod(off, 0, cap);
      var j := DayEnd(rows, i);
      if i + off < j { WholeMod(off, j - (i + off), cap); }
      hide Whole;
      assert j < |rows| ==> (j - i) % cap + (|rows| - j) == |rows| - (i + off);
    }
  }

  lemma ExactlyOther(rows: seq<Row>, i: nat, off: nat, s: nat, cap: nat)
    requires Descending(rows) && DayStart(rows, i) && cap > 0 && Whole(off, cap) && i < |rows|
    requires i + off <= DayEnd(rows, i) <= s < i + off + cap <= |rows| && s < |rows| && DayStart(rows, s)
    requires i + off == DayEnd(rows, i) ==> DayEnd(rows, DayEnd(rows, i)) < DayEnd(rows, i) + cap
    ensures Exactly(rows, i, cap) == Exactly(rows, s, cap)
  {
    hide Descending, First, DayEnd, Exactly;
    var j := DayEnd(rows, i);
    if off > 0 { WholeBig(off, cap); }
    WholeMod(off, j - (i + off), cap);
    hide Whole;
    ExactlyNext(rows, i, cap);
    SkipExactly(rows, j, s, cap);
  }

  lemma ExactlyNext(rows: seq<Row>, i: nat, cap: nat)
    requires Descending(rows) && cap > 0 && i + cap <= |rows| && DayEnd(rows, i) < |rows|
    requires var j := DayEnd(rows, i);
             j - i < cap || ((j - i) % cap + (|rows| - j) >= cap && ((j - i) % cap != 0 || DayEnd(rows, j) - j < cap))
    ensures Exactly(rows, i, cap) == Exactly(rows, DayEnd(rows, i), cap)
  {
  }

  lemma TilesOverrun(rows: seq<Row>, i: nat, off: nat, cap: nat)
    requires Descending(rows) && DayStart(rows, i) && cap > 0 && Whole(off, cap) && i < |rows|
    requires i + off == DayEnd(rows, i) < |rows| && DayEnd(rows, DayEnd(rows, i)) >= DayEnd(rows, i) + cap
    ensures var j := DayEnd(rows, i);
            Tiles(Walk(rows, Spot(j, off + cap, true), cap), j + cap, |rows|) <==> Exactly(rows, i, cap)
  {
    var j := DayEnd(rows, i);
    WholeBig(off, cap);
    WholeMod(off, 0, cap);
    ExactlyOverrun(rows, i, off, cap);
    hide Descending, First, DayEnd, Whole, Exactly;
    var w := Walk(rows, Spot(j, off + cap, true), cap);
    assert w[0] == Piece(rows, Spot(j, off + cap, true), cap);
    assert j + cap == |rows| ==> w == [Slice(|rows|, |rows|)];
  }

  lemma ExactlyOverrun(rows: seq<Row>, i: nat, off: nat, cap: nat)
    requires Descending(rows) && cap > 0 && off >= cap && i < |rows| && off % cap == 0
    requires i + off == DayEnd(rows, i) < |rows| && DayEnd(rows, DayEnd(rows, i)) >= DayEnd(rows, i) + cap
    ensures Exactly(rows, i, cap) <==> |rows| == DayEnd(rows, i) + cap
  {
    hide Descending, First, DayEnd;
  }

  // ---- the answer -----------------------------------------------------

  function Fresh(i: nat): Spot { Spot(i, 0, false) }

  /** The whole request. `rows` are those from the lower end of the range on. */
  function Asked(rows: seq<Row>, to: Option<int>): (w: seq<Slice>)
    requires Descending(rows)
  {
    Walk(rows, Fresh(Start(rows, to)), PAGE_LIMIT)
  }

  lemma StartsDay(rows: seq<Row>, to: Option<int>)
    requires Descending(rows)
    ensures DayStart(rows, Start(rows, to))
  {
  }

  /** No row is lost exactly if the condition on the day sizes holds. */
  lemma LosslessIff(rows: seq<Row>, to: Option<int>)
    requires Descending(rows)
    ensures HitsAll(Asked(rows, to), Start(rows, to), |rows|) <==> Lossless(rows, Start(rows, to), |rows|, PAGE_LIMIT)
  {
    ZeroWhole();
    WalkKeeps(rows, Start(rows, to), 0, |rows|, PAGE_LIMIT);
  }

  lemma ZeroWhole()
    ensures Whole(0, PAGE_LIMIT)
  {
  }

  /** The answer takes each row once, in the server's order, exactly if the
      second condition holds. */
  lemma ExactIff(rows: seq<Row>, to: Option<int>)
    requires Descending(rows)
    ensures Tiles(Asked(rows, to), Start(rows, to), |rows|) <==> Exactly(rows, Start(rows, to), PAGE_LIMIT)
    ensures Exactly(rows, Start(rows, to), PAGE_LIMIT) ==> Collect(rows, Asked(rows, to)) == rows[Start(rows, to)..]
  {
    hide Tiles, Exactly, Descending, Collect, Walk, Lossless, DayStart, Start;
    StartsDay(rows, to);
    ZeroWhole();
    WalkTiles(rows, Start(rows, to), 0, PAGE_LIMIT);
    if Exactly(rows, Start(rows, to), PAGE_LIMIT) {
      TilesCollect(rows, Asked(rows, to), Start(rows, to), |rows|);
    }
  }

  lemma {:induction false} CollectCons(rows: seq<Row>, s: Slice, w: seq<Slice>)
    ensures Collect(rows, [s] + w) == Part(rows, s) + Collect(rows, w)
  {
    hide Part;
    var v := [s] + w;
    if w == [] {
      assert v[..0] == [] && v == [s];
    } else {
      var n := |w| - 1;
      assert v[..|w|] == [s] + w[..n] && v[|w|] == w[n];
      CollectCons(rows, s, w[..n]);
      assert Collect(rows, v) == Collect(rows, v[..|w|]) + Part(rows, w[n]);
    }
  }

  lemma {:induction false} TilesCollect(rows: seq<Row>, w: seq<Slice>, lo: nat, hi: nat)
    requires Tiles(w, lo, hi) && hi <= |rows|
    ensures lo <= hi && Collect(rows, w) == rows[lo..hi]
  {
    hide Collect;
    if w == [] {
      NoneCollected(rows);
    } else {
      TilesCollect(rows, w[1..], w[0].hi, hi);
      CollectCons(rows, w[0], w[1..]);
      assert [w[0]] + w[1..] == w;
      assert rows[lo..hi] == rows[w[0].lo..w[0].hi] + rows[w[0].hi..hi];
    }
  }

  lemma NoneCollected(rows: seq<Row>)
    ensures Collect(rows, []) == []
  {
  }

  predicate AllDays(rows: seq<Row>, i: nat, p: int -> bool)
    requires Descending(rows)
  {
    forall x :: i <= x < |rows| && DayStart(rows, x) ==> p(DayEnd(rows, x) - x)
  }

  /** Every day under the limit: the answer is exactly the rows of the range. */
  lemma {:induction false} SmallDays(rows: seq<Row>, i: nat, cap: nat)
    requires Descending(rows) && cap > 0 && DayStart(rows, i) && AllDays(rows, i, n => n < cap)
    ensures Exactly(rows, i, cap)
    decreases |rows| - i
  {
    hide Descending, First;
    if i < |rows| { SmallDays(rows, DayEnd(rows, i), cap); }
  }

  /** No day an exact multiple of the limit: no row is lost. */
  lemma {:induction false} NoMultiples(rows: seq<Row>, i: nat, t: nat, cap: nat)
    requires Descending(rows) && cap > 0 && DayStart(rows, i) && AllDays(rows, i, n => n % cap != 0)
    ensures Lossless(rows, i, t, cap)
    decreases |rows| - i
  {
    hide Descending, First;
    if i < |rows| { NoMultiples(rows, DayEnd(rows, i), t, cap); }
  }

  /** `n` rows of one day, then `m` of an earlier one. */
  function TwoDays(r: Row, n: nat, e: Row, m: nat): (rows: seq<Row>)
    ensures |rows| == n + m && forall x :: 0 <= x < n + m ==> rows[x] == if x < n then r else e
  {
    seq(n, _ => r) + seq(m, _ => e)
  }

  lemma TwoDaysMeans(r: Row, n: nat, e: Row, m: nat)
    requires r.day > e.day && n > 0 && m > 0
    ensures var rows := TwoDays(r, n, e, m);
            Descending(rows) && DayStart(rows, 0) && DayStart(rows, n) && DayEnd(rows, 0) == n
              && DayEnd(rows, n) == n + m
            && First(rows, e.day) == n && First(rows, r.day) == 0 && Start(rows, None) == 0
  {
    var rows := TwoDays(r, n, e, m);
    assert rows[0] == r && rows[n - 1] == r && rows[n] == e;
  }

  /** A day of exactly a page before a bigger one: the offset carries over to the
      bigger day and its last row is never fetched. */
  lemma MultipleLoses(r: Row, e: Row)
    requires r.day > e.day
    ensures var rows := TwoDays(r, PAGE_LIMIT, e, PAGE_LIMIT + 1);
            Descending(rows) && Asked(rows, None) == [Slice(0, 1000), Slice(1000, 2000), Slice(2001, 2001)]
            && !Hit(Asked(rows, None), 2000)
  {
    var rows := TwoDays(r, 1000, e, 1001);
    TwoDaysMeans(r, 1000, e, 1001);
    assert rows[999] == r && rows[1000] == e && rows[1999] == e;
    hide First, DayEnd, Descending, DayStart, TwoDays;
    assert Next(rows, Spot(1000, 2000, true), 1000) == None
           && Piece(rows, Spot(1000, 2000, true), 1000) == Slice(2001, 2001);
    assert Next(rows, Spot(0, 1000, true), 1000) == Some(Spot(1000, 2000, true));
    assert Piece(rows, Spot(0, 1000, true), 1000) == Slice(1000, 2000);
    assert Next(rows, Fresh(0), 1000) == Some(Spot(0, 1000, true)) && Piece(rows, Fresh(0), 1000) == Slice(0, 1000);
    hide Next, Piece;
    assert Walk(rows, Spot(1000, 2000, true), 1000) == [Slice(2001, 2001)];
    assert Walk(rows, Spot(0, 1000, true), 1000) == [Slice(1000, 2000), Slice(2001, 2001)];
  }

  /** A big day ending in a short page: the page carries the day before, which is
      then asked for again. */
  lemma ShortPageRepeats(r: Row, e: Row)
    requires r.day > e.day
    ensures var rows := TwoDays(r, PAGE_LIMIT + 500, e, 1);
            Descending(rows) && Asked(rows, None) == [Slice(0, 1000), Slice(1000, 1501), Slice(1500, 1501)]
            && Collect(rows, Asked(rows, None)) == rows + [e]
  {
    var rows := TwoDays(r, 1500, e, 1);
    TwoDaysMeans(r, 1500, e, 1);
    assert rows[999] == r && rows[1500] == e;
    hide First, DayEnd, Descending, DayStart, TwoDays;
    assert Next(rows, Fresh(1500), 1000) == None && Piece(rows, Fresh(1500), 1000) == Slice(1500, 1501);
    assert Next(rows, Spot(0, 1000, true), 1000) == Some(Fresh(1500))
           && Piece(rows, Spot(0, 1000, true), 1000) == Slice(1000, 1501);
    assert Next(rows, Fresh(0), 1000) == Some(Spot(0, 1000, true)) && Piece(rows, Fresh(0), 1000) == Slice(0, 1000);
    hide Next, Piece;
    assert Walk(rows, Fresh(1500), 1000) == [Slice(1500, 1501)];
    assert Walk(rows, Spot(0, 1000, true), 1000) == [Slice(1000, 1501), Slice(1500, 1501)];
    CollectCons(rows, Slice(0, 1000), [Slice(1000, 1501), Slice(1500, 1501)]);
    CollectCons(rows, Slice(1000, 1501), [Slice(1500, 1501)]);
    CollectCons(rows, Slice(1500, 1501), []);
    assert [Slice(0, 1000)] + [Slice(1000, 1501), Slice(1500, 1501)]
           == [Slice(0, 1000), Slice(1000, 1501), Slice(1500, 1501)];
    assert [Slice(1000, 1501)] + [Slice(1500, 1501)] == [Slice(1000, 1501), Slice(1500, 1501)];
    assert [Slice(1500, 1501)] + [] == [Slice(1500, 1501)];
    assert rows[..1000] + rows[1000..] == rows && rows[1500..1501] == [e];
  }

  predicate InRange(w: seq<Slice>, lo: nat, hi: nat) {
    forall k :: 0 <= k < |w| ==> lo <= w[k].lo <= w[k].hi <= hi
  }

  /** Every piece is of rows in the range. */
  lemma {:induction false} WalkInRange(rows: seq<Row>, p: Spot, cap: nat)
    requires Descending(rows) && DayStart(rows, p.i) && cap > 0
    ensures InRange(Walk(rows, p, cap), p.i, |rows|)
    decreases |rows| - p.i, Max(|rows| - p.i - p.offset)
  {
    hide Descending, DayEnd, DayStart;
    var n := Next(rows, p, cap);
    PieceInRange(rows, p, cap);
    hide Piece, Next;
    if n.Some? { WalkInRange(rows, n.value, cap); }
  }

  lemma PieceInRange(rows: seq<Row>, p: Spot, cap: nat)
    requires Descending(rows) && DayStart(rows, p.i) && cap > 0
    ensures var c := Piece(rows, p, cap); p.i <= c.lo <= c.hi <= |rows| && (p.i + p.offset < |rows| ==> c.lo < c.hi)
  {
  }

  /** Whether or not the budget cuts it short, the answer holds the collected
      pieces' rows and no others. */
  lemma {:induction false} CollectMeans(rows: seq<Row>, w: seq<Slice>, lo: nat, row: Row)
    requires InRange(w, lo, |rows|)
    ensures row in Collect(rows, w) <==> exists x :: lo <= x < |rows| && rows[x] == row && Hit(w, x)
  {
    if w == [] {
      assert forall x :: !Hit(w, x);
    } else {
      var n := |w| - 1;
      CollectMeans(rows, w[..n], lo, row);
      PartMeans(rows, w[n], row);
      hide Part, Collect;
      assert row in Collect(rows, w) <==>
             row in Collect(rows, w[..n]) || row in Part(rows, w[n]) by { CollectSnoc(rows, w); }
      forall x: nat { HitSnoc(w, x); }
    }
  }

  lemma CollectSnoc(rows: seq<Row>, w: seq<Slice>)
    requires w != []
    ensures Collect(rows, w) == Collect(rows, w[..|w| - 1]) + Part(rows, w[|w| - 1])
  {
  }

  lemma PartMeans(rows: seq<Row>, s: Slice, row: Row)
    requires s.lo <= s.hi <= |rows|
    ensures row in Part(rows, s) <==> exists x :: s.lo <= x < s.hi && rows[x] == row
  {
    var p := Part(rows, s);
    if row in p {
      var k :| 0 <= k < |p| && p[k] == row;
      assert rows[s.lo + k] == row;
    }
    if x :| s.lo <= x < s.hi && rows[x] == row { assert p[x - s.lo] == row; }
  }

  lemma HitSnoc(w: seq<Slice>, x: nat)
    requires w != []
    ensures Hit(w, x) <==> Hit(w[..|w| - 1], x) || w[|w| - 1].lo <= x < w[|w| - 1].hi
  {
    var n := |w| - 1;
    if Hit(w, x) {
      var k :| 0 <= k < |w| && w[k].lo <= x < w[k].hi;
      assert k < n ==> w[..n][k] == w[k];
    }
    if Hit(w[..n], x) {
      var k :| 0 <= k < n && w[..n][k].lo <= x < w[..n][k].hi;
      assert w[k].lo <= x < w[k].hi;
    }
  }

  // ---- ordering and the limit -----------------------------------------

  predicate Before(r: Row, e: Row) {
    r.day < e.day || (r.day == e.day && r.time <= e.time)
  }

  predicate Ascending(rows: seq<Row>) {
    forall x :: 0 < x < |rows| ==> Before(rows[x - 1], rows[x])
  }

  function Insert(rows: seq<Row>, r: Row): (res: seq<Row>)
    ensures |res| == |rows| + 1
    ensures res[|rows|] == r || (rows != [] && res[|rows|] == rows[|rows| - 1])
  {
    if rows == [] then [r]
    else
      var n := |rows| - 1;
      if Before(rows[n], r) then rows + [r] else Insert(rows[..n], r) + [rows[n]]
  }

  lemma {:induction false} InsertMeans(rows: seq<Row>, r: Row)
    requires Ascending(rows)
    ensures Ascending(Insert(rows, r)) && multiset(Insert(rows, r)) == multiset(rows) + multiset{r}
  {
    if rows != [] {
      var n := |rows| - 1;
      assert rows == rows[..n] + [rows[n]];
      if !Before(rows[n], r) { InsertMeans(rows[..n], r); }
    }
  }

  /** By date and time, ties in the order they came. */
  function Sorted(rows: seq<Row>): seq<Row> {
    if rows == [] then [] else Insert(Sorted(rows[..|rows| - 1]), rows[|rows| - 1])
  }

  lemma {:induction false} SortedMeans(rows: seq<Row>)
    ensures Ascending(Sorted(rows)) && multiset(Sorted(rows)) == multiset(rows)
  {
    if rows != [] {
      var n := |rows| - 1;
      assert rows == rows[..n] + [rows[n]];
      SortedMeans(rows[..n]);
      InsertMeans(Sorted(rows[..n]), rows[n]);
    }
  }

  /** `rows[:limit]`, a missing or zero limit meaning all. */
  function Limited(rows: seq<Row>, limit: Option<int>): seq<Row> {
    if limit.None? || limit.value == 0 then rows
    else if limit.value > 0 then rows[..Min(limit.value, |rows|)]
    else rows[..Max(|rows| + limit.value)]
  }

  /** What a limit leaves: everything if there is none or it is zero, the first so
      many rows if it is positive, and all but the last so many if it is negative. */
  ghost predicate Kept(answer: seq<Row>, all: seq<Row>, limit: Option<int>) {
    && answer <= all
    && (limit.None? || limit == Some(0) ==> answer == all)
    && (limit.Some? && limit.value > 0 ==> |answer| == if limit.value < |all| then limit.value else |all|)
    && (limit.Some? && limit.value < 0 ==> |answer| == if -limit.value < |all| then |all| + limit.value else 0)
  }

  lemma LimitedMeans(rows: seq<Row>, limit: Option<int>)
    ensures Kept(Limited(rows, limit), rows, limit)
  {
  }

  /** The rows of one date and time, in their order. */
  function Alike(rows: seq<Row>, day: int, time: int): seq<Row> {
    if rows == [] then []
    else
      var n := |rows| - 1;
      Alike(rows[..n], day, time) + if rows[n].day == day && rows[n].time == time then [rows[n]] else []
  }

  lemma {:induction false} InsertStable(rows: seq<Row>, r: Row, day: int, time: int)
    requires Ascending(rows)
    ensures Alike(Insert(rows, r), day, time)
         == Alike(rows, day, time) + if r.day == day && r.time == time then [r] else []
  {
    if rows != [] {
      var n := |rows| - 1;
      if Before(rows[n], r) {
        assert (rows + [r])[..|rows|] == rows;
      } else {
        InsertStable(rows[..n], r, day, time);
        var v := Insert(rows[..n], r) + [rows[n]];
        assert v[..|v| - 1] == Insert(rows[..n], r);
      }
    }
  }

  /** Sorting leaves rows of one date and time in the order they came. */
  lemma {:induction false} SortedStable(rows: seq<Row>, day: int, time: int)
    ensures Alike(Sorted(rows), day, time) == Alike(rows, day, time)
  {
    if rows != [] {
      var n := |rows| - 1;
      SortedStable(rows[..n], day, time);
      SortedMeans(rows[..n]);
      InsertStable(Sorted(rows[..n]), rows[n], day, time);
    }
  }

  /** Earlier dates first, and earlier times within a date. */
  ghost predicate Chronological(rows: seq<Row>) {
    forall x, y :: 0 <= x < y < |rows| ==>
      rows[x].day < rows[y].day || (rows[x].day == rows[y].day && rows[x].time <= rows[y].time)
  }

  lemma {:induction false} AscendingOrder(rows: seq<Row>)
    requires Ascending(rows)
    ensures Chronological(rows)
  {
    if rows != [] {
      var n := |rows| - 1;
      AscendingOrder(rows[..n]);
      forall x | 0 <= x < n
        ensures rows[x].day < rows[n].day || (rows[x].day == rows[n].day && rows[x].time <= rows[n].time)
      {
        assert Before(rows[n - 1], rows[n]) && rows[..n][x] == rows[x] && rows[..n][n - 1] == rows[n - 1];
      }
      forall x, y | 0 <= x < y < n
        ensures rows[x].day < rows[y].day || (rows[x].day == rows[y].day && rows[x].time <= rows[y].time)
      {
        assert rows[..n][x] == rows[x] && rows[..n][y] == rows[y];
      }
    }
  }

  /** The rows of the range, if nothing limits the answer: in order, only they, each
      as often as it is there if every day has fewer than a thousand, or the walk
      is exact, and at least as often if no day has an exact multiple of a
      thousand, or the walk loses nothing. */
  ghost predicate WholeAnswer(answer: seq<Row>, rows: seq<Row>, to: Option<int>)
    requires Descending(rows)
  {
    var i := Start(rows, to);
    && Chronological(answer)
    && (AllDays(rows, i, n => n < 1000) || Exactly(rows, i, 1000) ==> multiset(answer) == multiset(rows[i..]))
    && (AllDays(rows, i, n => n % 1000 != 0) || Lossless(rows, i, |rows|, 1000) ==>
        multiset(rows[i..]) <= multiset(answer))
    && forall row :: row in answer ==> row in rows && (to.Some? ==> row.day <= to.value)
  }

  /** The rows of a page newer than `day`. */
  function Newer(page: seq<Row>, day: int): seq<Row> {
    if page == [] then [] else (if page[0].day > day then [page[0]] else []) + Newer(page[1..], day)
  }

  lemma {:induction false} NewerMeans(rows: seq<Row>, a: nat, b: nat, day: int)
    requires Descending(rows) && a <= b <= |rows| && First(rows, day) <= b
    ensures Newer(rows[a..b], day) == if a <= First(rows, day) then rows[a..First(rows, day)] else []
    decreases b - a
  {
    hide First, Descending;
    if a < b {
      assert rows[a..b][1..] == rows[a + 1..b];
      NewerMeans(rows, a + 1, b, day);
    }
  }

  /** One request of the walk done: its piece is `w[k]`. */
  lemma Advance(rows: seq<Row>, w: seq<Slice>, k: nat, p: Spot)
    requires Descending(rows) && DayStart(rows, p.i) && k < |w| && w[k..] == Walk(rows, p, PAGE_LIMIT)
    ensures var c := Piece(rows, p, PAGE_LIMIT);
            && Collect(rows, w[..k + 1]) == Collect(rows, w[..k]) + Part(rows, c)
            && match Next(rows, p, PAGE_LIMIT)
               case None => k + 1 == |w|
               case Some(q) => k + 1 < |w| && w[k + 1..] == Walk(rows, q, PAGE_LIMIT)
  {
    hide Descending, Piece, Next, DayStart;
    assert w[k] == w[k..][0] && w[k + 1..] == w[k..][1..];
    assert w[..k + 1][..k] == w[..k];
  }

  /** The window walk. `refused(k)` says whether the server answers the request
      numbered `k` with an error message instead of rows. */
  method FetchWindowed(rows: seq<Row>, to: Option<int>, limit: Option<int>, refused: nat -> bool)
      returns (r: Result<seq<Row>>, warned: bool)
    requires Descending(rows)
    ensures var w := Asked(rows, to);
            var n: nat := if |w| < 20 then |w| else 20;
            && (r == Err(Unauthorized) <==> exists k: nat :: k < n && refused(k))
            && (r == Err(EmptyData) <==> !refused(0) && Start(rows, to) == |rows|)
            && (r.Ok? ==> (warned <==> |w| > 20) && Kept(r.value, Sorted(Collect(rows, w[..n])), limit))
            && (r.Ok? && !warned && (limit.None? || limit == Some(0)) ==> WholeAnswer(r.value, rows, to))
  {
    hide Descending, First, DayEnd, Start, Walk, Collect, Piece, Next, Part, Sorted, Limited, Page, Newer, WholeAnswer;
    var curTo := to;
    var collected: seq<Row> := [];
    var offset := 0;
    var pagingDay: Option<int> := None;
    var requests := 0;
    warned := false;
    ghost var w := Asked(rows, to);
    ghost var p := Fresh(Start(rows, to));
    StartsDay(rows, to);
    FirstAnswer(rows, to);
    while true
      invariant requests <= MAX_REQUESTS && requests < |w|
      invariant p.i == Start(rows, curTo) && DayStart(rows, p.i) && p.offset == offset
      invariant p.paging == pagingDay.Some?
      invariant pagingDay.Some? ==> p.i < |rows| && pagingDay.value == rows[p.i].day
      invariant w[requests..] == Walk(rows, p, PAGE_LIMIT)
      invariant collected == Collect(rows, w[..requests])
      invariant forall k: nat :: k < requests ==> !refused(k)
      invariant if requests == 0 then collected == [] && p == Fresh(Start(rows, to))
                else collected != [] && Start(rows, to) < |rows|
      decreases |w| - requests
    {
      if requests >= MAX_REQUESTS {
        warned := true;
        break;
      }
      requests := requests + 1;
      if refused(requests - 1) { return Err(Unauthorized), false; }
      Advance(rows, w, requests - 1, p);
      PageOf(rows, curTo, p);
      var page := Page(rows, curTo, offset, PAGE_LIMIT);
      if page == [] {
        if collected == [] { return Err(EmptyData), false; }
        assert collected + [] == collected;
        break;
      }
      if |page| < PAGE_LIMIT {
        collected := collected + page;
        if pagingDay.None? { break; }
        p := Fresh(DayEnd(rows, p.i));
        curTo := Some(pagingDay.value - 1);
        offset := 0;
        pagingDay := None;
      } else {
        var earliest, latest := page[|page| - 1].day, page[0].day;
        if earliest == latest {
          collected := collected + page;
          offset := offset + PAGE_LIMIT;
          pagingDay := Some(earliest);
          p := Spot(First(rows, earliest), offset, true);
        } else {
          collected := collected + Newer(page, earliest);
          p := Fresh(First(rows, earliest));
          offset := 0;
          pagingDay := None;
        }
        curTo := Some(earliest);
      }
    }
    assert requests == if |w| < 20 then |w| else 20;
    LimitedMeans(Sorted(collected), limit);
    if !warned {
      assert w[..requests] == w;
      AnswerMeans(rows, to);
    }
    return Ok(Limited(Sorted(collected), limit)), warned;
  }

  lemma FirstAnswer(rows: seq<Row>, to: Option<int>)
    requires Descending(rows)
    ensures Asked(rows, to)[0..] == Walk(rows, Fresh(Start(rows, to)), PAGE_LIMIT)
    ensures Collect(rows, Asked(rows, to)[..0]) == []
  {
  }

  /** What the page says of the request's piece and the request after it. */
  lemma PageOf(rows: seq<Row>, to: Option<int>, p: Spot)
    requires Descending(rows) && p.i == Start(rows, to) && DayStart(rows, p.i)
    ensures var page := Page(rows, to, p.offset, PAGE_LIMIT);
            var c := Piece(rows, p, PAGE_LIMIT);
            && |page| <= PAGE_LIMIT
            && (p.i < |rows| ==> Start(rows, Some(rows[p.i].day - 1)) == DayEnd(rows, p.i))
            && (page == [] <==> p.i + p.offset >= |rows|)
            && (page != [] ==> Part(rows, c) != [])
            && (page == [] ==> Part(rows, c) == [] && Next(rows, p, PAGE_LIMIT) == None)
            && (0 < |page| < PAGE_LIMIT ==>
                  p.i < |rows| && Part(rows, c) == page
                  && Next(rows, p, PAGE_LIMIT) == if p.paging then Some(Fresh(DayEnd(rows, p.i))) else None)
            && (|page| == PAGE_LIMIT ==>
                  var e := page[|page| - 1].day;
                  var s := First(rows, e);
                  && s < |rows| && DayStart(rows, s) && Start(rows, Some(e)) == s
                  && if page[0].day == e
                     then rows[s].day == e && Part(rows, c) == page
                          && Next(rows, p, PAGE_LIMIT) == Some(Spot(s, p.offset + PAGE_LIMIT, true))
                     else Part(rows, c) == Newer(page, e) && Next(rows, p, PAGE_LIMIT) == Some(Fresh(s)))
  {
    hide Descending, First, DayEnd, DayStart, Newer;
    var a := p.i + p.offset;
    if a + PAGE_LIMIT <= |rows| {
      FullPageOf(rows, p);
    } else {
      ShortPageOf(rows, p);
    }
    DayBefore(rows, p.i);
    hide Piece, Next, Part;
  }

  lemma ShortPageOf(rows: seq<Row>, p: Spot)
    requires Descending(rows) && DayStart(rows, p.i) && p.i + p.offset + PAGE_LIMIT > |rows|
    ensures var a := p.i + p.offset;
            var c := Piece(rows, p, PAGE_LIMIT);
            && Part(rows, c) == (if a < |rows| then rows[a..] else [])
            && Next(rows, p, PAGE_LIMIT) == if a < |rows| && p.paging then Some(Fresh(DayEnd(rows, p.i))) else None
  {
    hide Descending, First, DayEnd;
  }

  lemma DayBefore(rows: seq<Row>, i: nat)
    requires Descending(rows)
    ensures i < |rows| ==> Start(rows, Some(rows[i].day - 1)) == DayEnd(rows, i)
  {
  }

  lemma FullPageOf(rows: seq<Row>, p: Spot)
    requires Descending(rows) && DayStart(rows, p.i) && p.i + p.offset + PAGE_LIMIT <= |rows|
    ensures var a := p.i + p.offset;
            var b := a + PAGE_LIMIT;
            var e := rows[b - 1].day;
            var s := First(rows, e);
            var c := Piece(rows, p, PAGE_LIMIT);
            && s < |rows| && DayStart(rows, s)
            && if rows[a].day == e
               then rows[s].day == e && c == Slice(a, b)
                    && Next(rows, p, PAGE_LIMIT) == Some(Spot(s, p.offset + PAGE_LIMIT, true))
               else a <= c.lo < c.hi <= |rows| && rows[c.lo..c.hi] == Newer(rows[a..b], e)
                    && Next(rows, p, PAGE_LIMIT) == Some(Fresh(s))
  {
    hide Descending, First, Newer, DayEnd, Start, DayStart, Page;
    var a := p.i + p.offset;
    var b := a + PAGE_LIMIT;
    var e := rows[b - 1].day;
    LastDay(rows, a, b);
    NewerMeans(rows, a, b, e);
    var s := First(rows, e);
    assert Piece(rows, p, PAGE_LIMIT) == if rows[a].day == e then Slice(a, b) else Slice(a, s);
  }

  /** Where the day of a page's last row begins. */
  lemma LastDay(rows: seq<Row>, a: nat, b: nat)
    requires Descending(rows) && a < b <= |rows|
    ensures var e := rows[b - 1].day;
            var s := First(rows, e);
            s < b && DayStart(rows, s) && rows[s].day == e && (rows[a].day == e <==> s <= a)
  {
    hide First;
    var e := rows[b - 1].day;
    var s := First(rows, e);
    assert s <= b - 1 && (s > 0 ==> rows[s - 1].day > e);
  }

  /** Budget permitting, that is what the ordered collection is. */
  lemma AnswerMeans(rows: seq<Row>, to: Option<int>)
    requires Descending(rows)
    ensures WholeAnswer(Sorted(Collect(rows, Asked(rows, to))), rows, to)
  {
    hide Descending, Start, AllDays, Walk, Collect, Sorted, Exactly, Lossless, Hit, DayStart, InRange, Chronological;
    var i := Start(rows, to);
    var w := Asked(rows, to);
    var answer := Sorted(Collect(rows, w));
    SortedMeans(Collect(rows, w));
    AscendingOrder(answer);
    StartsDay(rows, to);
    if AllDays(rows, i, n => n < PAGE_LIMIT) { SmallDays(rows, i, PAGE_LIMIT); }
    if AllDays(rows, i, n => n % PAGE_LIMIT != 0) { NoMultiples(rows, i, |rows|, PAGE_LIMIT); }
    ExactIff(rows, to);
    LosslessIff(rows, to);
    WalkInRange(rows, Fresh(i), PAGE_LIMIT);
    if HitsAll(w, i, |rows|) { HitsCount(rows, w, i); }
    forall row | row in answer ensures row in rows && (to.Some? ==> row.day <= to.value) {
      CollectMeans(rows, w, i, row);
      SameRows(answer, Collect(rows, w), row);
      RangeMeans(rows, w, i, row);
      FromStart(rows, to, row);
    }
  }

  lemma FromStart(rows: seq<Row>, to: Option<int>, row: Row)
    requires Descending(rows) && row in rows[Start(rows, to)..]
    ensures row in rows && (to.Some? ==> row.day <= to.value)
  {
    var i := Start(rows, to);
    var x :| 0 <= x < |rows| - i && rows[i..][x] == row;
    assert rows[i + x] == row;
  }

  lemma SameRows(a: seq<Row>, b: seq<Row>, row: Row)
    requires multiset(a) == multiset(b)
    ensures row in a <==> row in b
  {
    assert row in a <==> row in multiset(a);
    assert row in b <==> row in multiset(b);
  }

  lemma RangeMeans(rows: seq<Row>, w: seq<Slice>, i: nat, row: Row)
    requires i <= |rows|
    ensures (exists x :: i <= x < |rows| && rows[x] == row && Hit(w, x)) ==> row in rows[i..]
  {
    hide Hit;
    if x :| i <= x < |rows| && rows[x] == row && Hit(w, x) { assert rows[i..][x - i] == row; }
  }

  /** Where a row occurs. */
  function Places(rows: seq<Row>, lo: nat, hi: nat, row: Row): set<nat>
    requires hi <= |rows|
  {
    set x: nat | lo <= x < hi && rows[x] == row
  }

  lemma {:induction false} PlacesCount(rows: seq<Row>, lo: nat, hi: nat, row: Row)
    requires lo <= hi <= |rows|
    ensures |Places(rows, lo, hi, row)| == multiset(rows[lo..hi])[row]
    decreases hi - lo
  {
    if lo == hi {
      assert Places(rows, lo, hi, row) == {} && rows[lo..hi] == [];
    } else {
      PlacesCount(rows, lo, hi - 1, row);
      assert rows[lo..hi] == rows[lo..hi - 1] + [rows[hi - 1]];
      var before := Places(rows, lo, hi - 1, row);
      assert Places(rows, lo, hi, row) == if rows[hi - 1] == row then before + {hi - 1} else before;
    }
  }

  /** The places of a row that pieces take. */
  function Taken(rows: seq<Row>, w: seq<Slice>, lo: nat, row: Row): set<nat> {
    set x: nat | lo <= x < |rows| && rows[x] == row && Hit(w, x)
  }

  /** A row is collected at least as often as it has places that are taken. */
  lemma {:induction false} TakenCount(rows: seq<Row>, w: seq<Slice>, lo: nat, row: Row)
    requires InRange(w, lo, |rows|)
    ensures |Taken(rows, w, lo, row)| <= multiset(Collect(rows, w))[row]
  {
    hide Hit;
    if w == [] {
      assert Taken(rows, w, lo, row) == {} by { NoHit(); }
    } else {
      var n := |w| - 1;
      TakenCount(rows, w[..n], lo, row);
      CollectSnoc(rows, w);
      PlacesCount(rows, w[n].lo, w[n].hi, row);
      forall x: nat { HitSnoc(w, x); }
      var before, here := Taken(rows, w[..n], lo, row), Places(rows, w[n].lo, w[n].hi, row);
      assert Taken(rows, w, lo, row) <= before + here;
      Fewer(Taken(rows, w, lo, row), before + here);
      Fewer(before + here - before, here);
      assert before + here == before + (before + here - before);
    }
  }

  lemma NoHit()
    ensures forall x: nat :: !Hit([], x)
  {
  }

  lemma {:induction false} Fewer(a: set<nat>, b: set<nat>)
    requires a <= b
    ensures |a| <= |b|
  {
    assert b == a + (b - a);
  }

  lemma HitsCount(rows: seq<Row>, w: seq<Slice>, i: nat)
    requires i <= |rows| && InRange(w, i, |rows|) && HitsAll(w, i, |rows|)
    ensures multiset(rows[i..]) <= multiset(Collect(rows, w))
  {
    hide Hit, Collect;
    forall row ensures multiset(rows[i..])[row] <= multiset(Collect(rows, w))[row] {
      TakenCount(rows, w, i, row);
      PlacesCount(rows, i, |rows|, row);
      assert rows[i..|rows|] == rows[i..];
      assert Places(rows, i, |rows|, row) == Taken(rows, w, i, row);
    }
  }
}
