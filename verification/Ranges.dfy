/** Date-range arithmetic of the read-through cache (kdb-store/kdb_store/ranges.py).

    Times are integers (seconds since the epoch); both ends of a range are
    inclusive. A bar grid is the set of multiples of one positive `step`. */
module Ranges {
  import opened Options

  datatype Range = Range(lo: int, hi: int)

  /** `t` is a bar stamp of the grid. */
  predicate On(t: int, step: int)
    requires step > 0
  {
    t % step == 0
  }

  predicate In(t: int, r: Range) {
    r.lo <= t <= r.hi
  }

  predicate Covered(rs: seq<Range>, t: int) {
    rs != [] && (In(t, rs[|rs| - 1]) || Covered(rs[..|rs| - 1], t))
  }

  predicate AllOn(rs: seq<Range>, step: int)
    requires step > 0
  {
    forall i :: 0 <= i < |rs| ==> On(rs[i].lo, step) && On(rs[i].hi, step)
  }

  predicate AllProper(rs: seq<Range>) {
    forall i :: 0 <= i < |rs| ==> rs[i].lo <= rs[i].hi
  }

  /** The ranges come in order, with more than one bar between any two. */
  predicate Separated(rs: seq<Range>, step: int) {
    forall i, j :: 0 <= i < j < |rs| ==> rs[i].hi + step < rs[j].lo && rs[i].lo <= rs[j].lo
  }

  /** The same bar stamps lie in both lists. */
  ghost predicate SameStamps(a: seq<Range>, b: seq<Range>, step: int)
    requires step > 0
  {
    forall t :: On(t, step) ==> (Covered(a, t) <==> Covered(b, t))
  }

  lemma CoveredSnoc(rs: seq<Range>, r: Range, t: int)
    ensures Covered(rs + [r], t) <==> Covered(rs, t) || In(t, r)
  {
    assert (rs + [r])[..|rs|] == rs;
  }

  lemma {:induction false} CoverIntro(rs: seq<Range>, k: nat, t: int)
    requires k < |rs| && In(t, rs[k])
    ensures Covered(rs, t)
  {
    if k < |rs| - 1 { CoverIntro(rs[..|rs| - 1], k, t); }
  }

  lemma {:induction false} CoverElim(rs: seq<Range>, t: int) returns (k: nat)
    requires Covered(rs, t)
    ensures k < |rs| && In(t, rs[k])
  {
    if In(t, rs[|rs| - 1]) { k := |rs| - 1; } else { k := CoverElim(rs[..|rs| - 1], t); }
  }

  /** The newest bar stamp at or before `t`. */
  function Floor(t: int, step: int): (f: int)
    requires step > 0
    ensures On(f, step) && f <= t < f + step
  {
    assert t - t % step == step * (t / step);
    GridNeighbours(t - t % step, step, t / step);
    t - t % step
  }

  /** A multiple of `step` in [0, step) is 0. */
  lemma SmallMultiple(step: int, d: int, r: int)
    requires 0 <= r < step && r == step * d
    ensures r == 0
  {
    assert d >= 1 ==> step * (d - 1) >= 0;
    assert d <= -1 ==> step * (d + 1) <= 0;
  }

  lemma MulMod(k: int, step: int)
    requires step > 0
    ensures On(step * k, step)
  {
    var t := step * k;
    var q, r := t / step, t % step;
    assert t == step * q + r;
    assert step * (k - q) == step * k - step * q;
    SmallMultiple(step, k - q, r);
  }

  lemma GridNeighbours(a: int, step: int, k: int)
    requires step > 0 && a == step * k
    ensures On(a, step) && On(a + step, step) && On(a - step, step)
  {
    hide On;
    MulMod(k, step);
    MulMod(k + 1, step);
    MulMod(k - 1, step);
    assert a + step == step * (k + 1) && a - step == step * (k - 1);
  }

  lemma GridStep(a: int, step: int)
    requires step > 0 && On(a, step)
    ensures On(a + step, step) && On(a - step, step)
  {
    assert a == step * (a / step);
    GridNeighbours(a, step, a / step);
  }

  /** Two different bar stamps are at least one bar apart. */
  lemma GridGap(a: int, b: int, step: int)
    requires step > 0 && On(a, step) && On(b, step) && a < b
    ensures a + step <= b
  {
    var i, j := a / step, b / step;
    assert a == step * i && b == step * j;
    Apart(step, i, j);
  }

  lemma Apart(step: int, i: int, j: int)
    requires step > 0 && step * i < step * j
    ensures step * i + step <= step * j
  {
    var d := j - i;
    assert step * d == step * j - step * i;
    assert d <= 0 ==> step * d <= 0;
    assert step * (d - 1) >= 0;
  }

  lemma FloorOn(t: int, step: int)
    requires step > 0
    ensures On(t, step) <==> Floor(t, step) == t
    ensures On(Floor(t, step) + step, step)
  {
    hide On, Floor;
    GridStep(Floor(t, step), step);
    if On(t, step) && Floor(t, step) < t { GridGap(Floor(t, step), t, step); }
  }

  // ---- sorted() -------------------------------------------------------

  predicate Before(a: Range, b: Range) {
    a.lo < b.lo || (a.lo == b.lo && a.hi <= b.hi)
  }

  function Insert(r: Range, rs: seq<Range>): (out: seq<Range>)
    ensures |out| == |rs| + 1
  {
    var n := |rs| - 1;
    if rs == [] || Before(rs[n], r) then rs + [r] else Insert(r, rs[..n]) + [rs[n]]
  }

  function Sort(rs: seq<Range>): (out: seq<Range>)
    ensures |out| == |rs|
  {
    if rs == [] then [] else Insert(rs[|rs| - 1], Sort(rs[..|rs| - 1]))
  }

  predicate Ascending(rs: seq<Range>) {
    forall i, j :: 0 <= i < j < |rs| ==> rs[i].lo <= rs[j].lo
  }

  lemma {:induction false} InsertFacts(r: Range, rs: seq<Range>, step: int)
    requires Ascending(rs)
    ensures Ascending(Insert(r, rs))
    ensures rs != [] ==> Insert(r, rs)[|rs|].lo >= rs[|rs| - 1].lo && (Insert(r, rs)[|rs|] in {r, rs[|rs| - 1]})
    ensures AllProper(rs) && r.lo <= r.hi ==> AllProper(Insert(r, rs))
    ensures step > 0 && AllOn(rs, step) && On(r.lo, step) && On(r.hi, step) ==> AllOn(Insert(r, rs), step)
    ensures forall t :: Covered(Insert(r, rs), t) <==> Covered(rs, t) || In(t, r)
  {
    hide On, Covered;
    var n := |rs| - 1;
    if rs == [] || Before(rs[n], r) {
      forall t { CoveredSnoc(rs, r, t); }
    } else {
      InsertFacts(r, rs[..n], step);
      assert rs[..n] + [rs[n]] == rs;
      forall t ensures Covered(Insert(r, rs), t) <==> Covered(rs, t) || In(t, r) {
        CoveredSnoc(Insert(r, rs[..n]), rs[n], t);
        CoveredSnoc(rs[..n], rs[n], t);
      }
    }
  }

  lemma {:induction false} SortFacts(rs: seq<Range>, step: int)
    ensures Ascending(Sort(rs))
    ensures forall t :: Covered(Sort(rs), t) <==> Covered(rs, t)
    ensures AllProper(rs) ==> AllProper(Sort(rs))
    ensures step > 0 && AllOn(rs, step) ==> AllOn(Sort(rs), step)
  {
    if rs != [] {
      hide Covered, On, Insert, Ascending, AllProper, AllOn;
      var front, last := rs[..|rs| - 1], rs[|rs| - 1];
      SortFacts(front, step);
      InsertFacts(last, Sort(front), step);
      FrontShape(rs, step);
      assert Sort(rs) == Insert(last, Sort(front)) && rs == front + [last];
      hide Sort;
      forall t ensures Covered(Sort(rs), t) <==> Covered(rs, t) { CoveredSnoc(front, last, t); }
    }
  }

  lemma FrontShape(rs: seq<Range>, step: int)
    requires rs != []
    ensures var n := |rs| - 1;
            && (AllProper(rs) ==> AllProper(rs[..n]) && rs[n].lo <= rs[n].hi)
            && (step > 0 && AllOn(rs, step) ==> AllOn(rs[..n], step) && On(rs[n].lo, step) && On(rs[n].hi, step))
  {
    hide On;
  }

  // ---- coalesce -------------------------------------------------------

  function Merge(last: Range, r: Range): Range {
    Range(last.lo, if last.hi >= r.hi then last.hi else r.hi)
  }

  /** Folding one range into the last block changes no stamp, when the range
      starts no earlier than the block and within one bar of its end. */
  lemma MergeStamps(last: Range, r: Range, step: int, t: int)
    requires step > 0 && On(t, step) && On(last.hi, step) && On(r.lo, step)
    requires On(last.lo, step) && On(r.hi, step)
    requires last.lo <= r.lo && r.lo - step <= last.hi
    ensures In(t, Merge(last, r)) <==> In(t, last) || In(t, r)
  {
    hide On;
    if last.hi < t < r.lo {
      GridGap(last.hi, t, step);
    }
    if last.hi < last.lo <= t {
      GridGap(last.hi, last.lo, step);
    }
  }

  lemma MergedCovers(rs: seq<Range>, r: Range, step: int)
    requires rs != [] && step >= 0
    requires var last := rs[|rs| - 1]; last.lo <= r.lo && r.lo - step <= last.hi
    ensures var n := |rs| - 1; var out := rs[..n] + [Merge(rs[n], r)];
            && (forall t :: Covered(rs, t) || In(t, r) ==> Covered(out, t))
            && (step > 0 && AllOn(rs, step) && On(r.lo, step) && On(r.hi, step) ==>
                  AllOn(out, step) && forall t :: On(t, step) ==> (Covered(out, t) <==> Covered(rs, t) || In(t, r)))
  {
    hide On, Covered;
    var n := |rs| - 1;
    var front, last := rs[..n], rs[n];
    assert rs == front + [last];
    forall t { CoveredSnoc(front, last, t); }
    forall t { CoveredSnoc(front, Merge(last, r), t); }
    if step > 0 && AllOn(rs, step) && On(r.lo, step) && On(r.hi, step) {
      forall t | On(t, step) { MergeStamps(last, r, step, t); }
    }
  }

  /** Loop state of `Coalesce`: the blocks of the ranges seen so far. */
  ghost predicate Coalesced(out: seq<Range>, seen: seq<Range>, step: int)
    requires step >= 0
  {
    && out != [] && seen != [] && Separated(out, step)
    && out[|out| - 1].lo <= seen[|seen| - 1].lo
    && (AllProper(seen) ==> AllProper(out))
    && (forall t :: Covered(seen, t) ==> Covered(out, t))
    && (step > 0 && AllOn(seen, step) ==> AllOn(out, step) && SameStamps(out, seen, step))
  }

  lemma CoalesceMerge(out: seq<Range>, seen: seq<Range>, r: Range, step: int)
    requires step >= 0 && Coalesced(out, seen, step) && seen[|seen| - 1].lo <= r.lo
    requires r.lo - step <= out[|out| - 1].hi
    ensures Coalesced(out[..|out| - 1] + [Merge(out[|out| - 1], r)], seen + [r], step)
  {
    hide On, Covered;
    var seen' := seen + [r];
    MergedCovers(out, r, step);
    forall t { CoveredSnoc(seen, r, t); }
    if AllProper(seen') { assert forall i :: 0 <= i < |seen| ==> seen'[i] == seen[i]; assert seen'[|seen|] == r; }
    if step > 0 && AllOn(seen', step) {
      assert forall i :: 0 <= i < |seen| ==> seen'[i] == seen[i];
      assert seen'[|seen|] == r;
      assert AllOn(seen, step);
    }
  }

  lemma CoalesceAppend(out: seq<Range>, seen: seq<Range>, r: Range, step: int)
    requires step >= 0 && Coalesced(out, seen, step) && seen[|seen| - 1].lo <= r.lo
    requires r.lo - step > out[|out| - 1].hi
    ensures Coalesced(out + [r], seen + [r], step)
  {
    hide On, Covered;
    var seen' := seen + [r];
    forall t { CoveredSnoc(seen, r, t); }
    forall t { CoveredSnoc(out, r, t); }
    assert forall i :: 0 <= i < |seen| ==> seen'[i] == seen[i];
    assert seen'[|seen|] == r;
    assert AllProper(seen') ==> AllProper(seen);
    assert step > 0 && AllOn(seen', step) ==> AllOn(seen, step);
  }

  lemma CoalesceFirst(r: Range, step: int)
    requires step >= 0
    ensures Coalesced([r], [r], step)
  {
  }

  method Coalesce(ranges: seq<Range>, step: int) returns (out: seq<Range>)
    requires step >= 0
    ensures Separated(out, step)
    ensures forall t :: Covered(ranges, t) ==> Covered(out, t)
    ensures AllProper(ranges) ==> AllProper(out)
    ensures step > 0 && AllOn(ranges, step) ==> AllOn(out, step) && SameStamps(out, ranges, step)
  {
    if ranges == [] { return []; }
    var ordered := Sort(ranges);
    hide *;
    SortFacts(ranges, step);
    CoalesceFirst(ordered[0], step);
    out := [ordered[0]];
    var i := 1;
    assert ordered[..1] == [ordered[0]];
    while i < |ordered|
      invariant 1 <= i <= |ordered|
      invariant out != [] && Coalesced(out, ordered[..i], step)
    {
      var r, last := ordered[i], out[|out| - 1];
      assert ordered[..i + 1] == ordered[..i] + [r];
      AscendingAt(ordered, i);
      if r.lo - step <= last.hi {
        CoalesceMerge(out, ordered[..i], r, step);
        out := out[..|out| - 1] + [Merge(last, r)];
      } else {
        CoalesceAppend(out, ordered[..i], r, step);
        out := out + [r];
      }
      i := i + 1;
    }
    assert ordered[..|ordered|] == ordered;
    CoalescedMeans(out, ranges, step);
  }

  lemma AscendingAt(rs: seq<Range>, i: nat)
    requires Ascending(rs) && 0 < i < |rs|
    ensures rs[i - 1].lo <= rs[i].lo
  {
  }

  lemma CoalescedMeans(out: seq<Range>, ranges: seq<Range>, step: int)
    requires step >= 0 && Coalesced(out, Sort(ranges), step)
    ensures Separated(out, step) && (AllProper(ranges) ==> AllProper(out))
    ensures forall t :: Covered(ranges, t) ==> Covered(out, t)
    ensures step > 0 && AllOn(ranges, step) ==> AllOn(out, step) && SameStamps(out, ranges, step)
  {
    hide On, Covered, Sort;
    SortFacts(ranges, step);
  }

  /** Sorted, separated blocks of bars are a canonical form: two such lists
      that hold the same stamps are the same list. */
  lemma {:induction false} CanonicalForm(a: seq<Range>, b: seq<Range>, step: int)
    requires step > 0
    requires AllOn(a, step) && AllOn(b, step) && AllProper(a) && AllProper(b)
    requires Separated(a, step) && Separated(b, step) && SameStamps(a, b, step)
    ensures a == b
  {
    hide On, Covered;
    if a == [] {
      if b != [] { CoverIntro(b, 0, b[0].lo); CoveredEmpty(b[0].lo); }
    } else if b == [] {
      CoverIntro(a, 0, a[0].lo); CoveredEmpty(a[0].lo);
    } else {
      FirstBlock(a, b, step);
      FirstBlock(b, a, step);
      forall t ensures Covered(a[1..], t) <==> Covered(a, t) && t > a[0].hi { TailStamps(a, step, t); }
      forall t ensures Covered(b[1..], t) <==> Covered(b, t) && t > b[0].hi { TailStamps(b, step, t); }
      CanonicalForm(a[1..], b[1..], step);
      assert a == [a[0]] + a[1..] && b == [b[0]] + b[1..];
    }
  }

  lemma CoveredEmpty(t: int)
    ensures !Covered([], t)
  {
  }

  /** The first block of `b` starts no later and ends no later than that of `a`. */
  lemma FirstBlock(a: seq<Range>, b: seq<Range>, step: int)
    requires step > 0 && a != [] && b != []
    requires AllOn(a, step) && AllOn(b, step) && AllProper(a) && AllProper(b)
    requires Separated(a, step) && Separated(b, step) && SameStamps(a, b, step)
    ensures b[0].lo <= a[0].lo && (a[0].lo == b[0].lo ==> b[0].hi <= a[0].hi)
  {
    hide On, Covered;
    CoverIntro(a, 0, a[0].lo);
    var k := CoverElim(b, a[0].lo);
    assert b[0].lo <= b[k].lo;
    if a[0].lo == b[0].lo && b[0].hi > a[0].hi {
      GridStep(a[0].hi, step);
      var t := a[0].hi + step;
      GridGap(a[0].hi, b[0].hi, step);
      CoverIntro(b, 0, t);
      var m := CoverElim(a, t);
    }
  }

  lemma TailStamps(a: seq<Range>, step: int, t: int)
    requires step > 0 && a != [] && AllProper(a) && Separated(a, step)
    ensures Covered(a[1..], t) <==> Covered(a, t) && t > a[0].hi
  {
    hide Covered;
    if Covered(a[1..], t) {
      var k := CoverElim(a[1..], t);
      CoverIntro(a, k + 1, t);
    }
    if Covered(a, t) && t > a[0].hi {
      var k := CoverElim(a, t);
      CoverIntro(a[1..], k - 1, t);
    }
  }

  // ---- subtract -------------------------------------------------------

  function ProperOnly(gaps: seq<Range>): (out: seq<Range>) {
    if gaps == [] then [] else
      var n := |gaps| - 1;
      if gaps[n].lo <= gaps[n].hi then ProperOnly(gaps[..n]) + [gaps[n]] else ProperOnly(gaps[..n])
  }

  predicate Disjoint(gaps: seq<Range>) {
    forall i, j :: 0 <= i < j < |gaps| ==> gaps[i].hi < gaps[j].lo && gaps[i].lo < gaps[j].lo
  }

  /** No gap falls short by a whole bar: each reaches the last bar before its start. */
  predicate Reaching(gaps: seq<Range>, step: int)
    requires step > 0
  {
    forall i :: 0 <= i < |gaps| ==> Floor(gaps[i].lo, step) <= gaps[i].hi
  }

  /** Every gap lies within the request. */
  predicate Within(gaps: seq<Range>, lo: int, hi: int) {
    forall i :: 0 <= i < |gaps| ==> lo <= gaps[i].lo && gaps[i].hi <= hi
  }

  lemma {:induction false} ProperOnlyFacts(gaps: seq<Range>, lo: int, hi: int, bound: int, step: int)
    requires step > 0 && Within(gaps, lo, hi) && Disjoint(gaps)
    requires forall i :: 0 <= i < |gaps| ==> gaps[i].lo < bound && gaps[i].hi < bound
    ensures var out := ProperOnly(gaps);
            && AllProper(out) && Within(out, lo, hi) && Disjoint(out)
            && (forall i :: 0 <= i < |out| ==> out[i].lo < bound && out[i].hi < bound)
            && (AllOn(gaps, step) ==> AllOn(out, step))
    ensures forall t :: Covered(ProperOnly(gaps), t) <==> Covered(gaps, t)
  {
    if gaps != [] {
      hide Covered, On;
      var n := |gaps| - 1;
      var front, last := gaps[..n], gaps[n];
      assert gaps == front + [last];
      ProperOnlyFacts(front, lo, hi, last.lo, step);
      forall t { CoveredSnoc(front, last, t); }
      forall t { CoveredSnoc(ProperOnly(front), last, t); }
    } else {
      forall t { CoveredEmpty(t); }
    }
  }

  /** The request starts between two bars of which only the later is covered. */
  predicate StartsInside(req: Range, covered: seq<Range>, step: int)
    requires step > 0
  {
    && !On(req.lo, step)
    && !Covered(covered, Floor(req.lo, step))
    && Floor(req.lo, step) + step <= req.hi
    && Covered(covered, Floor(req.lo, step) + step)
  }

  /** ... and its last bar is covered too: the case in which `subtract` leaves
      by its early return and hands back a gap that ends before it starts. */
  predicate Inverts(req: Range, covered: seq<Range>, step: int)
    requires step > 0
  {
    StartsInside(req, covered, step) && Covered(covered, Floor(req.hi, step))
  }

  /** What `subtract` promises of its gaps. */
  ghost predicate Gaps(gaps: seq<Range>, req: Range, covered: seq<Range>, step: int)
    requires step > 0
  {
    && Disjoint(gaps) && Within(gaps, req.lo, req.hi) && Reaching(gaps, step)
    && (On(req.lo, step) && On(req.hi, step) ==> AllOn(gaps, step))
    && (forall t :: On(t, step) ==> (Covered(gaps, t) <==> In(t, req) && !Covered(covered, t)))
  }

  predicate Blocks(blocks: seq<Range>, step: int)
    requires step > 0
  {
    AllOn(blocks, step) && AllProper(blocks) && Separated(blocks, step)
  }

  /** Loop state of `Subtract` before block `i`: below the cursor the gaps and
      the blocks share the stamps of the request between them. */
  ghost predicate Progress(req: Range, cursor: int, blocks: seq<Range>, i: nat, gaps: seq<Range>, step: int)
    requires step > 0 && i <= |blocks|
  {
    && req.lo <= cursor && Disjoint(gaps) && Within(gaps, req.lo, req.hi) && Reaching(gaps, step)
    && (forall k :: 0 <= k < |gaps| ==> gaps[k].hi < cursor && gaps[k].lo < cursor)
    && (forall k :: 0 <= k < i ==> blocks[k].hi < cursor)
    && (cursor == req.lo ==> gaps == [])
    && (On(req.lo, step) && On(req.hi, step) ==> AllOn(gaps, step))
    && (cursor > req.lo ==> On(cursor, step))
    && (cursor > req.lo ==> forall k :: i <= k < |blocks| ==> blocks[k].lo > cursor)
    && (cursor > req.lo ==> (!AllProper(gaps) <==> StartsInside(req, blocks, step)))
    && (forall t :: On(t, step) && req.lo <= t < cursor ==> (Covered(gaps, t) <==> !Covered(blocks, t)))
  }

  function GapBefore(cursor: int, b: Range, req: Range, step: int): Range {
    Range(cursor, if b.lo - step <= req.hi then b.lo - step else req.hi)
  }

  /** The stamps between the cursor and the end of block `i` belong to block
      `i` or to the gap before it. */
  lemma TakeStamps(req: Range, cursor: int, blocks: seq<Range>, i: nat, gaps: seq<Range>, step: int, t: int)
    requires step > 0 && i < |blocks| && Blocks(blocks, step)
    requires Progress(req, cursor, blocks, i, gaps, step) && cursor <= req.hi
    requires blocks[i].hi >= cursor && blocks[i].lo <= req.hi
    requires On(t, step) && req.lo <= t < blocks[i].hi + step
    ensures var b := blocks[i]; var gap := GapBefore(cursor, b, req, step);
            Covered(gaps, t) || (b.lo > cursor && In(t, gap)) <==> !Covered(blocks, t)
  {
    hide On, Covered, Floor, StartsInside;
    var b := blocks[i];
    if t > b.hi { GridGap(b.hi, t, step); }
    if t < cursor {
    } else {
      if Covered(gaps, t) { var k := CoverElim(gaps, t); }
      if t < b.lo {
        GridGap(t, b.lo, step);
        if Covered(blocks, t) { var k := CoverElim(blocks, t); }
      } else {
        CoverIntro(blocks, i, t);
      }
    }
  }

  /** Which first gap is inverted. */
  lemma FirstGap(req: Range, blocks: seq<Range>, i: nat, step: int)
    requires step > 0 && i < |blocks| && Blocks(blocks, step)
    requires req.lo <= req.hi && blocks[i].lo <= req.hi && blocks[i].hi >= req.lo
    requires forall k :: 0 <= k < i ==> blocks[k].hi < req.lo
    ensures blocks[i].lo > req.lo && blocks[i].lo - step < req.lo <==> StartsInside(req, blocks, step)
  {
    hide On, Covered, Floor;
    var b, f := blocks[i], Floor(req.lo, step);
    FloorOn(req.lo, step);
    if On(req.lo, step) {
      if b.lo > req.lo { GridGap(req.lo, b.lo, step); }
    } else {
      GridGap(f, b.hi, step);
      if b.lo > f { GridGap(f, b.lo, step); }
      if b.lo <= req.lo {
        CoverIntro(blocks, i, f);
      } else {
        if b.lo > f + step { GridGap(f + step, b.lo, step); }
        if Covered(blocks, f) { var k := CoverElim(blocks, f); }
        if Covered(blocks, f + step) { var k := CoverElim(blocks, f + step); }
        if b.lo == f + step { CoverIntro(blocks, i, f + step); }
      }
    }
  }

  lemma TakeBlock(req: Range, cursor: int, blocks: seq<Range>, i: nat, gaps: seq<Range>, step: int)
    requires step > 0 && i < |blocks| && Blocks(blocks, step)
    requires Progress(req, cursor, blocks, i, gaps, step) && cursor <= req.hi
    requires blocks[i].hi >= cursor && blocks[i].lo <= req.hi
    ensures var b := blocks[i];
            var gaps' := if b.lo > cursor then gaps + [GapBefore(cursor, b, req, step)] else gaps;
            Progress(req, b.hi + step, blocks, i + 1, gaps', step)
  {
    hide On, Covered, StartsInside, Reaching, Floor, Disjoint;
    var b, gap := blocks[i], GapBefore(cursor, blocks[i], req, step);
    var gaps' := if b.lo > cursor then gaps + [gap] else gaps;
    GridStep(b.hi, step);
    forall t | On(t, step) && req.lo <= t < b.hi + step
      ensures Covered(gaps', t) <==> !Covered(blocks, t)
    {
      TakeStamps(req, cursor, blocks, i, gaps, step, t);
      CoveredSnoc(gaps, gap, t);
    }
    TakeProper(req, cursor, blocks, i, gaps, step);
    GridStep(b.lo, step);
    assert b.hi + step > cursor;
  }

  lemma TakeProper(req: Range, cursor: int, blocks: seq<Range>, i: nat, gaps: seq<Range>, step: int)
    requires step > 0 && i < |blocks| && Blocks(blocks, step)
    requires Progress(req, cursor, blocks, i, gaps, step) && cursor <= req.hi
    requires blocks[i].hi >= cursor && blocks[i].lo <= req.hi
    ensures var b := blocks[i];
            var gaps' := if b.lo > cursor then gaps + [GapBefore(cursor, b, req, step)] else gaps;
            (!AllProper(gaps') <==> StartsInside(req, blocks, step)) && Disjoint(gaps') && Reaching(gaps', step)
  {
    hide On, Covered, StartsInside, Floor;
    var b, gap := blocks[i], GapBefore(cursor, blocks[i], req, step);
    if Floor(cursor, step) < b.lo { GridGap(Floor(cursor, step), b.lo, step); }
    if cursor == req.lo {
      FirstGap(req, blocks, i, step);
      if b.lo > cursor {
        var one := gaps + [gap];
        assert |one| == 1 && one[0] == gap;
      }
    } else if b.lo > cursor {
      GridGap(cursor, b.lo, step);
      ProperSnoc(gaps, gap);
    }
  }

  lemma ProperSnoc(gaps: seq<Range>, gap: Range)
    requires gap.lo <= gap.hi
    ensures AllProper(gaps + [gap]) <==> AllProper(gaps)
  {
    assert forall i :: 0 <= i < |gaps| ==> (gaps + [gap])[i] == gaps[i];
  }

  lemma EarlyReturn(req: Range, cursor: int, blocks: seq<Range>, i: nat, gaps: seq<Range>, step: int)
    requires step > 0 && 0 < i <= |blocks| && Blocks(blocks, step)
    requires req.lo <= req.hi < cursor && cursor == blocks[i - 1].hi + step && blocks[i - 1].lo <= req.hi
    requires Progress(req, cursor, blocks, i, gaps, step)
    ensures Gaps(gaps, req, blocks, step)
    ensures !AllProper(gaps) <==> Inverts(req, blocks, step)
  {
    hide On, Covered, Floor, StartsInside;
    forall t | On(t, step) ensures Covered(gaps, t) <==> In(t, req) && !Covered(blocks, t) {
      if !In(t, req) && Covered(gaps, t) { var k := CoverElim(gaps, t); }
    }
    var b, f := blocks[i - 1], Floor(req.hi, step);
    if b.lo > f { GridGap(f, b.lo, step); }
    if b.hi < f { GridGap(b.hi, f, step); }
    CoverIntro(blocks, i - 1, f);
  }

  lemma NormalReturn(req: Range, cursor: int, blocks: seq<Range>, i: nat, gaps: seq<Range>, step: int)
    requires step > 0 && i <= |blocks| && Blocks(blocks, step)
    requires cursor <= req.hi && Progress(req, cursor, blocks, i, gaps, step)
    requires i < |blocks| ==> blocks[i].lo > req.hi
    ensures Gaps(gaps + [Range(cursor, req.hi)], req, blocks, step)
    ensures !Inverts(req, blocks, step)
  {
    hide On, Covered, Floor;
    var last := Range(cursor, req.hi);
    forall t | cursor <= t <= req.hi ensures !Covered(blocks, t) {
      if Covered(blocks, t) { var k := CoverElim(blocks, t); }
    }
    forall t | On(t, step) ensures Covered(gaps + [last], t) <==> In(t, req) && !Covered(blocks, t) {
      CoveredSnoc(gaps, last, t);
      if Covered(gaps, t) { var k := CoverElim(gaps, t); }
    }
    FloorOn(req.lo, step);
    if On(cursor, step) && cursor > Floor(req.hi, step) { GridGap(Floor(req.hi, step), cursor, step); }
  }

  /** Only the covered stamps matter, not how coverage is cut into blocks. */
  lemma TransferStamps(req: Range, blocks: seq<Range>, covered: seq<Range>, gaps: seq<Range>, step: int)
    requires step > 0 && SameStamps(blocks, covered, step)
    requires Gaps(gaps, req, blocks, step)
    ensures Gaps(gaps, req, covered, step)
    ensures Inverts(req, blocks, step) <==> Inverts(req, covered, step)
  {
    hide On, Covered, Floor;
    FloorOn(req.lo, step);
  }

  /** Gaps are not cut needlessly: each starts where the request does or right after
      a covered bar, and ends where the request does or right before one. */
  ghost predicate Edges(gaps: seq<Range>, req: Range, covered: seq<Range>, step: int)
    requires step > 0
  {
    && (forall i :: 0 <= i < |gaps| ==> RightAfter(gaps[i].lo, req, covered, step))
    && (forall i :: 0 <= i < |gaps| ==>
        gaps[i].hi == req.hi || (On(gaps[i].hi + step, step) && Covered(covered, gaps[i].hi + step)))
  }

  ghost predicate RightAfter(lo: int, req: Range, covered: seq<Range>, step: int)
    requires step > 0
  {
    lo == req.lo || (On(lo - step, step) && Covered(covered, lo - step))
  }

  lemma EdgesBlock(req: Range, cursor: int, blocks: seq<Range>, i: nat, gaps: seq<Range>, step: int)
    requires step > 0 && i < |blocks| && Blocks(blocks, step) && blocks[i].lo <= req.hi
    requires Edges(gaps, req, blocks, step) && RightAfter(cursor, req, blocks, step)
    ensures Edges(gaps + [GapBefore(cursor, blocks[i], req, step)], req, blocks, step)
    ensures RightAfter(blocks[i].hi + step, req, blocks, step)
  {
    hide On, Covered;
    var b, gap := blocks[i], GapBefore(cursor, blocks[i], req, step);
    CoverIntro(blocks, i, b.lo);
    CoverIntro(blocks, i, b.hi);
    assert gap.hi + step == b.lo && gap.lo == cursor;
  }

  lemma EdgesEnd(req: Range, cursor: int, blocks: seq<Range>, gaps: seq<Range>, step: int)
    requires step > 0 && Edges(gaps, req, blocks, step) && RightAfter(cursor, req, blocks, step)
    ensures Edges(gaps + [Range(cursor, req.hi)], req, blocks, step)
  {
    hide On, Covered;
  }

  lemma {:induction false} EdgesProper(req: Range, blocks: seq<Range>, gaps: seq<Range>, step: int)
    requires step > 0 && Edges(gaps, req, blocks, step)
    ensures Edges(ProperOnly(gaps), req, blocks, step)
  {
    hide On, Covered;
    if gaps != [] {
      var n := |gaps| - 1;
      EdgesProper(req, blocks, gaps[..n], step);
    }
  }

  lemma EdgesTransfer(req: Range, blocks: seq<Range>, covered: seq<Range>, gaps: seq<Range>, step: int)
    requires step > 0 && SameStamps(blocks, covered, step) && Edges(gaps, req, blocks, step)
    ensures Edges(gaps, req, covered, step)
  {
    hide On, Covered;
  }

  method Subtract(req: Range, covered: seq<Range>, step: int) returns (gaps: seq<Range>)
    requires step > 0 && AllOn(covered, step) && AllProper(covered)
    ensures Gaps(gaps, req, covered, step) && Edges(gaps, req, covered, step)
    ensures !AllProper(gaps) <==> Inverts(req, covered, step)
  {
    hide On, Covered, Floor, StartsInside, Disjoint, Within, Edges, RightAfter;
    gaps := [];
    EdgesNone(req, covered, step);
    if req.lo > req.hi {
      EmptyRequest(req, covered, step);
      return;
    }
    var blocks := Coalesce(covered, step);
    var cursor := req.lo;
    EdgesNone(req, blocks, step);
    var i := 0;
    FirstProgress(req, blocks, step);
    while i < |blocks|
      invariant 0 <= i <= |blocks|
      invariant cursor <= req.hi
      invariant Progress(req, cursor, blocks, i, gaps, step)
      invariant Edges(gaps, req, blocks, step) && RightAfter(cursor, req, blocks, step)
    {
      var b := blocks[i];
      if b.hi < cursor {
        i := i + 1;
        continue;
      }
      if b.lo > req.hi {
        break;
      }
      TakeBlock(req, cursor, blocks, i, gaps, step);
      EdgesBlock(req, cursor, blocks, i, gaps, step);
      if b.lo > cursor {
        gaps := gaps + [GapBefore(cursor, b, req, step)];
      }
      cursor := if cursor >= b.hi + step then cursor else b.hi + step;
      i := i + 1;
      if cursor > req.hi {
        EarlyReturn(req, cursor, blocks, i, gaps, step);
        TransferStamps(req, blocks, covered, gaps, step);
        EdgesTransfer(req, blocks, covered, gaps, step);
        return;
      }
    }
    NormalReturn(req, cursor, blocks, i, gaps, step);
    EdgesEnd(req, cursor, blocks, gaps, step);
    if cursor <= req.hi {
      gaps := gaps + [Range(cursor, req.hi)];
    }
    FilterGaps(req, blocks, gaps, step);
    EdgesProper(req, blocks, gaps, step);
    gaps := ProperOnly(gaps);
    TransferStamps(req, blocks, covered, gaps, step);
    EdgesTransfer(req, blocks, covered, gaps, step);
  }

  lemma EdgesNone(req: Range, covered: seq<Range>, step: int)
    requires step > 0
    ensures Edges([], req, covered, step) && RightAfter(req.lo, req, covered, step)
  {
  }

  lemma FirstProgress(req: Range, blocks: seq<Range>, step: int)
    requires step > 0
    ensures Progress(req, req.lo, blocks, 0, [], step)
  {
  }

  lemma EmptyRequest(req: Range, covered: seq<Range>, step: int)
    requires step > 0 && req.lo > req.hi
    ensures Gaps([], req, covered, step) && !Inverts(req, covered, step)
  {
    hide On, Covered, Floor;
    forall t { CoveredEmpty(t); }
  }

  lemma FilterGaps(req: Range, blocks: seq<Range>, gaps: seq<Range>, step: int)
    requires step > 0 && Gaps(gaps, req, blocks, step)
    ensures Gaps(ProperOnly(gaps), req, blocks, step) && AllProper(ProperOnly(gaps))
  {
    hide On, Covered;
    var n := |gaps| - 1;
    ProperOnlyFacts(gaps, req.lo, req.hi,
      if gaps == [] then 0 else if gaps[n].lo < gaps[n].hi then gaps[n].hi + 1 else gaps[n].lo + 1, step);
  }

  /** The inverted gap does occur: with bars every 5 and bar 10 covered, a
      request for 7..12 comes back with the gap 7..5. */
  lemma InvertedGapExists()
    ensures Inverts(Range(7, 12), [Range(10, 10)], 5)
    ensures !Inverts(Range(5, 12), [Range(10, 10)], 5)
  {
    CoverIntro([Range(10, 10)], 0, 10);
    assert Floor(7, 5) == 5 && Floor(12, 5) == 10;
  }

  // ---- trim_tail ------------------------------------------------------

  /** The part of `r` up to the last completed bar, if any of it is completed. */
  function TrimTail(r: Range, boundary: int): (out: Option<Range>)
    ensures out.None? <==> r.lo > boundary
    ensures forall t :: r.lo <= r.hi ==> (out.Some? && In(t, out.value) <==> In(t, r) && t <= boundary)
  {
    if r.lo > boundary then None
    else Some(Range(r.lo, if r.hi <= boundary then r.hi else boundary))
  }
}
