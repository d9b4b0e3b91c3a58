/** Rolling trades into bars and bars into coarser bars (tick-lab/tick_lab/rollup.py,
    openbb-deltalake/openbb_deltalake/models/historical.py): one bar for each
    slot of fixed width that holds anything, by group and aggregate. */
module Rollup {
  import opened Options
  import Arith

  datatype Trade = Trade(at: int, price: real, size: real)

  /** `vwap` is the trade-weighted price, absent where nothing was traded. */
  datatype Bar = Bar(at: int, open: real, high: real, low: real, close: real, volume: real, vwap: Option<real>)

  // ---- slots ----------------------------------------------------------

  /** Left-closed, left-labelled. */
  function Slot(at: int, width: int): int
    requires width > 0
  {
    at - at % width
  }

  lemma SlotGrows(a: int, b: int, width: int)
    requires width > 0 && a <= b
    ensures Slot(a, width) <= Slot(b, width)
  {
    var p, q := a / width, b / width;
    assert a == width * p + a % width && b == width * q + b % width;
    if q < p { Arith.Below(width, q, p); }
    else if p < q { Arith.Below(width, p, q); }
  }

  /** A slot of a coarser width is made of whole slots of a finer one. */
  lemma SlotOfSlot(at: int, fine: int, k: int)
    requires fine > 0 && k > 0
    ensures fine * k > 0 && Slot(Slot(at, fine), fine * k) == Slot(at, fine * k)
  {
    Arith.AtLeast(fine, k);
    var coarse := fine * k;
    var q, r := at / coarse, at % coarse;
    var m, s := r / fine, r % fine;
    assert at == coarse * q + r && r == fine * m + s;
    assert coarse * q == fine * (k * q);
    assert at == fine * (k * q + m) + s;
    Arith.DivMod(at, fine, k * q + m, s);
    assert Slot(at, fine) == coarse * q + fine * m;
    assert fine * m <= r < coarse;
    if m < 0 { Arith.AtLeast(fine, -m); }
    Arith.DivMod(Slot(at, fine), coarse, q, fine * m);
  }

  // ---- group and aggregate --------------------------------------------

  predicate InOrder(bars: seq<Bar>) {
    forall i, j :: 0 <= i <= j < |bars| ==> bars[i].at <= bars[j].at
  }

  /** Sizes are not negative, and what carries no volume carries no vwap. */
  predicate Sound(b: Bar) {
    b.volume >= 0.0 && (b.volume == 0.0 <==> b.vwap.None?)
  }

  predicate AllSound(bars: seq<Bar>) {
    forall i :: 0 <= i < |bars| ==> Sound(bars[i])
  }

  function InSlot(bars: seq<Bar>, slot: int, width: int): seq<Bar>
    requires width > 0
  {
    if bars == [] then []
    else
      var b := bars[|bars| - 1];
      InSlot(bars[..|bars| - 1], slot, width) + if Slot(b.at, width) == slot then [b] else []
  }

  function Slots(bars: seq<Bar>, width: int): seq<int>
    requires width > 0
  {
    if bars == [] then []
    else
      var before := Slots(bars[..|bars| - 1], width);
      var s := Slot(bars[|bars| - 1].at, width);
      if s in before then before else before + [s]
  }

  function Max(a: real, b: real): real { if b > a then b else a }

  function Min(a: real, b: real): real { if b < a then b else a }

  function Highest(g: seq<Bar>): real
    requires g != []
  {
    if |g| == 1 then g[0].high else Max(Highest(g[..|g| - 1]), g[|g| - 1].high)
  }

  function Lowest(g: seq<Bar>): real
    requires g != []
  {
    if |g| == 1 then g[0].low else Min(Lowest(g[..|g| - 1]), g[|g| - 1].low)
  }

  function Volume(g: seq<Bar>): real {
    if g == [] then 0.0 else Volume(g[..|g| - 1]) + g[|g| - 1].volume
  }

  /** A bar's price times size: a missing vwap drops out of the sum. */
  function Traded(b: Bar): real {
    if b.vwap.None? then 0.0 else b.vwap.value * b.volume
  }

  function Turnover(g: seq<Bar>): real {
    if g == [] then 0.0 else Turnover(g[..|g| - 1]) + Traded(g[|g| - 1])
  }

  function Ratio(turnover: real, volume: real): Option<real> {
    if volume == 0.0 then None else Some(turnover / volume)
  }

  /** A slot's bar. */
  function Summary(g: seq<Bar>, slot: int): Bar
    requires g != []
  {
    Bar(slot, g[0].open, Highest(g), Lowest(g), g[|g| - 1].close, Volume(g), Ratio(Turnover(g), Volume(g)))
  }

  lemma {:induction false} SlotHasBars(bars: seq<Bar>, width: int, slot: int)
    requires width > 0
    ensures slot in Slots(bars, width) <==> InSlot(bars, slot, width) != []
  {
    if bars != [] { SlotHasBars(bars[..|bars| - 1], width, slot); }
  }

  /** The rolled bars: slots without any bar drop out. */
  function Rolled(bars: seq<Bar>, width: int): (r: seq<Bar>)
    requires width > 0
    ensures |r| == |Slots(bars, width)|
  {
    var slots := Slots(bars, width);
    seq(|slots|, k requires 0 <= k < |slots| => SlotBar(bars, width, slots[k]))
  }

  function SlotBar(bars: seq<Bar>, width: int, slot: int): Bar
    requires width > 0 && slot in Slots(bars, width)
  {
    SlotHasBars(bars, width, slot);
    Summary(InSlot(bars, slot, width), slot)
  }

  // ---- trades ---------------------------------------------------------

  function TickBar(t: Trade): Bar {
    Bar(t.at, t.price, t.price, t.price, t.price, t.size, Ratio(t.price * t.size, t.size))
  }

  function TickBars(trades: seq<Trade>): (b: seq<Bar>)
    ensures |b| == |trades|
  {
    seq(|trades|, i requires 0 <= i < |trades| => TickBar(trades[i]))
  }

  /** Trades into bars: price first, largest, smallest and last, size summed. */
  function FromTrades(trades: seq<Trade>, width: int): seq<Bar>
    requires width > 0
  {
    Rolled(TickBars(trades), width)
  }

  predicate RealTrades(trades: seq<Trade>) {
    && (forall i, j :: 0 <= i <= j < |trades| ==> trades[i].at <= trades[j].at)
    && (forall i :: 0 <= i < |trades| ==> trades[i].size >= 0.0)
  }

  // ---- one bar more ---------------------------------------------------

  function Merge(a: Bar, b: Bar): Bar {
    Bar(a.at, a.open, Max(a.high, b.high), Min(a.low, b.low), b.close, a.volume + b.volume,
        Ratio(Traded(a) + Traded(b), a.volume + b.volume))
  }

  function Push(acc: seq<Bar>, b: Bar, width: int): seq<Bar>
    requires width > 0
  {
    var s := Slot(b.at, width);
    if acc != [] && acc[|acc| - 1].at == s then acc[..|acc| - 1] + [Merge(acc[|acc| - 1], b)]
    else acc + [b.(at := s)]
  }

  lemma RatioTimes(t: real, v: real)
    requires v != 0.0
    ensures (t / v) * v == t
  {
  }

  lemma {:induction false} GroupSound(g: seq<Bar>)
    requires AllSound(g)
    ensures Volume(g) >= 0.0 && (Volume(g) == 0.0 ==> Turnover(g) == 0.0)
    ensures g != [] ==> forall slot :: Sound(Summary(g, slot)) && Traded(Summary(g, slot)) == Turnover(g)
  {
    if g != [] {
      GroupSound(g[..|g| - 1]);
      assert Sound(g[|g| - 1]);
      if Volume(g) != 0.0 { RatioTimes(Turnover(g), Volume(g)); }
    }
  }

  lemma SummarySnoc(g: seq<Bar>, b: Bar, slot: int)
    requires g != [] && AllSound(g) && Sound(b)
    ensures Summary(g + [b], slot) == Merge(Summary(g, slot), b)
  {
    assert (g + [b])[..|g|] == g;
    GroupSound(g);
  }

  lemma SummaryOne(b: Bar, slot: int)
    requires Sound(b)
    ensures Summary([b], slot) == b.(at := slot)
  {
    assert [b][..0] == [];
    assert Volume([b]) == Volume([]) + b.volume && Turnover([b]) == Turnover([]) + Traded(b);
    assert Volume([b]) == b.volume;
    if b.volume != 0.0 {
      RatioOf(Turnover([b]), Volume([b]), b.vwap.value);
    }
    assert Ratio(Turnover([b]), Volume([b])) == b.vwap;
  }

  lemma RatioOf(t: real, v: real, x: real)
    requires v != 0.0 && t == x * v
    ensures Ratio(t, v) == Some(x)
  {
    assert x == (x * v) / v;
  }

  lemma {:induction false} InSlotSound(bars: seq<Bar>, slot: int, width: int)
    requires width > 0 && AllSound(bars)
    ensures AllSound(InSlot(bars, slot, width))
  {
    if bars != [] { InSlotSound(bars[..|bars| - 1], slot, width); }
  }

  /** In time order the slots ascend, and the last one is the last bar's. */
  lemma {:induction false} SlotsAscend(bars: seq<Bar>, width: int)
    requires width > 0 && InOrder(bars)
    ensures var s := Slots(bars, width);
            && (forall i, j :: 0 <= i < j < |s| ==> s[i] < s[j])
            && (bars == [] <==> s == [])
            && (bars != [] ==> s[|s| - 1] == Slot(bars[|bars| - 1].at, width))
  {
    if |bars| > 1 {
      var n := |bars| - 1;
      SlotsAscend(bars[..n], width);
      assert bars[..n][n - 1] == bars[n - 1];
      SlotGrows(bars[n - 1].at, bars[n].at, width);
    } else if |bars| == 1 {
      assert bars[..0] == [];
    }
  }

  /** Rolling one bar more touches the last rolled bar alone. */
  lemma {:induction false} RolledSnoc(bars: seq<Bar>, b: Bar, width: int)
    requires width > 0 && InOrder(bars + [b]) && AllSound(bars + [b])
    ensures Rolled(bars + [b], width) == Push(Rolled(bars, width), b, width)
  {
    var all := bars + [b];
    assert all[..|bars|] == bars;
    assert InOrder(bars) by { assert forall i :: 0 <= i < |bars| ==> all[i] == bars[i]; }
    assert AllSound(bars) by { assert forall i :: 0 <= i < |bars| ==> all[i] == bars[i]; }
    assert Sound(b) by { assert all[|bars|] == b; }
    SlotsAscend(bars, width);
    SlotsAscend(all, width);
    if Slot(b.at, width) in Slots(bars, width) {
      RolledKnown(bars, b, width);
    } else {
      RolledNew(bars, b, width);
    }
  }

  lemma SlotsSnoc(bars: seq<Bar>, b: Bar, width: int)
    requires width > 0
    ensures var s, slots := Slot(b.at, width), Slots(bars, width);
            Slots(bars + [b], width) == if s in slots then slots else slots + [s]
  {
    assert (bars + [b])[..|bars|] == bars;
  }

  lemma RolledKept(bars: seq<Bar>, b: Bar, width: int, k: nat)
    requires width > 0 && k < |Slots(bars, width)| && Slots(bars, width)[k] != Slot(b.at, width)
    ensures k < |Rolled(bars + [b], width)| && Rolled(bars + [b], width)[k] == Rolled(bars, width)[k]
    ensures Rolled(bars, width)[k].at == Slots(bars, width)[k]
  {
    SlotsSnoc(bars, b, width);
    SlotBarKept(bars, b, width, Slots(bars, width)[k]);
    hide Slots, Slot, InSlot, AllSound;
  }

  lemma RolledGrows(bars: seq<Bar>, b: Bar, width: int, m: nat)
    requires width > 0 && AllSound(bars) && Sound(b) && m < |Slots(bars, width)|
             && Slots(bars, width)[m] == Slot(b.at, width)
    ensures |Rolled(bars + [b], width)| == |Rolled(bars, width)| && Rolled(bars, width)[m].at == Slot(b.at, width)
    ensures Rolled(bars + [b], width)[m] == Merge(Rolled(bars, width)[m], b)
  {
    SlotsSnoc(bars, b, width);
    SlotBarGrows(bars, b, width);
    hide Slots, Slot, InSlot, AllSound, Merge;
  }

  lemma RolledKnown(bars: seq<Bar>, b: Bar, width: int)
    requires width > 0 && AllSound(bars) && Sound(b)
    requires var slots := Slots(bars, width);
             && Slot(b.at, width) in slots && slots[|slots| - 1] == Slot(b.at, width)
             && forall i :: 0 <= i < |slots| - 1 ==> slots[i] != Slot(b.at, width)
    ensures Rolled(bars + [b], width) == Push(Rolled(bars, width), b, width)
  {
    hide Slots, Slot, SlotBar, AllSound, Merge, Rolled;
    var m := |Slots(bars, width)| - 1;
    RolledGrows(bars, b, width, m);
    forall k | 0 <= k < m ensures Rolled(bars + [b], width)[k] == Rolled(bars, width)[k] {
      RolledKept(bars, b, width, k);
    }
  }

  lemma RolledNew(bars: seq<Bar>, b: Bar, width: int)
    requires width > 0 && Sound(b) && Slot(b.at, width) !in Slots(bars, width)
    ensures Rolled(bars + [b], width) == Push(Rolled(bars, width), b, width)
  {
    hide Slots, Slot, SlotBar, Merge, Rolled;
    RolledOpens(bars, b, width);
    forall k | 0 <= k < |Slots(bars, width)|
      ensures Rolled(bars + [b], width)[k] == Rolled(bars, width)[k] && Rolled(bars, width)[k].at != Slot(b.at, width)
    {
      assert Slots(bars, width)[k] in Slots(bars, width);
      RolledKept(bars, b, width, k);
    }
  }

  lemma RolledOpens(bars: seq<Bar>, b: Bar, width: int)
    requires width > 0 && Sound(b) && Slot(b.at, width) !in Slots(bars, width)
    ensures var n := |Rolled(bars, width)|;
            |Rolled(bars + [b], width)| == n + 1 && Rolled(bars + [b], width)[n] == b.(at := Slot(b.at, width))
  {
    SlotsSnoc(bars, b, width);
    SlotBarNew(bars, b, width);
    hide Slots, Slot, InSlot;
  }

  lemma SlotBarKept(bars: seq<Bar>, b: Bar, width: int, slot: int)
    requires width > 0 && slot in Slots(bars, width) && slot != Slot(b.at, width)
    ensures slot in Slots(bars + [b], width) && SlotBar(bars + [b], width, slot) == SlotBar(bars, width, slot)
  {
    assert (bars + [b])[..|bars|] == bars;
    assert InSlot(bars + [b], slot, width) == InSlot(bars, slot, width) + [] == InSlot(bars, slot, width);
  }

  lemma SlotBarGrows(bars: seq<Bar>, b: Bar, width: int)
    requires width > 0 && Slot(b.at, width) in Slots(bars, width) && AllSound(bars) && Sound(b)
    ensures var s := Slot(b.at, width);
            s in Slots(bars + [b], width) && SlotBar(bars + [b], width, s) == Merge(SlotBar(bars, width, s), b)
  {
    var s := Slot(b.at, width);
    assert (bars + [b])[..|bars|] == bars;
    SlotHasBars(bars, width, s);
    InSlotSound(bars, s, width);
    SummarySnoc(InSlot(bars, s, width), b, s);
  }

  lemma SlotBarNew(bars: seq<Bar>, b: Bar, width: int)
    requires width > 0 && Slot(b.at, width) !in Slots(bars, width) && Sound(b)
    ensures var s := Slot(b.at, width);
            s in Slots(bars + [b], width) && SlotBar(bars + [b], width, s) == b.(at := s)
  {
    var s := Slot(b.at, width);
    assert (bars + [b])[..|bars|] == bars;
    SlotHasBars(bars, width, s);
    assert InSlot(bars + [b], s, width) == [] + [b];
    SummaryOne(b, s);
    assert SlotBar(bars + [b], width, s) == Summary([b], s);
  }

  // ---- composition ----------------------------------------------------

  /** Merging is associative where volumes are not negative. */
  lemma MergeAssoc(a: Bar, b: Bar, c: Bar)
    requires Sound(a) && Sound(b) && Sound(c)
    ensures Merge(Merge(a, b), c) == Merge(a, Merge(b, c))
  {
    MergeTraded(a, b);
    MergeTraded(b, c);
  }

  lemma MergeTraded(a: Bar, b: Bar)
    requires Sound(a) && Sound(b)
    ensures Traded(Merge(a, b)) == Traded(a) + Traded(b) && Sound(Merge(a, b))
  {
    if a.volume + b.volume != 0.0 { RatioTimes(Traded(a) + Traded(b), a.volume + b.volume); }
  }

  lemma {:induction false} RolledSound(bars: seq<Bar>, width: int)
    requires width > 0 && AllSound(bars) && InOrder(bars)
    ensures AllSound(Rolled(bars, width)) && InOrder(Rolled(bars, width))
  {
    SlotsAscend(bars, width);
    var slots := Slots(bars, width);
    forall k | 0 <= k < |slots| ensures Sound(Rolled(bars, width)[k]) {
      SlotHasBars(bars, width, slots[k]);
      InSlotSound(bars, slots[k], width);
      GroupSound(InSlot(bars, slots[k], width));
    }
  }

  lemma TradedAt(b: Bar, s: int)
    ensures Traded(b.(at := s)) == Traded(b)
  {
    if b.vwap.Some? { assert b.(at := s).vwap.value == b.vwap.value; }
  }

  lemma MergeAt(a: Bar, b: Bar, s: int)
    ensures Merge(a, b.(at := s)) == Merge(a, b) && Merge(a, b).at == a.at
            && Merge(a.(at := s), b) == Merge(a, b).(at := s)
  {
    TradedAt(a, s);
    TradedAt(b, s);
    hide Traded;
  }

  lemma PushAt(acc: seq<Bar>, b: Bar, s: int, width: int)
    requires width > 0 && Slot(s, width) == Slot(b.at, width)
    ensures Push(acc, b.(at := s), width) == Push(acc, b, width)
  {
    if acc != [] { MergeAt(acc[|acc| - 1], b, s); }
    hide Merge, Slot;
  }

  /** A bar pushed after the fine bar it belongs to is the merged bar pushed. */
  lemma PushMerged(acc: seq<Bar>, last: Bar, b: Bar, fine: int, k: int)
    requires fine > 0 && k > 0 && fine * k > 0
    requires AllSound(acc) && Sound(last) && Sound(b) && last.at == Slot(b.at, fine)
    ensures Push(Push(acc, last, fine * k), b, fine * k) == Push(acc, Merge(last, b), fine * k)
  {
    SlotOfSlot(b.at, fine, k);
    var coarse := fine * k;
    var s := Slot(b.at, coarse);
    assert Slot(last.at, coarse) == s;
    if acc != [] && acc[|acc| - 1].at == s {
      MergeAssoc(acc[|acc| - 1], last, b);
    } else {
      MergeAt(last, b, s);
    }
  }

  lemma {:induction false} PrefixGood(bars: seq<Bar>)
    requires bars != [] && InOrder(bars) && AllSound(bars)
    ensures InOrder(bars[..|bars| - 1]) && AllSound(bars[..|bars| - 1]) && Sound(bars[|bars| - 1])
    ensures bars == bars[..|bars| - 1] + [bars[|bars| - 1]]
  {
  }

  /** The composition law: rolling to a fine width and the result to a multiple
      of it is rolling straight to that multiple. */
  lemma {:induction false} RollOfRoll(bars: seq<Bar>, fine: int, k: int)
    requires fine > 0 && k > 0 && InOrder(bars) && AllSound(bars)
    ensures fine * k > 0 && Rolled(Rolled(bars, fine), fine * k) == Rolled(bars, fine * k)
  {
    Arith.AtLeast(fine, k);
    var coarse := fine * k;
    if bars == [] {
      assert Rolled(bars, fine) == [] && Rolled(bars, coarse) == [];
    } else {
      var n := |bars| - 1;
      var front, b := bars[..n], bars[n];
      PrefixGood(bars);
      RollOfRoll(front, fine, k);
      RolledSnoc(front, b, fine);
      RolledSnoc(front, b, coarse);
      RolledSound(front, fine);
      RolledSound(bars, fine);
      var rolled := Rolled(front, fine);
      hide Rolled;
      RollOfPush(rolled, b, fine, k);
    }
  }

  lemma {:induction false} RollOfPush(rolled: seq<Bar>, b: Bar, fine: int, k: int)
    requires fine > 0 && k > 0 && fine * k > 0 && InOrder(rolled) && AllSound(rolled) && Sound(b)
    requires InOrder(Push(rolled, b, fine)) && AllSound(Push(rolled, b, fine))
    ensures Rolled(Push(rolled, b, fine), fine * k) == Push(Rolled(rolled, fine * k), b, fine * k)
  {
    var coarse := fine * k;
    var s := Slot(b.at, fine);
    SlotOfSlot(b.at, fine, k);
    if rolled != [] && rolled[|rolled| - 1].at == s {
      var m := |rolled| - 1;
      var last := rolled[m];
      PrefixGood(rolled);
      PrefixGood(Push(rolled, b, fine));
      assert Push(rolled, b, fine)[..m] == rolled[..m];
      RolledSnoc(rolled[..m], last, coarse);
      RolledSnoc(rolled[..m], Merge(last, b), coarse);
      RolledSound(rolled[..m], coarse);
      PushMerged(Rolled(rolled[..m], coarse), last, b, fine, k);
    } else {
      RolledSnoc(rolled, b.(at := s), coarse);
      PushAt(Rolled(rolled, coarse), b, s, coarse);
    }
  }

  // ---- the intervals --------------------------------------------------

  const MINUTE := 60

  /** Seconds in an interval; a day is rolled by another rule. */
  function Width(interval: string): Option<int> {
    if interval == "1m" then Some(MINUTE)
    else if interval == "5m" then Some(5 * MINUTE)
    else if interval == "15m" then Some(15 * MINUTE)
    else if interval == "30m" then Some(30 * MINUTE)
    else if interval == "1h" then Some(60 * MINUTE)
    else None
  }

  datatype Result<T> = Ok(value: T) | UnknownSession | UnsupportedInterval

  /** Trades inside the regular session, if only those are wanted. */
  function Kept(trades: seq<Trade>, regular: bool, open: int -> bool): seq<Trade> {
    if trades == [] then []
    else
      var t := trades[|trades| - 1];
      Kept(trades[..|trades| - 1], regular, open) + if !regular || open(t.at) then [t] else []
  }

  function ToMinuteBars(trades: seq<Trade>, session: string, open: int -> bool): Result<seq<Bar>> {
    if session != "regular" && session != "all" then UnknownSession
    else Ok(FromTrades(Kept(trades, session == "regular", open), MINUTE))
  }

  function Aggregate(bars: seq<Bar>, interval: string): Result<seq<Bar>> {
    if Width(interval).None? then UnsupportedInterval
    else if interval == "1m" || bars == [] then Ok(bars)
    else Ok(Rolled(bars, Width(interval).value))
  }

  lemma {:induction false} KeptFrom(trades: seq<Trade>, regular: bool, open: int -> bool)
    ensures forall t :: t in Kept(trades, regular, open) <==> t in trades && (!regular || open(t.at))
  {
    if trades != [] {
      var n := |trades| - 1;
      assert trades == trades[..n] + [trades[n]];
      KeptFrom(trades[..n], regular, open);
    }
  }

  lemma {:induction false} KeptGood(trades: seq<Trade>, regular: bool, open: int -> bool)
    requires RealTrades(trades)
    ensures RealTrades(Kept(trades, regular, open))
  {
    if trades != [] {
      var n := |trades| - 1;
      KeptGood(trades[..n], regular, open);
      var kept := Kept(trades[..n], regular, open);
      KeptFrom(trades[..n], regular, open);
      forall i | 0 <= i < |kept| ensures kept[i].at <= trades[n].at {
        assert kept[i] in kept;
        var j :| 0 <= j < n && trades[..n][j] == kept[i];
        assert trades[j] == kept[i];
      }
      hide RealTrades;
      RealSnoc(trades, kept, regular, open);
    }
  }

  lemma RealSnoc(trades: seq<Trade>, kept: seq<Trade>, regular: bool, open: int -> bool)
    requires trades != [] && RealTrades(trades) && RealTrades(kept)
             && kept == Kept(trades[..|trades| - 1], regular, open)
    requires forall i :: 0 <= i < |kept| ==> kept[i].at <= trades[|trades| - 1].at
    ensures RealTrades(Kept(trades, regular, open))
  {
  }

  lemma TickBarsGood(trades: seq<Trade>)
    requires RealTrades(trades)
    ensures InOrder(TickBars(trades)) && AllSound(TickBars(trades))
  {
  }

  lemma NoneRolled(bars: seq<Bar>, width: int)
    requires width > 0 && InOrder(bars)
    ensures Rolled(bars, MINUTE) == [] ==> Rolled(bars, width) == []
  {
    SlotsAscend(bars, MINUTE);
  }

  /** Rolling trades to minutes and those to a coarser interval is rolling the
      trades straight to it: prices, volume and trade-true vwap alike. */
  lemma MinutesThenInterval(trades: seq<Trade>, session: string, open: int -> bool, interval: string)
    requires RealTrades(trades) && (session == "regular" || session == "all") && Width(interval).Some?
    ensures Aggregate(ToMinuteBars(trades, session, open).value, interval)
         == Ok(FromTrades(Kept(trades, session == "regular", open), Width(interval).value))
  {
    var kept := Kept(trades, session == "regular", open);
    KeptGood(trades, session == "regular", open);
    TickBarsGood(kept);
    var bars := TickBars(kept);
    hide Rolled, TickBars, Kept, InOrder, AllSound;
    var w := Width(interval).value;
    assert w == MINUTE * (w / MINUTE);
    RollOfRoll(bars, MINUTE, w / MINUTE);
    NoneRolled(bars, w);
  }

  // ---- what a bar holds -----------------------------------------------

  function Prices(g: seq<Trade>): set<real> {
    set t | t in g :: t.price
  }

  function Size(g: seq<Trade>): real {
    if g == [] then 0.0 else Size(g[..|g| - 1]) + g[|g| - 1].size
  }

  function Spent(g: seq<Trade>): real {
    if g == [] then 0.0 else Spent(g[..|g| - 1]) + g[|g| - 1].price * g[|g| - 1].size
  }

  /** The trades of a stretch of time, of the session only if it is asked for. */
  function TradesIn(trades: seq<Trade>, from: int, to: int, regular: bool, open: int -> bool): seq<Trade> {
    if trades == [] then []
    else
      var t := trades[|trades| - 1];
      TradesIn(trades[..|trades| - 1], from, to, regular, open)
      + if from <= t.at < to && (!regular || open(t.at)) then [t] else []
  }

  /** What a bar has to say of the trades it holds: the first, largest, smallest
      and last price, the size traded and the price paid on average, if anything was. */
  ghost predicate Tells(b: Bar, g: seq<Trade>) {
    && g != [] && b.open == g[0].price && b.close == g[|g| - 1].price
    && b.high in Prices(g) && b.low in Prices(g) && (forall t :: t in g ==> b.low <= t.price <= b.high)
    && b.volume == Size(g)
    && (if Size(g) == 0.0 then b.vwap == None else b.vwap == Some(Spent(g) / Size(g)))
  }

  /** A bar `width` seconds wide. */
  ghost predicate BarOf(b: Bar, trades: seq<Trade>, width: int, regular: bool, open: int -> bool)
    requires width > 0
  {
    b.at % width == 0 && Tells(b, TradesIn(trades, b.at, b.at + width, regular, open))
  }

  /** The bars of the trades: one, and only one, for each stretch that has any, in
      time order. */
  ghost predicate BarsOf(bars: seq<Bar>, trades: seq<Trade>, width: int, regular: bool, open: int -> bool)
    requires width > 0
  {
    && (forall k :: 0 <= k < |bars| ==> BarOf(bars[k], trades, width, regular, open))
    && (forall i, j :: 0 <= i < j < |bars| ==> bars[i].at + width <= bars[j].at)
    && forall t :: t in trades && (!regular || open(t.at)) ==>
         exists k :: 0 <= k < |bars| && bars[k].at <= t.at < bars[k].at + width
  }

  /** A slot is the stretch of its width. */
  lemma SlotMeans(at: int, slot: int, width: int)
    requires width > 0
    ensures Slot(at, width) % width == 0 && Slot(at, width) <= at < Slot(at, width) + width
    ensures slot % width == 0 ==> (Slot(at, width) == slot <==> slot <= at < slot + width)
  {
    var q := at / width;
    assert at == width * q + at % width;
    Arith.DivMod(Slot(at, width), width, q, 0);
    if slot % width == 0 && slot <= at < slot + width {
      assert slot == width * (slot / width);
      Arith.DivMod(at, width, slot / width, at - slot);
    }
  }

  lemma MultiplesApart(a: int, b: int, width: int)
    requires width > 0 && a % width == 0 && b % width == 0 && a < b
    ensures a + width <= b
  {
    SlotMeans(b, a, width);
    SlotMeans(b, b, width);
  }

  lemma TickTraded(t: Trade)
    ensures Traded(TickBar(t)) == if t.size == 0.0 then 0.0 else t.price * t.size
  {
    if t.size != 0.0 { RatioTimes(t.price * t.size, t.size); }
  }

  lemma {:induction false} TicksInSlot(trades: seq<Trade>, slot: int, width: int)
    requires width > 0
    ensures InSlot(TickBars(trades), slot, width) == TickBars(SlotTrades(trades, slot, width))
  {
    if trades != [] {
      var n := |trades| - 1;
      TicksInSlot(trades[..n], slot, width);
      assert TickBars(trades)[..n] == TickBars(trades[..n]);
      assert TickBars(trades)[n].at == trades[n].at;
    }
  }

  function SlotTrades(trades: seq<Trade>, slot: int, width: int): seq<Trade>
    requires width > 0
  {
    if trades == [] then []
    else
      var t := trades[|trades| - 1];
      SlotTrades(trades[..|trades| - 1], slot, width) + if Slot(t.at, width) == slot then [t] else []
  }

  lemma {:induction false} SlotStretch(trades: seq<Trade>, slot: int, width: int, regular: bool, open: int -> bool)
    requires width > 0 && forall at :: Slot(at, width) == slot <==> slot <= at < slot + width
    ensures SlotTrades(Kept(trades, regular, open), slot, width)
         == TradesIn(trades, slot, slot + width, regular, open)
  {
    hide Slot;
    if trades != [] {
      var n := |trades| - 1;
      var t, before := trades[n], Kept(trades[..n], regular, open);
      SlotStretch(trades[..n], slot, width, regular, open);
      assert Kept(trades, regular, open) == if !regular || open(t.at) then before + [t] else before;
      assert (before + [t])[..|before|] == before;
    }
  }

  lemma {:induction false} TickSums(g: seq<Trade>)
    ensures Volume(TickBars(g)) == Size(g) && Turnover(TickBars(g)) == Spent(g)
  {
    if g != [] {
      var n := |g| - 1;
      TickSums(g[..n]);
      assert TickBars(g)[..n] == TickBars(g[..n]);
      TickTraded(g[n]);
      assert TickBars(g)[n] == TickBar(g[n]);
      hide TickBar;
      assert g[n].size == 0.0 ==> g[n].price * g[n].size == 0.0;
    }
  }

  lemma {:induction false} TickExtremes(g: seq<Trade>)
    requires g != []
    ensures Highest(TickBars(g)) in Prices(g) && Lowest(TickBars(g)) in Prices(g)
    ensures forall t :: t in g ==> Lowest(TickBars(g)) <= t.price <= Highest(TickBars(g))
  {
    var n := |g| - 1;
    assert g == g[..n] + [g[n]];
    if n > 0 {
      TickExtremes(g[..n]);
      assert TickBars(g)[..n] == TickBars(g[..n]);
    }
    assert TickBars(g)[n].high == g[n].price == TickBars(g)[n].low;
  }

  lemma TradeBarMeans(trades: seq<Trade>, width: int, k: nat)
    requires width > 0 && RealTrades(trades) && k < |FromTrades(trades, width)|
    ensures var b := FromTrades(trades, width)[k]; Tells(b, SlotTrades(trades, b.at, width))
  {
    var ticks := TickBars(trades);
    var slot := Slots(ticks, width)[k];
    SlotHasBars(ticks, width, slot);
    TicksInSlot(trades, slot, width);
    var g := SlotTrades(trades, slot, width);
    TickSums(g);
    TickExtremes(g);
    assert TickBars(g)[0].open == g[0].price && TickBars(g)[|g| - 1].close == g[|g| - 1].price;
  }

  lemma {:induction false} SlotsAre(bars: seq<Bar>, width: int, k: nat)
    requires width > 0 && k < |Slots(bars, width)|
    ensures Slots(bars, width)[k] % width == 0
  {
    var n := |bars| - 1;
    SlotMeans(bars[n].at, 0, width);
    if k < |Slots(bars[..n], width)| { SlotsAre(bars[..n], width, k); }
  }

  lemma BarStands(bars: seq<Bar>, width: int, k: nat)
    requires width > 0 && k < |Slots(bars, width)|
    ensures Rolled(bars, width)[k].at == Slots(bars, width)[k]
  {
  }

  lemma SessionBar(trades: seq<Trade>, width: int, regular: bool, open: int -> bool, k: nat)
    requires width > 0 && RealTrades(trades) && k < |FromTrades(Kept(trades, regular, open), width)|
    ensures BarOf(FromTrades(Kept(trades, regular, open), width)[k], trades, width, regular, open)
  {
    hide Kept, TickBars, Rolled, Slots, Tells, RealTrades, TradesIn, SlotTrades;
    var kept := Kept(trades, regular, open);
    KeptGood(trades, regular, open);
    BarStands(TickBars(kept), width, k);
    SlotsAre(TickBars(kept), width, k);
    var slot := FromTrades(kept, width)[k].at;
    forall at ensures Slot(at, width) == slot <==> slot <= at < slot + width { SlotMeans(at, slot, width); }
    SlotStretch(trades, slot, width, regular, open);
    TradeBarMeans(kept, width, k);
  }

  lemma TradeListed(trades: seq<Trade>, width: int, regular: bool, open: int -> bool, t: Trade) returns (k: nat)
    requires width > 0 && t in trades && (!regular || open(t.at))
    ensures var bars := FromTrades(Kept(trades, regular, open), width);
            k < |bars| && bars[k].at <= t.at < bars[k].at + width
  {
    var kept := Kept(trades, regular, open);
    var ticks := TickBars(kept);
    KeptFrom(trades, regular, open);
    var i :| 0 <= i < |kept| && kept[i] == t;
    assert ticks[i].at == t.at;
    SlotListed(ticks, width, i);
    SlotMeans(t.at, 0, width);
    k :| 0 <= k < |Slots(ticks, width)| && Slots(ticks, width)[k] == Slot(t.at, width);
    BarStands(ticks, width, k);
  }

  lemma BarsApart(trades: seq<Trade>, width: int, regular: bool, open: int -> bool, i: nat, j: nat)
    requires width > 0 && RealTrades(trades) && i < j < |FromTrades(Kept(trades, regular, open), width)|
    ensures var bars := FromTrades(Kept(trades, regular, open), width); bars[i].at + width <= bars[j].at
  {
    hide Kept, TickBars, Slots, Rolled, InOrder, RealTrades;
    var ticks := TickBars(Kept(trades, regular, open));
    KeptGood(trades, regular, open);
    TickBarsGood(Kept(trades, regular, open));
    SlotsAscend(ticks, width);
    BarStands(ticks, width, i);
    BarStands(ticks, width, j);
    SlotsAre(ticks, width, i);
    SlotsAre(ticks, width, j);
    MultiplesApart(Slots(ticks, width)[i], Slots(ticks, width)[j], width);
  }

  /** Rolling the trades of a session to any width yields the bars of that width. */
  lemma TradesCovered(trades: seq<Trade>, width: int, regular: bool, open: int -> bool)
    requires width > 0 && RealTrades(trades)
    ensures BarsOf(FromTrades(Kept(trades, regular, open), width), trades, width, regular, open)
  {
    hide Slots, Kept, TickBars, SlotBar, InOrder, FromTrades, BarOf;
    var bars := FromTrades(Kept(trades, regular, open), width);
    forall k | 0 <= k < |bars| ensures BarOf(bars[k], trades, width, regular, open) {
      SessionBar(trades, width, regular, open, k);
    }
    forall i, j | 0 <= i < j < |bars| ensures bars[i].at + width <= bars[j].at {
      BarsApart(trades, width, regular, open, i, j);
    }
    forall t | t in trades && (!regular || open(t.at))
      ensures exists k :: 0 <= k < |bars| && bars[k].at <= t.at < bars[k].at + width
    {
      var k := TradeListed(trades, width, regular, open, t);
    }
  }

  /** A list of bars is determined by what they have to say. */
  lemma OneTelling(a: Bar, b: Bar, trades: seq<Trade>, width: int, regular: bool, open: int -> bool)
    requires width > 0 && a.at == b.at
    requires BarOf(a, trades, width, regular, open) && BarOf(b, trades, width, regular, open)
    ensures a == b
  {
    hide TradesIn;
    var g := TradesIn(trades, a.at, a.at + width, regular, open);
    var h, l :| h in g && h.price == a.high && l in g && l.price == a.low;
    var h', l' :| h' in g && h'.price == b.high && l' in g && l'.price == b.low;
  }

  /** The supported intervals: minute bars and what they roll up to are the bars of
      the session's trades at the width of the interval. */
  lemma Intervals(trades: seq<Trade>, session: string, open: int -> bool, interval: string)
    requires RealTrades(trades)
    ensures ToMinuteBars(trades, session, open) == UnknownSession <==> session != "regular" && session != "all"
    ensures session == "regular" || session == "all" ==>
      var minutes, regular := ToMinuteBars(trades, session, open), session == "regular";
      && minutes.Ok? && BarsOf(minutes.value, trades, 60, regular, open)
      && var bars := Aggregate(minutes.value, interval);
         && (interval == "1m" ==> bars.Ok? && BarsOf(bars.value, trades, 60, regular, open))
         && (interval == "5m" ==> bars.Ok? && BarsOf(bars.value, trades, 300, regular, open))
         && (interval == "15m" ==> bars.Ok? && BarsOf(bars.value, trades, 900, regular, open))
         && (interval == "30m" ==> bars.Ok? && BarsOf(bars.value, trades, 1800, regular, open))
         && (interval == "1h" ==> bars.Ok? && BarsOf(bars.value, trades, 3600, regular, open))
         && (interval !in ["1m", "5m", "15m", "30m", "1h"] ==> bars == UnsupportedInterval)
  {
    if session == "regular" || session == "all" {
      TradesCovered(trades, 60, session == "regular", open);
      hide BarsOf, Rolled, FromTrades, Kept;
      if Width(interval).Some? {
        TradesCovered(trades, Width(interval).value, session == "regular", open);
        MinutesThenInterval(trades, session, open, interval);
      }
    }
  }

  lemma {:induction false} SlotListed(bars: seq<Bar>, width: int, i: nat)
    requires width > 0 && i < |bars|
    ensures Slot(bars[i].at, width) in Slots(bars, width)
  {
    if i < |bars| - 1 { SlotListed(bars[..|bars| - 1], width, i); }
  }

  /** Rolling neither loses nor makes volume or turnover, so prices averaged over
      any stretch of whole slots come out the same from the rolled bars. */
  lemma {:induction false} Conserved(bars: seq<Bar>, width: int)
    requires width > 0 && InOrder(bars) && AllSound(bars)
    ensures Volume(Rolled(bars, width)) == Volume(bars) && Turnover(Rolled(bars, width)) == Turnover(bars)
  {
    if bars == [] {
      assert Rolled(bars, width) == [];
    } else {
      var n := |bars| - 1;
      var b := bars[n];
      PrefixGood(bars);
      Conserved(bars[..n], width);
      RolledSnoc(bars[..n], b, width);
      RolledSound(bars[..n], width);
      var acc := Rolled(bars[..n], width);
      hide Rolled;
      SumsOfPush(acc, b, width);
    }
  }

  lemma SumsOfPush(acc: seq<Bar>, b: Bar, width: int)
    requires width > 0 && AllSound(acc) && Sound(b)
    ensures Volume(Push(acc, b, width)) == Volume(acc) + b.volume
            && Turnover(Push(acc, b, width)) == Turnover(acc) + Traded(b)
  {
    var p := Push(acc, b, width);
    TradedAt(b, Slot(b.at, width));
    if |p| == |acc| {
      assert p[..|p| - 1] == acc[..|acc| - 1];
      MergeTraded(acc[|acc| - 1], b);
    } else {
      assert p[..|p| - 1] == acc;
    }
    hide Traded;
  }
}
