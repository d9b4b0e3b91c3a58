/** Series pushes of the technical-analysis socket (live-grid/app/ta/payload.py,
    series_payload.py, session.py, sources.py): after one full push, only the
    rows that may have changed are sent, and the client merges them. */
module SeriesDelta {
  import opened Options
  import I = Iterative

  /** A bar; one whose date did not parse has none. */
  datatype Bar = Bar(date: Option<int>, open: real, high: real, low: real, close: real, volume: real,
                     vwap: Option<real>)

  type Frame = seq<Bar>

  /** A computed column over a frame. */
  type Column = Frame -> seq<Option<real>>

  ghost predicate Shaped(col: Column) {
    forall f :: |col(f)| == |f|
  }

  /** A value depends on the rows up to its own. */
  ghost predicate Causal(col: Column) {
    && Shaped(col)
    && forall f, g, i :: 0 <= i < |f| && i < |g| && f[..i + 1] == g[..i + 1] ==> col(f)[i] == col(g)[i]
  }

  // ---- where a delta starts -------------------------------------------

  function Dates(f: Frame): (d: seq<Option<int>>)
    ensures |d| == |f|
  {
    seq(|f|, i requires 0 <= i < |f| => f[i].date)
  }

  function Max(a: int, b: int): int { if a >= b then a else b }

  function Min(a: int, b: int): int { if a <= b then a else b }

  /** The first row whose value may have changed: the previous last row was
      still forming. */
  function RevisedFrom(previous: seq<Option<int>>, current: seq<Option<int>>): nat {
    if previous == [] || |current| < |previous| then 0
    else if current[..|previous|] != previous then 0
    else Max(0, |previous| - 1)
  }

  /** The exchange's session of a stamp. */
  type Session = int -> int

  function DayOf(b: Bar, sess: Session): Option<int> {
    if b.date.None? then None else Some(sess(b.date.value))
  }

  /** The first row of the last row's session. */
  function RunningSessionStart(f: Frame, sess: Session): (r: nat)
    ensures if f == [] then r == 0 else r < |f|
    ensures f != [] && f[|f| - 1].date.None? ==> r == |f| - 1
    ensures f != [] && f[|f| - 1].date.Some? ==>
              DayOf(f[r], sess) == DayOf(f[|f| - 1], sess) && forall i :: 0 <= i < r ==>
                DayOf(f[i], sess) != DayOf(f[|f| - 1], sess)
  {
    if f == [] then 0
    else if f[|f| - 1].date.None? then |f| - 1
    else FirstOf(f, DayOf(f[|f| - 1], sess), sess)
  }

  function FirstOf(f: Frame, day: Option<int>, sess: Session): (r: nat)
    requires exists i :: 0 <= i < |f| && DayOf(f[i], sess) == day
    ensures r < |f| && DayOf(f[r], sess) == day && forall i :: 0 <= i < r ==> DayOf(f[i], sess) != day
  {
    if DayOf(f[0], sess) == day then 0
    else
      assert exists i :: 0 <= i < |f[1..]| && DayOf(f[1..][i], sess) == day by {
        var i :| 0 <= i < |f| && DayOf(f[i], sess) == day;
        assert f[1..][i - 1] == f[i];
      }
      1 + FirstOf(f[1..], day, sess)
  }

  // ---- what is plotted ------------------------------------------------

  /** A plotted series: over bars, or over sessions for a business-day window. */
  datatype Series = Series(column: string, offset: int, byDay: bool, col: Column)

  datatype Pane = Pane(id: string, series: seq<Series>)

  datatype Point = Point(time: Option<int>, value: Option<real>)

  datatype Plot = Plot(column: string, data: seq<Point>)

  datatype PaneData = PaneData(id: string, plots: seq<Plot>)

  datatype Payload = Payload(candles: seq<Bar>, panes: seq<PaneData>)

  datatype Delta = Delta(start: nat, candles: seq<Bar>, panes: seq<PaneData>)

  predicate HasUnits(panes: seq<Pane>) {
    exists p :: 0 <= p < |panes| && exists k :: 0 <= k < |panes[p].series| && panes[p].series[k].byDay
  }

  function DeltaStart(panes: seq<Pane>, previous: seq<Option<int>>, f: Frame, sess: Session): nat {
    var start := RevisedFrom(previous, Dates(f));
    if HasUnits(panes) then Min(start, RunningSessionStart(f, sess)) else start
  }

  // ---- sessions -------------------------------------------------------

  datatype Day = Day(day: Option<int>, bar: Bar)

  /** A session's bar with one more of its bars: open first, high the largest,
      low the smallest, close, date and vwap last, volume summed. */
  function Rolled(a: Bar, b: Bar): Bar {
    Bar(b.date, a.open, if b.high > a.high then b.high else a.high, if b.low < a.low then b.low else a.low,
        b.close, a.volume + b.volume, b.vwap)
  }

  /** The sessions with one more bar: into the last of them, or a new one. */
  function Joined(days: seq<Day>, b: Bar, sess: Session): (r: seq<Day>)
    ensures |days| <= |r| <= |days| + 1 && r != [] && r[|r| - 1].day == DayOf(b, sess)
    ensures forall k :: 0 <= k < |r| - 1 ==> r[k] == days[k]
    ensures |r| == |days| <==> days != [] && days[|days| - 1].day == DayOf(b, sess)
  {
    if days != [] && days[|days| - 1].day == DayOf(b, sess) then
      days[..|days| - 1] + [Day(DayOf(b, sess), Rolled(days[|days| - 1].bar, b))]
    else days + [Day(DayOf(b, sess), b)]
  }

  /** One row per session, in order. */
  function SessionDays(f: Frame, sess: Session): (days: seq<Day>)
    ensures f == [] <==> days == []
    ensures f != [] ==> days[|days| - 1].day == DayOf(f[|f| - 1], sess)
  {
    if f == [] then [] else Joined(SessionDays(f[..|f| - 1], sess), f[|f| - 1], sess)
  }

  function SessionCloses(f: Frame, sess: Session): Frame {
    var days := SessionDays(f, sess);
    seq(|days|, k requires 0 <= k < |days| => days[k].bar)
  }

  predicate NotAfter(a: Option<int>, b: Option<int>) {
    a.Some? && b.Some? && a.value <= b.value
  }

  /** The last session not after a day: an as-of join, backward. */
  function AsOf(days: seq<Day>, day: Option<int>): Option<nat> {
    if days == [] then None
    else if NotAfter(days[|days| - 1].day, day) then Some(|days| - 1)
    else AsOf(days[..|days| - 1], day)
  }

  /** A column computed on sessions and handed to every bar of its session. */
  function ByDay(col: Column, f: Frame, sess: Session): seq<Option<real>> {
    var days := SessionDays(f, sess);
    var values := col(SessionCloses(f, sess));
    seq(|f|, i requires 0 <= i < |f| =>
      var k := AsOf(days, DayOf(f[i], sess));
      if k.Some? && k.value < |values| then values[k.value] else None)
  }

  function Values(s: Series, f: Frame, sess: Session): seq<Option<real>> {
    if s.byDay then ByDay(s.col, f, sess) else s.col(f)
  }

  // ---- displaced times ------------------------------------------------

  /** The smallest step up between neighbours. */
  function Spacing(times: seq<Option<int>>): Option<int> {
    if |times| < 2 then None
    else
      var rest := Spacing(times[1..]);
      if times[0].None? || times[1].None? || times[1].value <= times[0].value then rest
      else
        var gap := times[1].value - times[0].value;
        if rest.None? || gap < rest.value then Some(gap) else rest
  }

  function LastKnown(times: seq<Option<int>>): Option<nat> {
    if times == [] then None
    else if times[|times| - 1].Some? then Some(|times| - 1)
    else LastKnown(times[..|times| - 1])
  }

  function FirstKnown(times: seq<Option<int>>, i: nat): (r: nat)
    requires i <= |times|
    decreases |times| - i
  {
    if i == |times| || times[i].Some? then i else FirstKnown(times, i + 1)
  }

  /** Where each value is plotted, `offset` bars on. */
  function ShiftTimes(times: seq<Option<int>>, offset: int): (r: seq<Option<int>>)
    ensures |r| == |times|
  {
    if offset == 0 then times
    else
      seq(|times|, i requires 0 <= i < |times| => Shifted(times, i + offset))
  }

  function Shifted(times: seq<Option<int>>, target: int): Option<int> {
    var step, last, first := Spacing(times), LastKnown(times), FirstKnown(times, 0);
    if 0 <= target < |times| then times[target]
    else if step.None? || last.None? || first >= |times| then None
    else if target >= |times| then
      if last.value < |times| && times[last.value].Some?
        then Some(times[last.value].value + step.value * (target - last.value)) else None
    else
      if times[first].Some? then Some(times[first].value + step.value * (target - first)) else None
  }

  /** The `k`-th time and the next are known, and the next is later. */
  ghost predicate StepsUp(times: seq<Option<int>>, k: int) {
    0 <= k < |times| - 1 && times[k].Some? && times[k + 1].Some? && times[k].value < times[k + 1].value
  }

  ghost function Gap(times: seq<Option<int>>, k: int): int
    requires StepsUp(times, k)
  {
    times[k + 1].value - times[k].value
  }

  /** `gap` is the smallest step up between neighbours. */
  ghost predicate IsGap(times: seq<Option<int>>, gap: int) {
    && (exists k :: StepsUp(times, k) && gap == Gap(times, k))
    && forall k :: StepsUp(times, k) ==> Gap(times, k) >= gap
  }

  lemma RestSteps(times: seq<Option<int>>, k: int)
    requires |times| >= 2
    ensures k > 0 ==> (StepsUp(times, k) <==> StepsUp(times[1..], k - 1))
    ensures k > 0 && StepsUp(times, k) ==> Gap(times, k) == Gap(times[1..], k - 1)
  {
  }

  lemma {:induction false} SpacingMeans(times: seq<Option<int>>)
    ensures if Spacing(times).Some? then IsGap(times, Spacing(times).value) else forall k :: !StepsUp(times, k)
  {
    if |times| >= 2 {
      var rest := times[1..];
      SpacingMeans(rest);
      SpacingStep(times);
      forall k { RestSteps(times, k); }
      hide Spacing, StepsUp, Gap;
      if k :| StepsUp(rest, k) && Spacing(rest).Some? && Spacing(rest).value == Gap(rest, k) {
        RestSteps(times, k + 1);
        StepsIn(rest, k);
        assert StepsUp(times, k + 1);
      }
      forall k | StepsUp(times, k) && k != 0 ensures StepsUp(rest, k - 1) && Gap(times, k) == Gap(rest, k - 1) {
        StepsIn(times, k);
      }
    }
  }

  lemma StepsIn(times: seq<Option<int>>, k: int)
    requires StepsUp(times, k)
    ensures k >= 0
  {
  }

  lemma SpacingStep(times: seq<Option<int>>)
    requires |times| >= 2
    ensures var rest := Spacing(times[1..]);
            Spacing(times)
            == if StepsUp(times, 0) && (rest.None? || Gap(times, 0) < rest.value) then Some(Gap(times, 0)) else rest
  {
  }

  lemma {:induction false} LastKnownMeans(times: seq<Option<int>>)
    ensures var l := LastKnown(times);
            if l.None? then forall k :: 0 <= k < |times| ==> times[k].None?
            else l.value < |times| && times[l.value].Some? && forall k :: l.value < k < |times| ==> times[k].None?
  {
    if times != [] { LastKnownMeans(times[..|times| - 1]); }
  }

  lemma {:induction false} FirstKnownMeans(times: seq<Option<int>>, i: nat)
    requires i <= |times|
    ensures var r := FirstKnown(times, i);
            i <= r <= |times| && (r < |times| ==> times[r].Some?) && forall k :: i <= k < r ==> times[k].None?
    decreases |times| - i
  {
    if i < |times| && times[i].None? { FirstKnownMeans(times, i + 1); }
  }

  /** Displaced times: `offset` bars on, a bar's own time where there is one; beyond
      the ends, as many of the smallest steps on from the last time known, or back
      from the first; nowhere, if no time is known or none steps up. */
  lemma ShiftMeans(times: seq<Option<int>>, offset: int, i: nat) returns (gap: int, first: nat, last: nat)
    requires i < |times|
    ensures var to := ShiftTimes(times, offset)[i];
            if 0 <= i + offset < |times| then to == times[i + offset]
            else if exists k :: StepsUp(times, k) then
              && IsGap(times, gap)
              && first < |times| && times[first].Some? && (forall k :: 0 <= k < first ==> times[k].None?)
              && last < |times| && times[last].Some? && (forall k :: last < k < |times| ==> times[k].None?)
              && to == Some(if i + offset >= |times| then times[last].value + gap * (i + offset - last)
                            else times[first].value - gap * (first - (i + offset)))
            else to.None?
  {
    gap, first, last := 0, 0, 0;
    assert ShiftTimes(times, offset)[i] == Shifted(times, i + offset);
    hide ShiftTimes, IsGap, Spacing, LastKnown, FirstKnown, Gap;
    if 0 <= i + offset < |times| { return; }
    SpacingMeans(times);
    StepsIff(times);
    if Spacing(times).Some? {
      LastKnownMeans(times);
      FirstKnownMeans(times, 0);
      gap, first, last := Spacing(times).value, FirstKnown(times, 0), LastKnown(times).value;
      hide StepsUp;
      ShiftedFar(times, i + offset, gap, first, last);
    }
  }

  lemma StepsIff(times: seq<Option<int>>)
    ensures if Spacing(times).Some? then
              (exists k :: StepsUp(times, k)) && exists k :: 0 <= k < |times| && times[k].Some?
            else !exists k :: StepsUp(times, k)
  {
    SpacingMeans(times);
    hide Spacing;
    if Spacing(times).Some? {
      var k :| StepsUp(times, k);
      assert times[k].Some?;
    }
  }

  lemma ShiftedFar(times: seq<Option<int>>, target: int, gap: int, first: nat, last: nat)
    requires Spacing(times) == Some(gap) && LastKnown(times) == Some(last) && FirstKnown(times, 0) == first
    requires first < |times| && times[first].Some? && last < |times| && times[last].Some?
    requires !(0 <= target < |times|)
    ensures Shifted(times, target)
            == Some(if target >= |times| then times[last].value + gap * (target - last)
                    else times[first].value - gap * (first - target))
  {
    Backwards(gap, first, target);
    hide Spacing, LastKnown, FirstKnown;
  }

  lemma Backwards(gap: int, first: int, target: int)
    ensures gap * (target - first) == -(gap * (first - target))
  {
  }

  // ---- pushes ---------------------------------------------------------

  function PlotOf(s: Series, f: Frame, sess: Session): (plot: Plot)
    ensures |plot.data| == |f|
  {
    var times := ShiftTimes(Dates(f), s.offset);
    var values := Values(s, f, sess);
    Plot(s.column, seq(|f|, i requires 0 <= i < |f| => Point(times[i], if i < |values| then values[i] else None)))
  }

  function From<T>(s: seq<T>, start: nat): seq<T> {
    if start <= |s| then s[start..] else []
  }

  function PlotsOf(series: seq<Series>, f: Frame, start: nat, sess: Session): seq<Plot> {
    seq(|series|, k requires 0 <= k < |series| =>
      var plot := PlotOf(series[k], f, sess);
      Plot(plot.column, From(plot.data, start)))
  }

  /** `_panes_of`: times and values over the whole frame, points cut afterwards. */
  function PanesOf(panes: seq<Pane>, f: Frame, start: nat, sess: Session): seq<PaneData> {
    seq(|panes|, p requires 0 <= p < |panes| => PaneData(panes[p].id, PlotsOf(panes[p].series, f, start, sess)))
  }

  function Build(panes: seq<Pane>, f: Frame, sess: Session): Payload {
    Payload(f, PanesOf(panes, f, 0, sess))
  }

  function SeriesDelta(panes: seq<Pane>, f: Frame, startRow: nat, sess: Session): Delta {
    var start := Min(startRow, |f|);
    Delta(start, From(f, start), PanesOf(panes, f, start, sess))
  }

  function Upto<T>(s: seq<T>, start: nat): seq<T> {
    if start <= |s| then s[..start] else s
  }

  function MergePlots(was: seq<Plot>, plots: seq<Plot>, start: nat): seq<Plot> {
    seq(|plots|, k requires 0 <= k < |plots| =>
      Plot(plots[k].column, Upto(if k < |was| then was[k].data else [], start) + plots[k].data))
  }

  function MergePanes(was: seq<PaneData>, panes: seq<PaneData>, start: nat): seq<PaneData> {
    seq(|panes|, p requires 0 <= p < |panes| =>
      PaneData(panes[p].id, MergePlots(if p < |was| then was[p].plots else [], panes[p].plots, start)))
  }

  /** The client's merge: keep what lies before the start, take the rest. */
  function Merge(was: Payload, d: Delta): Payload {
    Payload(Upto(was.candles, d.start) + d.candles, MergePanes(was.panes, d.panes, d.start))
  }

  // ---- exactness ------------------------------------------------------

  /** The points of a series before `start` are the same in both frames. */
  predicate SameBefore(s: Series, was: Frame, now: Frame, start: nat, sess: Session)
    requires start <= |was| && start <= |now|
  {
    PlotOf(s, was, sess).data[..start] == PlotOf(s, now, sess).data[..start]
  }

  predicate EverySame(panes: seq<Pane>, was: Frame, now: Frame, start: nat, sess: Session)
    requires start <= |was| && start <= |now|
  {
    forall i :: 0 <= i < |panes| ==> AllSame(panes[i].series, was, now, start, sess)
  }

  predicate AllSame(series: seq<Series>, was: Frame, now: Frame, start: nat, sess: Session)
    requires start <= |was| && start <= |now|
  {
    forall k :: 0 <= k < |series| ==> SameBefore(series[k], was, now, start, sess)
  }

  lemma MergePlot(s: Series, was: Frame, now: Frame, start: nat, sess: Session)
    requires start <= |was| && start <= |now|
    ensures var a, b := PlotOf(s, was, sess).data, PlotOf(s, now, sess).data;
            Upto(From(a, 0), start) + From(b, start) == From(b, 0) <==> SameBefore(s, was, now, start, sess)
  {
    var a, b := PlotOf(s, was, sess).data, PlotOf(s, now, sess).data;
    hide PlotOf;
    assert |a| == |was| && |b| == |now|;
    assert b == b[..start] + b[start..];
    var m := a[..start] + b[start..];
    if m == b {
      assert a[..start] == m[..start];
    }
  }

  lemma MergePlotsExact(series: seq<Series>, was: Frame, now: Frame, start: nat, sess: Session)
    requires start <= |was| && start <= |now|
    ensures MergePlots(PlotsOf(series, was, 0, sess), PlotsOf(series, now, start, sess), start)
            == PlotsOf(series, now, 0, sess)
            <==> AllSame(series, was, now, start, sess)
  {
    hide PlotOf, SameBefore, From, Upto;
    var m := MergePlots(PlotsOf(series, was, 0, sess), PlotsOf(series, now, start, sess), start);
    var want := PlotsOf(series, now, 0, sess);
    forall k | 0 <= k < |series| ensures m[k] == want[k] <==> SameBefore(series[k], was, now, start, sess) {
      MergePlot(series[k], was, now, start, sess);
      assert PlotOf(series[k], was, sess).column
             == PlotOf(series[k], now, sess).column by { SameColumn(series[k], was, now, sess); }
    }
    assert m == want <==> forall k :: 0 <= k < |series| ==> m[k] == want[k];
  }

  lemma SameColumn(s: Series, was: Frame, now: Frame, sess: Session)
    ensures PlotOf(s, was, sess).column == PlotOf(s, now, sess).column
  {
  }

  /** A delta merges into the new full push exactly if no series has moved before
      its start. */
  lemma MergeExact(panes: seq<Pane>, was: Frame, now: Frame, start: nat, sess: Session)
    requires start <= |was| && start <= |now| && was[..start] == now[..start]
    ensures Merge(Build(panes, was, sess), SeriesDelta(panes, now, start, sess)) == Build(panes, now, sess)
            <==> EverySame(panes, was, now, start, sess)
  {
    hide PlotsOf, MergePlots, AllSame;
    var m := MergePanes(PanesOf(panes, was, 0, sess), PanesOf(panes, now, start, sess), start);
    var want := PanesOf(panes, now, 0, sess);
    forall i | 0 <= i < |panes| ensures m[i] == want[i] <==> AllSame(panes[i].series, was, now, start, sess) {
      MergePlotsExact(panes[i].series, was, now, start, sess);
    }
    assert m == want <==> forall i :: 0 <= i < |panes| ==> m[i] == want[i];
    assert now == now[..start] + now[start..];
  }

  // ---- bar columns ----------------------------------------------------

  predicate Plain(s: Series) { s.offset == 0 && !s.byDay }

  ghost predicate AllPlain(panes: seq<Pane>) {
    forall i, k :: 0 <= i < |panes| && 0 <= k < |panes[i].series| ==>
      Plain(panes[i].series[k]) && Causal(panes[i].series[k].col)
  }

  lemma CausalBefore(col: Column, was: Frame, now: Frame, i: nat, start: nat)
    requires Causal(col) && i < start <= |was| && start <= |now| && was[..start] == now[..start]
    ensures |col(was)| == |was| && |col(now)| == |now| && col(was)[i] == col(now)[i]
  {
    assert was[..i + 1] == was[..start][..i + 1] == now[..start][..i + 1] == now[..i + 1];
  }

  lemma PlainSame(s: Series, was: Frame, now: Frame, start: nat, sess: Session)
    requires Plain(s) && Causal(s.col) && start <= |was| && start <= |now| && was[..start] == now[..start]
    ensures SameBefore(s, was, now, start, sess)
  {
    var a, b := PlotOf(s, was, sess).data, PlotOf(s, now, sess).data;
    forall i | 0 <= i < start ensures a[i] == b[i] {
      CausalBefore(s.col, was, now, i, start);
      assert was[i] == was[..start][i] == now[..start][i] == now[i];
    }
  }

  /** The first row revised: the previous last one, if its dates all stand; else all. */
  lemma RevisedMeans(was: Frame, now: Frame)
    ensures RevisedFrom(Dates(was), Dates(now))
            == if |was| > 0 && |was| <= |now| && forall i :: 0 <= i < |was| ==> was[i].date == now[i].date
               then |was| - 1 else 0
  {
    var a, b := Dates(was), Dates(now);
    if |a| <= |b| {
      assert b[..|a|] == a <==> forall i :: 0 <= i < |was| ==> was[i].date == now[i].date by {
        if b[..|a|] == a {
          forall i | 0 <= i < |was| ensures was[i].date == now[i].date { assert b[..|a|][i] == a[i]; }
        }
      }
    }
  }

  /** What is assumed of a push answered with a delta: before the previous last
      row no bar has changed. */
  predicate OnlyTailMoved(was: Frame, now: Frame) {
    var r := RevisedFrom(Dates(was), Dates(now));
    r <= |was| && r <= |now| && was[..r] == now[..r]
  }

  /** That is: no row but the last, if all its dates stand; anything, if not. */
  lemma TailMovedMeans(was: Frame, now: Frame)
    ensures OnlyTailMoved(was, now) <==>
            (|was| > 0 && |was| <= |now| && (forall i :: 0 <= i < |was| ==> was[i].date == now[i].date) ==>
               forall i :: 0 <= i < |was| - 1 ==> was[i] == now[i])
  {
    RevisedMeans(was, now);
    hide RevisedFrom;
    var r := RevisedFrom(Dates(was), Dates(now));
    if r <= |was| && r <= |now| {
      assert was[..r] == now[..r] <==> forall i :: 0 <= i < r ==> was[i] == now[i] by {
        if was[..r] == now[..r] {
          forall i | 0 <= i < r ensures was[i] == now[i] { assert was[..r][i] == now[..r][i]; }
        }
      }
    }
  }

  /** For causal, undisplaced bar columns the delta carries the whole truth. */
  lemma DeltaExact(panes: seq<Pane>, was: Frame, now: Frame, sess: Session)
    requires AllPlain(panes) && OnlyTailMoved(was, now)
    ensures var start := DeltaStart(panes, Dates(was), now, sess);
            Merge(Build(panes, was, sess), SeriesDelta(panes, now, start, sess)) == Build(panes, now, sess)
  {
    var start := DeltaStart(panes, Dates(was), now, sess);
    assert !HasUnits(panes);
    forall i | 0 <= i < |panes| ensures AllSame(panes[i].series, was, now, start, sess) {
      forall k | 0 <= k < |panes[i].series| ensures SameBefore(panes[i].series[k], was, now, start, sess) {
        PlainSame(panes[i].series[k], was, now, start, sess);
      }
    }
    MergeExact(panes, was, now, start, sess);
  }

  // ---- session columns ------------------------------------------------

  /** Every date read, and sessions in order. */
  predicate Sessioned(f: Frame, sess: Session) {
    && (forall i :: 0 <= i < |f| ==> f[i].date.Some?)
    && (forall i, j :: 0 <= i <= j < |f| ==> sess(f[i].date.value) <= sess(f[j].date.value))
  }

  predicate OpensSession(f: Frame, r: nat, sess: Session) {
    r <= |f| && (0 < r < |f| ==> DayOf(f[r - 1], sess) != DayOf(f[r], sess))
  }

  /** The sessions before a session's first row do not depend on what follows,
      and the later ones are of later rows. */
  lemma {:induction false} SessionPrefix(f: Frame, r: nat, sess: Session)
    requires OpensSession(f, r, sess)
    ensures var days, p := SessionDays(f, sess), |SessionDays(f[..r], sess)|;
            && p <= |days| && days[..p] == SessionDays(f[..r], sess)
            && (r < |f| ==> p < |days|)
            && FromRows(days, p, f, r, sess)
    decreases |f|
  {
    if r == |f| {
      assert f[..r] == f;
    } else {
      var n := |f| - 1;
      var g := f[..n];
      assert g[..r] == f[..r];
      assert OpensSession(g, r, sess);
      SessionPrefix(g, r, sess);
      hide SessionDays, FromRows;
      SessionSnoc(f, r, sess);
    }
  }

  /** Each of these sessions is that of some row from `r` on. */
  predicate FromRows(days: seq<Day>, p: nat, f: Frame, r: nat, sess: Session) {
    forall k :: p <= k < |days| ==> FromRow(days[k].day, f, r, sess)
  }

  predicate FromRow(day: Option<int>, f: Frame, r: nat, sess: Session) {
    exists j :: r <= j < |f| && day == DayOf(f[j], sess)
  }

  lemma SessionSnoc(f: Frame, r: nat, sess: Session)
    requires OpensSession(f, r, sess) && r < |f|
    requires var n := |f| - 1;
             var days, p := SessionDays(f[..n], sess), |SessionDays(f[..r], sess)|;
             && p <= |days| && days[..p] == SessionDays(f[..r], sess)
             && (r < n ==> p < |days|) && FromRows(days, p, f[..n], r, sess)
    ensures var days, p := SessionDays(f, sess), |SessionDays(f[..r], sess)|;
            && p < |days| && days[..p] == SessionDays(f[..r], sess) && FromRows(days, p, f, r, sess)
  {
    var n := |f| - 1;
    var before, days, p := SessionDays(f[..n], sess), SessionDays(f, sess), |SessionDays(f[..r], sess)|;
    assert days == Joined(before, f[n], sess);
    if n > 0 { LastDay(f, sess); }
    hide SessionDays, Joined, FromRow, DayOf;
    assert |days| == |before| ==> r < n;
    assert days[..p] == before[..p];
    assert FromRow(days[|days| - 1].day, f, r, sess) by { RowIsFrom(f, n, r, sess); }
    forall k | p <= k < |days| ensures FromRow(days[k].day, f, r, sess) {
      if k < |days| - 1 {
        assert days[k] == before[k];
        FromRowSnoc(before[k].day, f, r, sess);
      }
    }
  }

  lemma LastDay(f: Frame, sess: Session)
    requires |f| > 1
    ensures var before := SessionDays(f[..|f| - 1], sess);
            before != [] && before[|before| - 1].day == DayOf(f[|f| - 2], sess)
  {
    assert f[..|f| - 1][|f| - 2] == f[|f| - 2];
  }

  lemma RowIsFrom(f: Frame, n: nat, r: nat, sess: Session)
    requires r <= n < |f|
    ensures FromRow(DayOf(f[n], sess), f, r, sess)
  {
  }

  lemma FromRowSnoc(day: Option<int>, f: Frame, r: nat, sess: Session)
    requires f != [] && FromRow(day, f[..|f| - 1], r, sess)
    ensures FromRow(day, f, r, sess)
  {
    var j :| r <= j < |f| - 1 && day == DayOf(f[..|f| - 1][j], sess);
    assert f[..|f| - 1][j] == f[j];
  }

  lemma {:induction false} AsOfPrefix(days: seq<Day>, p: nat, day: Option<int>)
    requires p <= |days| && forall k :: p <= k < |days| ==> !NotAfter(days[k].day, day)
    ensures AsOf(days, day) == AsOf(days[..p], day)
    decreases |days|
  {
    if p == |days| {
      assert days[..p] == days;
    } else {
      assert days[..|days| - 1][..p] == days[..p];
      AsOfPrefix(days[..|days| - 1], p, day);
    }
  }

  lemma {:induction false} AsOfBelow(days: seq<Day>, day: Option<int>)
    ensures AsOf(days, day).Some? ==> AsOf(days, day).value < |days|
  {
    if days != [] { AsOfBelow(days[..|days| - 1], day); }
  }

  /** What a business-day column holds before a session's first row depends on
      the rows before it alone. */
  lemma {:induction false} ByDayBefore(col: Column, was: Frame, now: Frame, r: nat, i: nat, sess: Session)
    requires Causal(col) && Sessioned(was, sess) && Sessioned(now, sess)
    requires OpensSession(was, r, sess) && OpensSession(now, r, sess) && was[..r] == now[..r] && i < r
    ensures ByDay(col, was, sess)[i] == ByDay(col, now, sess)[i]
  {
    hide SessionDays, AsOf, NotAfter, Causal, Sessioned, SessionCloses;
    assert was[i] == was[..r][i] == now[..r][i] == now[i];
    var day := DayOf(was[i], sess);
    var p := |SessionDays(was[..r], sess)|;
    SameSessions(was, now, r, sess);
    LaterDays(was, r, i, sess);
    LaterDays(now, r, i, sess);
    AsOfPrefix(SessionDays(was, sess), p, day);
    AsOfPrefix(SessionDays(now, sess), p, day);
    AsOfBelow(SessionDays(was[..r], sess), day);
    var k := AsOf(SessionDays(was[..r], sess), day);
    if k.Some? { CausalBefore(col, SessionCloses(was, sess), SessionCloses(now, sess), k.value, p); }
  }

  /** The sessions before it are the same in both frames. */
  lemma {:induction false} SameSessions(was: Frame, now: Frame, r: nat, sess: Session)
    requires OpensSession(was, r, sess) && OpensSession(now, r, sess) && was[..r] == now[..r]
    ensures var p := |SessionDays(was[..r], sess)|;
            && p <= |SessionDays(was, sess)| && p <= |SessionDays(now, sess)|
            && SessionDays(was, sess)[..p] == SessionDays(now, sess)[..p] == SessionDays(was[..r], sess)
            && p <= |SessionCloses(was, sess)| && p <= |SessionCloses(now, sess)|
            && SessionCloses(was, sess)[..p] == SessionCloses(now, sess)[..p]
  {
    hide SessionDays, FromRows;
    SessionPrefix(was, r, sess);
    SessionPrefix(now, r, sess);
    var p := |SessionDays(was[..r], sess)|;
    var a, b := SessionCloses(was, sess), SessionCloses(now, sess);
    forall x | 0 <= x < p ensures a[x] == b[x] {
      assert SessionDays(was, sess)[..p][x] == SessionDays(now, sess)[..p][x];
    }
  }

  lemma {:induction false} LaterDays(f: Frame, r: nat, i: nat, sess: Session)
    requires Sessioned(f, sess) && OpensSession(f, r, sess) && i < r
    ensures forall k :: |SessionDays(f[..r], sess)| <= k < |SessionDays(f, sess)| ==>
              !NotAfter(SessionDays(f, sess)[k].day, DayOf(f[i], sess))
  {
    SessionPrefix(f, r, sess);
    var days := SessionDays(f, sess);
    hide SessionDays;
    forall k | |SessionDays(f[..r], sess)| <= k < |days| ensures !NotAfter(days[k].day, DayOf(f[i], sess)) {
      assert FromRow(days[k].day, f, r, sess);
      var j :| r <= j < |f| && days[k].day == DayOf(f[j], sess);
      assert sess(f[i].date.value) <= sess(f[r - 1].date.value) < sess(f[r].date.value) <= sess(f[j].date.value);
    }
  }

  predicate Undisplaced(panes: seq<Pane>) {
    forall i, k :: 0 <= i < |panes| && 0 <= k < |panes[i].series| ==> panes[i].series[k].offset == 0
  }

  ghost predicate AllCausal(panes: seq<Pane>) {
    forall i, k :: 0 <= i < |panes| && 0 <= k < |panes[i].series| ==> Causal(panes[i].series[k].col)
  }

  lemma {:induction false} DaySame(s: Series, was: Frame, now: Frame, start: nat, sess: Session)
    requires s.offset == 0 && Causal(s.col) && Sessioned(was, sess) && Sessioned(now, sess)
    requires OpensSession(was, start, sess) && OpensSession(now, start, sess) && was[..start] == now[..start]
    ensures SameBefore(s, was, now, start, sess)
  {
    if !s.byDay {
      PlainSame(s, was, now, start, sess);
    } else {
      var a, b := PlotOf(s, was, sess).data, PlotOf(s, now, sess).data;
      forall i | 0 <= i < start ensures a[i] == b[i] {
        ByDayBefore(s.col, was, now, start, i, sess);
        assert was[i] == was[..start][i] == now[..start][i] == now[i];
      }
    }
  }

  /** The previous push's last row is in the running session, or began its own. */
  predicate TailInSession(was: Frame, now: Frame, sess: Session) {
    was != [] && now != [] ==>
      || DayOf(was[|was| - 1], sess) == DayOf(now[|now| - 1], sess)
      || OpensSession(was, |was| - 1, sess)
  }

  /** Where a widened delta starts, a session starts. */
  lemma {:induction false} StartOpens(was: Frame, now: Frame, sess: Session)
    requires Sessioned(was, sess) && Sessioned(now, sess) && OnlyTailMoved(was, now) && TailInSession(was, now, sess)
    ensures var start := Min(RevisedFrom(Dates(was), Dates(now)), RunningSessionStart(now, sess));
            OpensSession(was, start, sess) && OpensSession(now, start, sess) && was[..start] == now[..start]
  {
    RevisedMeans(was, now);
    var r, rs := RevisedFrom(Dates(was), Dates(now)), RunningSessionStart(now, sess);
    var start := Min(r, rs);
    assert was[..start] == was[..r][..start] == now[..r][..start] == now[..start];
    if r > 0 {
      var n := |was|;
      if DayOf(was[n - 1], sess) == DayOf(now[|now| - 1], sess) {
        assert rs <= n - 1;
        assert rs > 0 ==> DayOf(now[rs - 1], sess) != DayOf(now[rs], sess);
      } else {
        assert rs > n - 1;
      }
    }
  }

  /** With business-day windows the widened delta carries the whole truth when
      the previous last row is in the running session or began its own. */
  lemma {:induction false} DayDeltaExact(panes: seq<Pane>, was: Frame, now: Frame, sess: Session)
    requires HasUnits(panes) && Undisplaced(panes) && AllCausal(panes)
    requires Sessioned(was, sess) && Sessioned(now, sess) && OnlyTailMoved(was, now) && TailInSession(was, now, sess)
    ensures var start := DeltaStart(panes, Dates(was), now, sess);
            Merge(Build(panes, was, sess), SeriesDelta(panes, now, start, sess)) == Build(panes, now, sess)
  {
    var start := DeltaStart(panes, Dates(was), now, sess);
    StartOpens(was, now, sess);
    forall i | 0 <= i < |panes| ensures AllSame(panes[i].series, was, now, start, sess) {
      forall k | 0 <= k < |panes[i].series| ensures SameBefore(panes[i].series[k], was, now, start, sess) {
        DaySame(panes[i].series[k], was, now, start, sess);
      }
    }
    MergeExact(panes, was, now, start, sess);
  }

  // ---- what a session's bar is -----------------------------------------

  ghost function Volumes(f: Frame, lo: nat, hi: nat): real
    requires lo <= hi <= |f|
  {
    if lo == hi then 0.0 else Volumes(f, lo, hi - 1) + f[hi - 1].volume
  }

  /** `bar` sums up the rows `lo` up to `hi`. */
  ghost predicate SumsUp(f: Frame, lo: nat, hi: nat, bar: Bar) {
    && lo < hi <= |f|
    && bar.open == f[lo].open && bar.close == f[hi - 1].close
    && bar.date == f[hi - 1].date && bar.vwap == f[hi - 1].vwap && bar.volume == Volumes(f, lo, hi)
    && (forall i :: lo <= i < hi ==> f[i].low >= bar.low && f[i].high <= bar.high)
    && (exists i :: lo <= i < hi && f[i].high == bar.high) && (exists i :: lo <= i < hi && f[i].low == bar.low)
  }

  lemma SumsUpOne(f: Frame, lo: nat)
    requires lo < |f|
    ensures SumsUp(f, lo, lo + 1, f[lo])
  {
    assert f[lo].high == f[lo].high && f[lo].low == f[lo].low;
    assert Volumes(f, lo, lo + 1) == Volumes(f, lo, lo) + f[lo].volume;
  }

  lemma SumsUpNext(f: Frame, lo: nat, hi: nat, bar: Bar)
    requires SumsUp(f, lo, hi, bar) && hi < |f|
    ensures SumsUp(f, lo, hi + 1, Rolled(bar, f[hi]))
  {
    var i :| lo <= i < hi && f[i].high == bar.high;
    var j :| lo <= j < hi && f[j].low == bar.low;
    var next := Rolled(bar, f[hi]);
    assert f[i].high == next.high || f[hi].high == next.high;
    assert f[j].low == next.low || f[hi].low == next.low;
  }

  lemma {:induction false} VolumesFront(f: Frame, lo: nat, hi: nat, n: nat)
    requires lo <= hi <= n <= |f|
    ensures Volumes(f[..n], lo, hi) == Volumes(f, lo, hi)
  {
    if lo < hi { VolumesFront(f, lo, hi - 1, n); }
  }

  lemma SumsUpFront(f: Frame, lo: nat, hi: nat, n: nat, bar: Bar)
    requires n <= |f| && SumsUp(f[..n], lo, hi, bar)
    ensures SumsUp(f, lo, hi, bar)
  {
    VolumesFront(f, lo, hi, n);
    assert forall i :: lo <= i < hi ==> f[..n][i] == f[i];
    var i :| lo <= i < hi && f[..n][i].high == bar.high;
    var j :| lo <= j < hi && f[..n][j].low == bar.low;
    assert f[i].high == bar.high && f[j].low == bar.low;
  }

  /** The rows `lo` up to `hi` are of one session, and the ones beside them not. */
  ghost predicate Block(f: Frame, sess: Session, lo: nat, hi: nat, day: Option<int>) {
    && lo < hi <= |f| && (forall i :: lo <= i < hi ==> DayOf(f[i], sess) == day)
    && (lo > 0 ==> DayOf(f[lo - 1], sess) != day) && (hi < |f| ==> DayOf(f[hi], sess) != day)
  }

  lemma BlockOn(f: Frame, sess: Session, lo: nat, hi: nat, day: Option<int>)
    requires f != [] && Block(f[..|f| - 1], sess, lo, hi, day)
    ensures if hi < |f| - 1 || DayOf(f[|f| - 1], sess) != day then Block(f, sess, lo, hi, day)
            else Block(f, sess, lo, |f|, day)
  {
    hide DayOf;
    var n := |f| - 1;
    assert forall i :: 0 <= i < n ==> f[..n][i] == f[i];
  }

  /** A session's row sums up its bars: it opens with the first of them and closes
      with the last, whose date and average it has, holds their highest and lowest
      and trades their volume; the bars beside them are of other sessions. */
  lemma {:induction false} SessionBar(f: Frame, sess: Session, k: nat) returns (lo: nat, hi: nat)
    requires k < |SessionDays(f, sess)|
    ensures SumsUp(f, lo, hi, SessionDays(f, sess)[k].bar) && Block(f, sess, lo, hi, SessionDays(f, sess)[k].day)
    ensures (lo == 0 <==> k == 0) && (hi == |f| <==> k == |SessionDays(f, sess)| - 1)
  {
    var n := |f| - 1;
    var before, days := SessionDays(f[..n], sess), SessionDays(f, sess);
    assert days == Joined(before, f[n], sess);
    NewSession(f, sess);
    hide SumsUp, SessionDays, Rolled, DayOf, Block;
    if k < |before| {
      lo, hi := SessionBar(f[..n], sess, k);
      SumsUpBound(f[..n], lo, hi, before[k].bar);
      SumsUpFront(f, lo, hi, n, before[k].bar);
      BlockOn(f, sess, lo, hi, before[k].day);
      if k == |days| - 1 {
        SumsUpNext(f, lo, n, before[k].bar);
        hi := n + 1;
      }
    } else {
      lo, hi := n, n + 1;
      SumsUpOne(f, n);
    }
  }

  lemma NewSession(f: Frame, sess: Session)
    requires f != []
    ensures var n := |f| - 1;
            var before := SessionDays(f[..n], sess);
            && |before| <= |SessionDays(f, sess)| <= |before| + 1 && (n == 0 <==> before == [])
            && (|SessionDays(f, sess)| > |before| ==> Block(f, sess, n, n + 1, DayOf(f[n], sess)))
  {
    if |f| > 1 { LastDay(f, sess); }
    assert SessionDays(f, sess) == Joined(SessionDays(f[..|f| - 1], sess), f[|f| - 1], sess);
    hide SessionDays, DayOf;
  }

  lemma SumsUpBound(f: Frame, lo: nat, hi: nat, bar: Bar)
    requires SumsUp(f, lo, hi, bar)
    ensures lo < hi <= |f|
  {
  }

  // ---- exactly when, for the sessions' closes -------------------------

  /** The business-day window of one: each bar reads its session's close. */
  function Close(f: Frame): seq<Option<real>> {
    seq(|f|, i requires 0 <= i < |f| => Some(f[i].close))
  }

  lemma CloseCausal()
    ensures Causal(Close)
  {
    forall f: Frame, g: Frame, i: nat | i < |f| && i < |g| && f[..i + 1] == g[..i + 1]
      ensures Close(f)[i] == Close(g)[i]
    {
      assert f[i] == f[..i + 1][i] == g[..i + 1][i] == g[i];
    }
  }

  /** The last row of the session of row `i`. */
  function LastOf(f: Frame, i: nat, sess: Session): (q: nat)
    requires i < |f|
    ensures i <= q < |f| && DayOf(f[q], sess) == DayOf(f[i], sess)
    ensures forall j :: q < j < |f| ==> DayOf(f[j], sess) != DayOf(f[i], sess)
  {
    var n := |f| - 1;
    if DayOf(f[n], sess) == DayOf(f[i], sess) then n
    else
      assert forall j :: 0 <= j < n ==> f[..n][j] == f[j];
      LastOf(f[..n], i, sess)
  }

  /** The as-of join finds a bar's own session, whose close is its last bar's. */
  predicate Owns(f: Frame, i: nat, sess: Session)
    requires i < |f|
  {
    var days := SessionDays(f, sess);
    var k := AsOf(days, DayOf(f[i], sess));
    k.Some? && k.value < |days| && days[k.value].bar.close == f[LastOf(f, i, sess)].close
  }

  lemma {:induction false} OwnSession(f: Frame, i: nat, sess: Session)
    requires Sessioned(f, sess) && i < |f|
    ensures Owns(f, i, sess)
    decreases |f|
  {
    hide Owns, LastOf, SessionDays, Joined;
    var n := |f| - 1;
    if DayOf(f[i], sess) == DayOf(f[n], sess) {
      OwnsLast(f, i, sess);
    } else {
      assert forall j :: 0 <= j < n ==> f[..n][j] == f[j];
      assert i < n;
      OwnSession(f[..n], i, sess);
      OwnsSnoc(f, i, sess);
    }
  }

  lemma OwnsLast(f: Frame, i: nat, sess: Session)
    requires Sessioned(f, sess) && i < |f| && DayOf(f[i], sess) == DayOf(f[|f| - 1], sess)
    ensures Owns(f, i, sess)
  {
    assert SessionDays(f, sess) == Joined(SessionDays(f[..|f| - 1], sess), f[|f| - 1], sess);
    hide SessionDays;
  }

  lemma OwnsSnoc(f: Frame, i: nat, sess: Session)
    requires Sessioned(f, sess) && i < |f| - 1 && DayOf(f[i], sess) != DayOf(f[|f| - 1], sess)
    requires Owns(f[..|f| - 1], i, sess)
    ensures Owns(f, i, sess)
  {
    var n := |f| - 1;
    var before := SessionDays(f[..n], sess);
    assert f[..n][i] == f[i];
    assert f[..n][LastOf(f[..n], i, sess)] == f[LastOf(f, i, sess)];
    assert SessionDays(f, sess) == Joined(before, f[n], sess);
    assert !NotAfter(DayOf(f[n], sess), DayOf(f[i], sess));
    hide SessionDays, LastOf, Joined;
    SameAsOf(before, f[n], DayOf(f[i], sess), sess);
    var days := Joined(before, f[n], sess);
    assert days[|days| - 1].day == DayOf(f[n], sess);
    assert AsOf(days, DayOf(f[i], sess)) == AsOf(days[..|days| - 1], DayOf(f[i], sess));
  }

  lemma {:induction false} SameAsOf(before: seq<Day>, b: Bar, day: Option<int>, sess: Session)
    requires !NotAfter(DayOf(b, sess), day)
    ensures var days := Joined(before, b, sess);
            AsOf(days[..|days| - 1], day) == AsOf(before, day)
    ensures var days := Joined(before, b, sess);
            AsOf(before, day).Some? ==>
              AsOf(before, day).value < |days| - 1 && days[AsOf(before, day).value] == before[AsOf(before, day).value]
  {
    var days := Joined(before, b, sess);
    AsOfBelow(days[..|days| - 1], day);
    if |days| == |before| {
      assert days[..|days| - 1] == before[..|before| - 1];
    } else {
      assert days[..|days| - 1] == before;
    }
  }

  lemma {:induction false} ByDayClose(f: Frame, i: nat, sess: Session)
    requires Sessioned(f, sess) && i < |f|
    ensures ByDay(Close, f, sess)[i] == Some(f[LastOf(f, i, sess)].close)
  {
    OwnSession(f, i, sess);
  }

  const Closes := [Pane("price", [Series("close", 0, true, Close)])]

  /** Exactly when the delta carries the whole truth for the sessions' closes:
      the previous last row is in the running session, or began its own, or its
      session closed where it stood. */
  lemma {:induction false} CloseDeltaIff(was: Frame, now: Frame, sess: Session)
    requires Sessioned(was, sess) && Sessioned(now, sess) && OnlyTailMoved(was, now)
    requires RevisedFrom(Dates(was), Dates(now)) > 0
    ensures var start := DeltaStart(Closes, Dates(was), now, sess);
            RevisedFrom(Dates(was), Dates(now)) == |was| - 1 && |was| <= |now|
            && (Merge(Build(Closes, was, sess), SeriesDelta(Closes, now, start, sess)) == Build(Closes, now, sess)
                <==> TailInSession(was, now, sess) || now[LastOf(now, |was| - 1, sess)].close == was[|was| - 1].close)
  {
    RevisedMeans(was, now);
    CloseCausal();
    hide Sessioned, RevisedFrom, LastOf, RunningSessionStart, Build, SeriesDelta, Merge;
    var start := DeltaStart(Closes, Dates(was), now, sess);
    assert HasUnits(Closes) by { assert Closes[0].series[0].byDay; }
    var n := |was|;
    if TailInSession(was, now, sess) {
      DayDeltaExact(Closes, was, now, sess);
    } else {
      var s := Closes[0].series[0];
      assert start == n - 1 by { RolledOver(was, now, sess); }
      MergeExact(Closes, was, now, start, sess);
      assert EverySame(Closes, was, now, start, sess) <==> SameBefore(s, was, now, start, sess);
      RolledOverSame(was, now, sess);
    }
  }

  function At(t: int, close: real): Bar { Bar(Some(t), close, close, close, close, 1.0, None) }

  /** It fails: the session of the previous push's last row goes on to another
      close, and a new session begins before the next push. */
  lemma RolloverMisses(sess: Session)
    requires sess(0) == sess(60) < sess(86400)
    ensures var was, now := [At(0, 1.0), At(60, 2.0)], [At(0, 1.0), At(60, 3.0), At(86400, 4.0)];
            var start := DeltaStart(Closes, Dates(was), now, sess);
            && Sessioned(was, sess) && Sessioned(now, sess) && OnlyTailMoved(was, now)
            && Merge(Build(Closes, was, sess), SeriesDelta(Closes, now, start, sess)) != Build(Closes, now, sess)
  {
    var was, now := [At(0, 1.0), At(60, 2.0)], [At(0, 1.0), At(60, 3.0), At(86400, 4.0)];
    RolloverFrames(was, now, sess);
    hide Sessioned, OnlyTailMoved, TailInSession, LastOf, SeriesDelta, Build, Merge, RunningSessionStart, RevisedFrom,
         DeltaStart;
    CloseDeltaIff(was, now, sess);
  }

  lemma RolloverFrames(was: Frame, now: Frame, sess: Session)
    requires was == [At(0, 1.0), At(60, 2.0)] && now == [At(0, 1.0), At(60, 3.0), At(86400, 4.0)]
    requires sess(0) == sess(60) < sess(86400)
    ensures Sessioned(was, sess) && Sessioned(now, sess) && RevisedFrom(Dates(was), Dates(now)) == 1
            && OnlyTailMoved(was, now)
    ensures !TailInSession(was, now, sess) && LastOf(now, 1, sess) == 1
  {
    assert Dates(was) == [Some(0), Some(60)] && Dates(now) == [Some(0), Some(60), Some(86400)];
    hide LastOf;
    assert Dates(now)[..2] == Dates(was) && was[..1] == now[..1];
    assert DayOf(now[1], sess) != DayOf(now[2], sess);
  }

  lemma {:induction false} RolledOver(was: Frame, now: Frame, sess: Session)
    requires Sessioned(was, sess) && Sessioned(now, sess) && RevisedFrom(Dates(was), Dates(now)) == |was| - 1 > 0
    requires |was| <= |now| && forall i :: 0 <= i < |was| ==> was[i].date == now[i].date
    requires !TailInSession(was, now, sess)
    ensures RunningSessionStart(now, sess) > |was| - 1
  {
  }

  /** At a roll-over the rows of the closed session before its previous last row
      are the ones at stake. */
  lemma {:induction false} RolledOverSame(was: Frame, now: Frame, sess: Session)
    requires Sessioned(was, sess) && Sessioned(now, sess) && 1 < |was| <= |now|
    requires was[..|was| - 1] == now[..|was| - 1] && forall i :: 0 <= i < |was| ==> was[i].date == now[i].date
    requires !OpensSession(was, |was| - 1, sess)
    ensures var n := |was|;
            SameBefore(Closes[0].series[0], was, now, n - 1, sess)
            <==> now[LastOf(now, n - 1, sess)].close == was[n - 1].close
  {
    var n := |was|;
    var s := Closes[0].series[0];
    var a, b := PlotOf(s, was, sess).data, PlotOf(s, now, sess).data;
    hide PlotOf, LastOf, Sessioned;
    forall i | 0 <= i < n - 1
      ensures a[i] == b[i] <==> DayOf(was[i], sess) != DayOf(was[n - 1], sess)
                                || now[LastOf(now, n - 1, sess)].close == was[n - 1].close
    {
      RowAtStake(was, now, i, sess);
    }
    assert a[..n - 1] == b[..n - 1] <==> forall i :: 0 <= i < n - 1 ==> a[i] == b[i];
    assert DayOf(was[n - 2], sess) == DayOf(was[n - 1], sess);
  }

  lemma {:induction false} RowAtStake(was: Frame, now: Frame, i: nat, sess: Session)
    requires Sessioned(was, sess) && Sessioned(now, sess) && i + 1 < |was| <= |now|
    requires was[..|was| - 1] == now[..|was| - 1] && forall i :: 0 <= i < |was| ==> was[i].date == now[i].date
    ensures var n := |was|;
            var s := Closes[0].series[0];
            PlotOf(s, was, sess).data[i] == PlotOf(s, now, sess).data[i]
            <==> DayOf(was[i], sess) != DayOf(was[n - 1], sess)
                 || now[LastOf(now, n - 1, sess)].close == was[n - 1].close
  {
    hide PlotOf, LastOf, Sessioned, SessionDays;
    var n := |was|;
    assert was[i] == was[..n - 1][i] == now[..n - 1][i] == now[i];
    ClosePoint(was, i, sess);
    ClosePoint(now, i, sess);
    if DayOf(was[i], sess) != DayOf(was[n - 1], sess) {
      ClosedBefore(was, now, i, sess);
    } else {
      SameLast(was, n - 1, i, sess);
      SameLast(now, n - 1, i, sess);
      LastRow(was, sess);
    }
  }

  lemma ClosePoint(f: Frame, i: nat, sess: Session)
    requires Sessioned(f, sess) && i < |f|
    ensures PlotOf(Closes[0].series[0], f, sess).data[i] == Point(f[i].date, Some(f[LastOf(f, i, sess)].close))
  {
    ByDayClose(f, i, sess);
    hide ByDay, LastOf, Sessioned;
  }

  lemma LastRow(f: Frame, sess: Session)
    requires f != []
    ensures LastOf(f, |f| - 1, sess) == |f| - 1
  {
  }

  lemma SameLast(f: Frame, k: nat, i: nat, sess: Session)
    requires i <= k < |f| && DayOf(f[i], sess) == DayOf(f[k], sess)
    ensures LastOf(f, i, sess) == LastOf(f, k, sess)
  {
  }

  lemma Earlier(f: Frame, q: nat, k: nat, sess: Session)
    requires Sessioned(f, sess) && q < |f| && k < |f| && sess(f[q].date.value) < sess(f[k].date.value)
    ensures q < k
  {
  }

  lemma {:induction false} ClosedBefore(was: Frame, now: Frame, i: nat, sess: Session)
    requires Sessioned(was, sess) && Sessioned(now, sess) && i < |was| - 1 && |was| <= |now|
    requires was[..|was| - 1] == now[..|was| - 1] && was[|was| - 1].date == now[|was| - 1].date
    requires DayOf(was[i], sess) != DayOf(was[|was| - 1], sess)
    ensures was[LastOf(was, i, sess)] == now[LastOf(now, i, sess)]
  {
    var n := |was|;
    forall j | 0 <= j < n - 1 ensures was[j] == now[j] {
      assert was[j] == was[..n - 1][j] == now[..n - 1][j] == now[j];
    }
    var p, q := LastOf(was, i, sess), LastOf(now, i, sess);
    assert p < n - 1;
    assert sess(now[i].date.value) <= sess(now[n - 1].date.value);
    assert sess(now[q].date.value) == sess(now[i].date.value);
    Earlier(now, q, n - 1, sess);
  }

  // ---- displaced series -----------------------------------------------

  /** Where a series' points are plotted has not moved before `start`: a matter of
      the two frames' dates alone. */
  predicate TimesKept(panes: seq<Pane>, was: seq<Option<int>>, now: seq<Option<int>>, start: nat)
    requires start <= |was| && start <= |now|
  {
    forall i, k :: 0 <= i < |panes| && 0 <= k < |panes[i].series| ==>
      ShiftTimes(was, panes[i].series[k].offset)[..start] == ShiftTimes(now, panes[i].series[k].offset)[..start]
  }

  /** The values of a causal series before the start have not moved. */
  predicate ValuesKept(s: Series, was: Frame, now: Frame, start: nat, sess: Session)
    requires start <= |was| && start <= |now|
  {
    |Values(s, was, sess)| == |was| && |Values(s, now, sess)| == |now|
    && Values(s, was, sess)[..start] == Values(s, now, sess)[..start]
  }

  lemma ValuesHeld(s: Series, was: Frame, now: Frame, start: nat, sess: Session)
    requires Causal(s.col) && start <= |was| && start <= |now| && was[..start] == now[..start]
    requires s.byDay ==>
      Sessioned(was, sess) && Sessioned(now, sess) && OpensSession(was, start, sess) && OpensSession(now, start, sess)
    ensures ValuesKept(s, was, now, start, sess)
  {
    hide Sessioned, OpensSession;
    var a, b := Values(s, was, sess), Values(s, now, sess);
    if s.byDay {
      forall i | 0 <= i < start ensures a[i] == b[i] { ByDayBefore(s.col, was, now, start, i, sess); }
    } else {
      forall i | 0 <= i < start ensures a[i] == b[i] { CausalBefore(s.col, was, now, i, start); }
    }
  }

  lemma SameIfTimes(s: Series, was: Frame, now: Frame, start: nat, sess: Session)
    requires start <= |was| && start <= |now| && ValuesKept(s, was, now, start, sess)
    ensures SameBefore(s, was, now, start, sess) <==>
            ShiftTimes(Dates(was), s.offset)[..start] == ShiftTimes(Dates(now), s.offset)[..start]
  {
    hide ShiftTimes;
    var a, b := PlotOf(s, was, sess).data, PlotOf(s, now, sess).data;
    var x, y := ShiftTimes(Dates(was), s.offset), ShiftTimes(Dates(now), s.offset);
    var v, w := Values(s, was, sess), Values(s, now, sess);
    hide Values;
    forall i | 0 <= i < start ensures a[i] == b[i] <==> x[i] == y[i] {
      assert v[i] == v[..start][i] == w[..start][i] == w[i];
    }
    assert a[..start] == b[..start] <==> forall i :: 0 <= i < start ==> a[i] == b[i];
    assert x[..start] == y[..start] <==> forall i :: 0 <= i < start ==> x[i] == y[i];
  }

  /** Displaced or not, a delta of causal series carries the whole truth exactly if
      no time already sent has moved. */
  lemma {:induction false} DisplacedIff(panes: seq<Pane>, was: Frame, now: Frame, sess: Session)
    requires AllCausal(panes) && OnlyTailMoved(was, now)
    requires HasUnits(panes) ==> Sessioned(was, sess) && Sessioned(now, sess) && TailInSession(was, now, sess)
    ensures var start := DeltaStart(panes, Dates(was), now, sess);
            && start <= |was| && start <= |now|
            && (Merge(Build(panes, was, sess), SeriesDelta(panes, now, start, sess)) == Build(panes, now, sess)
                <==> TimesKept(panes, Dates(was), Dates(now), start))
  {
    var start := DeltaStart(panes, Dates(was), now, sess);
    if HasUnits(panes) { StartOpens(was, now, sess); }
    hide Causal, Sessioned, OpensSession, DeltaStart, TailInSession, OnlyTailMoved;
    forall i, k | 0 <= i < |panes| && 0 <= k < |panes[i].series|
      ensures SameBefore(panes[i].series[k], was, now, start, sess) <==>
              ShiftTimes(Dates(was), panes[i].series[k].offset)[..start]
                == ShiftTimes(Dates(now), panes[i].series[k].offset)[..start]
    {
      var s := panes[i].series[k];
      assert s.byDay ==> HasUnits(panes);
      ValuesHeld(s, was, now, start, sess);
      SameIfTimes(s, was, now, start, sess);
    }
    MergeExact(panes, was, now, start, sess);
    hide SameBefore, ShiftTimes, Merge, Build, SeriesDelta;
  }

  /** A displaced series is outside the claim: a bar that comes after a gap moves
      a plot time already sent. */
  lemma DisplacedMoves(a: Bar, b: Bar, c: Bar, sess: Session)
    requires a.date == Some(0) && b.date == Some(1) && c.date == Some(5)
    ensures var panes := [Pane("price", [Series("lead", 2, false, Close)])];
            var was, now := [a, b], [a, b, c];
            && OnlyTailMoved(was, now) && DeltaStart(panes, Dates(was), now, sess) == 1
            && Merge(Build(panes, was, sess), SeriesDelta(panes, now, 1, sess)) != Build(panes, now, sess)
  {
    var panes := [Pane("price", [Series("lead", 2, false, Close)])];
    var was, now := [a, b], [a, b, c];
    assert Dates(now)[..2] == Dates(was);
    assert was[..1] == now[..1];
    assert !HasUnits(panes);
    var s := panes[0].series[0];
    assert Dates(was)[1..] == [Some(1)] && Dates(now)[1..] == [Some(1), Some(5)] && Dates(now)[1..][1..] == [Some(5)];
    assert Spacing(Dates(was)) == Some(1) && Spacing(Dates(now)[1..]) == Some(4) && Spacing(Dates(now)) == Some(1);
    assert FirstKnown(Dates(was), 0) == 0 && LastKnown(Dates(was)) == Some(1);
    assert Shifted(Dates(was), 2) == Some(2);
    assert Shifted(Dates(now), 2) == Some(5);
    assert PlotOf(s, was, sess).data[0].time == Some(2);
    assert PlotOf(s, now, sess).data[0].time == Some(5);
    assert PlotOf(s, was, sess).data[..1][0] != PlotOf(s, now, sess).data[..1][0];
    assert !AllSame(panes[0].series, was, now, 1, sess);
    MergeExact(panes, was, now, 1, sess);
  }

  // ---- the path-dependent columns are causal --------------------------

  function Bars(f: Frame): seq<I.Bar> {
    seq(|f|, i requires 0 <= i < |f| => I.Bar(f[i].high, f[i].low, f[i].close))
  }

  function TrueRange(f: Frame): seq<Option<real>> { I.TrueRange(Bars(f)) }

  function Sar(step: real, cap: real): Column {
    f => seq(|f|, i requires 0 <= i < |f| => if i == 0 then None else Some(I.SarAt(Bars(f), i, step, cap).sar))
  }

  lemma SarColumnCausal(step: real, cap: real)
    ensures Causal(Sar(step, cap))
  {
    forall f: Frame, g: Frame, i: nat | i < |f| && i < |g| && f[..i + 1] == g[..i + 1]
      ensures Sar(step, cap)(f)[i] == Sar(step, cap)(g)[i]
    {
      SameBars(f, g, i);
      I.SarCausal(Bars(f), Bars(g), i, step, cap);
    }
  }

  lemma SameBars(f: Frame, g: Frame, i: nat)
    requires i < |f| && i < |g| && f[..i + 1] == g[..i + 1]
    ensures Bars(f)[..i + 1] == Bars(g)[..i + 1] && TrueRange(f)[..i + 1] == TrueRange(g)[..i + 1]
  {
    forall k | 0 <= k <= i ensures f[k] == g[k] {
      assert f[k] == f[..i + 1][k] == g[..i + 1][k] == g[k];
    }
    assert forall k :: 0 <= k <= i ==> Bars(f)[k] == Bars(g)[k];
    I.TrueRangeCausal(Bars(f), Bars(g), i);
  }

  function Stop(period: nat, multiplier: real): Column
    requires period > 0
  {
    f => seq(|f|, i requires 0 <= i < |f| =>
      if I.Drawable(TrueRange(f), i, period)
      then Some(I.Line(Bars(f), TrueRange(f), i, I.Setting(period, multiplier))) else None)
  }

  lemma StopColumnCausal(period: nat, multiplier: real)
    requires period > 0
    ensures Causal(Stop(period, multiplier))
  {
    forall f: Frame, g: Frame, i: nat | i < |f| && i < |g| && f[..i + 1] == g[..i + 1]
      ensures Stop(period, multiplier)(f)[i] == Stop(period, multiplier)(g)[i]
    {
      SameBars(f, g, i);
      I.StCausal(Bars(f), Bars(g), TrueRange(f), TrueRange(g), i, I.Setting(period, multiplier));
    }
  }

  /** What the two columns hold: nothing on the first bar, and the trailing stop;
      nothing until the average range is there, and the line. */
  lemma StopColumnsMean(f: Frame, i: nat, step: real, cap: real, setting: I.Setting)
    requires i < |f| && setting.period > 0
    ensures |Sar(step, cap)(f)| == |Stop(setting.period, setting.multiplier)(f)| == |f|
    ensures Sar(step, cap)(f)[i] == if i < 1 then None else Some(I.SarAt(Bars(f), i, step, cap).sar)
    ensures Stop(setting.period, setting.multiplier)(f)[i]
            == if I.Drawable(TrueRange(f), i, setting.period) then Some(I.Line(Bars(f), TrueRange(f), i, setting))
               else None
  {
    hide I.SarAt, I.Line, I.Drawable;
  }

  /** So a chart of the path-dependent indicators, business-day windows of them
      included, is kept exactly by its deltas. */
  lemma StopsDeltaExact(was: Frame, now: Frame, sess: Session, step: real, cap: real, period: nat, multiplier: real)
    requires period > 0
    requires Sessioned(was, sess) && Sessioned(now, sess) && OnlyTailMoved(was, now) && TailInSession(was, now, sess)
    ensures var panes := [Pane("price",
                               [Series("sar", 0, false, Sar(step, cap)),
                                Series("supertrend", 0, true, Stop(period, multiplier))])];
            var start := DeltaStart(panes, Dates(was), now, sess);
            Merge(Build(panes, was, sess), SeriesDelta(panes, now, start, sess)) == Build(panes, now, sess)
  {
    SarColumnCausal(step, cap);
    StopColumnCausal(period, multiplier);
    var panes := [Pane("price",
                       [Series("sar", 0, false, Sar(step, cap)),
                        Series("supertrend", 0, true, Stop(period, multiplier))])];
    assert panes[0].series[1].byDay;
    hide Causal;
    DayDeltaExact(panes, was, now, sess);
  }

  // ---- the socket -----------------------------------------------------

  /** What the client holds after one full push and then deltas. */
  function Client(panes: seq<Pane>, frames: seq<Frame>, sess: Session): Payload {
    if frames == [] then Payload([], [])
    else
      var n := |frames| - 1;
      if n == 0 then Build(panes, frames[0], sess)
      else
        Merge(Client(panes, frames[..n], sess),
              SeriesDelta(panes, frames[n], DeltaStart(panes, Dates(frames[n - 1]), frames[n], sess), sess))
  }

  /** Each frame follows the one before as a forming series does; sessions matter
      only where a pane has a business-day window. */
  predicate Follows(panes: seq<Pane>, frames: seq<Frame>, sess: Session) {
    && (forall i :: 0 < i < |frames| ==> OnlyTailMoved(frames[i - 1], frames[i]))
    && (HasUnits(panes) ==>
          && (forall i :: 0 <= i < |frames| ==> Sessioned(frames[i], sess))
          && (forall i :: 0 < i < |frames| ==> TailInSession(frames[i - 1], frames[i], sess)))
  }

  lemma StepExact(panes: seq<Pane>, was: Frame, now: Frame, sess: Session)
    requires Undisplaced(panes) && AllCausal(panes) && OnlyTailMoved(was, now)
    requires HasUnits(panes) ==> Sessioned(was, sess) && Sessioned(now, sess) && TailInSession(was, now, sess)
    ensures var start := DeltaStart(panes, Dates(was), now, sess);
            Merge(Build(panes, was, sess), SeriesDelta(panes, now, start, sess)) == Build(panes, now, sess)
  {
    hide Causal, Sessioned, Merge, Build, SeriesDelta;
    if HasUnits(panes) {
      DayDeltaExact(panes, was, now, sess);
    } else {
      NoUnits(panes);
      DeltaExact(panes, was, now, sess);
    }
  }

  /** However long the socket runs, the client holds what a full push would send. */
  lemma {:induction false} ClientExact(panes: seq<Pane>, frames: seq<Frame>, sess: Session)
    requires frames != [] && Undisplaced(panes) && AllCausal(panes) && Follows(panes, frames, sess)
    ensures Client(panes, frames, sess) == Build(panes, frames[|frames| - 1], sess)
  {
    var n := |frames| - 1;
    if n > 0 {
      FollowsFront(panes, frames, sess);
      ClientExact(panes, frames[..n], sess);
      hide Follows;
      assert frames[..n][n - 1] == frames[n - 1];
      hide Client, Merge, Build, SeriesDelta, Causal, Undisplaced, AllCausal, DeltaStart, OnlyTailMoved, TailInSession,
           Sessioned, HasUnits;
      StepExact(panes, frames[n - 1], frames[n], sess);
      assert Client(panes, frames, sess) == Merge(Client(panes, frames[..n], sess),
        SeriesDelta(panes, frames[n], DeltaStart(panes, Dates(frames[n - 1]), frames[n], sess),
                    sess)) by { ClientStep(panes, frames, sess); }
    }
  }

  /** What is asked of the frames. */
  lemma FollowsMeans(panes: seq<Pane>, frames: seq<Frame>, sess: Session)
    requires forall i :: 0 < i < |frames| ==> OnlyTailMoved(frames[i - 1], frames[i])
    requires forall i :: 0 < i < |frames| && HasUnits(panes) ==> TailInSession(frames[i - 1], frames[i], sess)
    requires forall i :: 0 <= i < |frames| && HasUnits(panes) ==> Sessioned(frames[i], sess)
    ensures Follows(panes, frames, sess)
  {
    hide OnlyTailMoved, TailInSession, Sessioned, HasUnits;
  }

  lemma FollowsFront(panes: seq<Pane>, frames: seq<Frame>, sess: Session)
    requires |frames| > 1 && Follows(panes, frames, sess)
    ensures var n := |frames| - 1;
            && Follows(panes, frames[..n], sess) && OnlyTailMoved(frames[n - 1], frames[n])
            && (HasUnits(panes) ==>
                  && Sessioned(frames[n - 1], sess) && Sessioned(frames[n], sess)
                  && TailInSession(frames[n - 1], frames[n], sess))
  {
    hide OnlyTailMoved, TailInSession, Sessioned, HasUnits;
    var n := |frames| - 1;
    assert forall i :: 0 <= i < n ==> frames[..n][i] == frames[i];
  }

  lemma ClientStep(panes: seq<Pane>, frames: seq<Frame>, sess: Session)
    requires |frames| > 1
    ensures var n := |frames| - 1;
            Client(panes, frames, sess)
            == Merge(Client(panes, frames[..n], sess),
                     SeriesDelta(panes, frames[n], DeltaStart(panes, Dates(frames[n - 1]), frames[n], sess), sess))
  {
  }

  lemma NoUnits(panes: seq<Pane>)
    requires !HasUnits(panes) && Undisplaced(panes) && AllCausal(panes)
    ensures AllPlain(panes)
  {
    hide Causal;
    forall i, k | 0 <= i < |panes| && 0 <= k < |panes[i].series| ensures Plain(panes[i].series[k]) {
      assert panes[i].series[k].byDay ==> HasUnits(panes);
    }
  }

  /** `_series_of`: one plot after another. */
  method SeriesOf(series: seq<Series>, f: Frame, sess: Session) returns (out: seq<Plot>)
    ensures out == PlotsOf(series, f, 0, sess)
  {
    out := [];
    for k := 0 to |series|
      invariant out == PlotsOf(series[..k], f, 0, sess)
    {
      hide PlotOf;
      var times := ShiftTimes(Dates(f), series[k].offset);
      var values := Values(series[k], f, sess);
      var points := seq(|f|, i requires 0 <= i < |f| => Point(times[i], if i < |values| then values[i] else None));
      IsPlot(series[k], f, sess, points);
      out := out + [Plot(series[k].column, points)];
    }
    assert series[..|series|] == series;
  }

  lemma IsPlot(s: Series, f: Frame, sess: Session, points: seq<Point>)
    requires |points| == |f|
    requires forall i :: 0 <= i < |f| ==>
               points[i]
                 == Point(ShiftTimes(Dates(f), s.offset)[i], if i < |Values(s, f, sess)| then Values(s, f, sess)[i]
                          else None)
    ensures PlotOf(s, f, sess) == Plot(s.column, points) && From(points, 0) == points
  {
  }
}
