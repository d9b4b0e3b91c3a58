/** The path-dependent indicators (live-grid/app/ta/iterative.py): Wilder's
    Parabolic SAR and the Supertrend stop, each a loop over the bars. */
module Iterative {
  import opened Options

  datatype Bar = Bar(high: real, low: real, close: real)

  /** No bar's low lies above its high. */
  predicate Sane(bars: seq<Bar>) {
    forall i :: 0 <= i < |bars| ==> bars[i].low <= bars[i].high
  }

  /** Every bar closes within its range. */
  predicate Closed(bars: seq<Bar>) {
    forall i :: 0 <= i < |bars| ==> bars[i].low <= bars[i].close <= bars[i].high
  }

  lemma BarsMean(bars: seq<Bar>)
    ensures Sane(bars) <==> forall b :: b in bars ==> b.low <= b.high
    ensures Closed(bars) <==> forall b :: b in bars ==> b.low <= b.close <= b.high
  {
    assert forall i :: 0 <= i < |bars| ==> bars[i] in bars;
  }

  function Min(a: real, b: real): real { if b < a then b else a }

  function Max(a: real, b: real): real { if b > a then b else a }

  // ---- Parabolic SAR --------------------------------------------------

  datatype Sar = Sar(sar: real, extreme: real, accel: real, rising: bool)

  function Earlier(i: nat): nat { if i < 2 then 0 else i - 2 }

  /** The stop drawn toward the extreme point. */
  function Drawn(sar: real, extreme: real, accel: real): real {
    sar + accel * (extreme - sar)
  }

  lemma DrawnToward(sar: real, extreme: real, accel: real)
    requires accel > 0.0
    ensures extreme >= sar ==> Drawn(sar, extreme, accel) >= sar
    ensures extreme <= sar ==> Drawn(sar, extreme, accel) <= sar
  {
    if extreme >= sar { assert accel * (extreme - sar) >= 0.0; } else { assert accel * (sar - extreme) >= 0.0; }
  }

  /** Where the stop would stand at bar `i` if the trend held. */
  function Carried(s: Sar, bars: seq<Bar>, i: nat): real
    requires 0 < i < |bars|
  {
    var sar := Drawn(s.sar, s.extreme, s.accel);
    if s.rising then Min(Min(sar, bars[i - 1].low), bars[Earlier(i)].low)
    else Max(Max(sar, bars[i - 1].high), bars[Earlier(i)].high)
  }

  predicate Pierced(s: Sar, bars: seq<Bar>, i: nat)
    requires 0 < i < |bars|
  {
    if s.rising then bars[i].low < Carried(s, bars, i) else bars[i].high > Carried(s, bars, i)
  }

  function SarStep(s: Sar, bars: seq<Bar>, i: nat, step: real, cap: real): Sar
    requires 0 < i < |bars|
  {
    var sar := Carried(s, bars, i);
    if s.rising then
      if bars[i].low < sar then Sar(s.extreme, bars[i].low, step, false)
      else if bars[i].high > s.extreme then Sar(sar, bars[i].high, Min(s.accel + step, cap), true)
      else Sar(sar, s.extreme, s.accel, true)
    else
      if bars[i].high > sar then Sar(s.extreme, bars[i].high, step, true)
      else if bars[i].low < s.extreme then Sar(sar, bars[i].low, Min(s.accel + step, cap), false)
      else Sar(sar, s.extreme, s.accel, false)
  }

  function SarAt(bars: seq<Bar>, i: nat, step: real, cap: real): Sar
    requires i < |bars|
  {
    if i == 0 then Sar(bars[0].low, bars[0].high, step, true)
    else SarStep(SarAt(bars, i - 1, step, cap), bars, i, step, cap)
  }

  /** Bar `i` turns the trend. */
  predicate Flips(bars: seq<Bar>, i: nat, step: real, cap: real)
    requires i < |bars|
  {
    i > 0 && Pierced(SarAt(bars, i - 1, step, cap), bars, i)
  }

  /** The bar the trend of bar `i` began with. */
  function TrendStart(bars: seq<Bar>, i: nat, step: real, cap: real): (f: nat)
    requires i < |bars|
    ensures f <= i && (f == 0 || Flips(bars, f, step, cap))
    ensures forall k :: f < k <= i ==> !Flips(bars, k, step, cap)
  {
    if i == 0 || Flips(bars, i, step, cap) then i else TrendStart(bars, i - 1, step, cap)
  }

  function MaxHigh(bars: seq<Bar>, f: nat, i: nat): (m: real)
    requires f <= i < |bars|
    ensures forall k :: f <= k <= i ==> bars[k].high <= m
    ensures exists k :: f <= k <= i && bars[k].high == m
  {
    if f == i then bars[i].high else Max(MaxHigh(bars, f, i - 1), bars[i].high)
  }

  function MinLow(bars: seq<Bar>, f: nat, i: nat): (m: real)
    requires f <= i < |bars|
    ensures forall k :: f <= k <= i ==> m <= bars[k].low
    ensures exists k :: f <= k <= i && bars[k].low == m
  {
    if f == i then bars[i].low else Min(MinLow(bars, f, i - 1), bars[i].low)
  }

  /** How often the trend has set a new extreme since its first bar. */
  function NewExtremes(bars: seq<Bar>, f: nat, i: nat, rising: bool): nat
    requires f <= i < |bars|
  {
    if f == i then 0
    else
      NewExtremes(bars, f, i - 1, rising)
      + if rising && bars[i].high > MaxHigh(bars, f, i - 1) then 1
        else if !rising && bars[i].low < MinLow(bars, f, i - 1) then 1 else 0
  }

  /** The acceleration after `n` new extremes. */
  function Accel(n: nat, step: real, cap: real): real {
    if n == 0 then step else Min(Accel(n - 1, step, cap) + step, cap)
  }

  lemma {:induction false} AccelMeans(n: nat, step: real, cap: real)
    requires 0.0 < step <= cap
    ensures Accel(n, step, cap) == Min(step * (n + 1) as real, cap) && step <= Accel(n, step, cap) <= cap
  {
    if n > 0 {
      AccelMeans(n - 1, step, cap);
      assert step * (n + 1) as real == step * n as real + step;
    }
  }

  lemma StepInTrend(s: Sar, bars: seq<Bar>, i: nat, step: real, cap: real)
    requires 0 < i < |bars| && !Pierced(s, bars, i)
    ensures var t := SarStep(s, bars, i, step, cap);
            && t.rising == s.rising
            && if (if s.rising then bars[i].high > s.extreme else bars[i].low < s.extreme)
               then t.extreme == (if s.rising then bars[i].high else bars[i].low) && t.accel == Min(s.accel + step, cap)
               else t.extreme == s.extreme && t.accel == s.accel
  {
  }

  lemma StepTurns(s: Sar, bars: seq<Bar>, i: nat, step: real, cap: real)
    requires 0 < i < |bars| && Pierced(s, bars, i)
    ensures SarStep(s, bars, i, step, cap)
            == Sar(s.extreme, if s.rising then bars[i].low else bars[i].high, step, !s.rising)
  {
  }

  /** The state in closed form: along a trend its direction stays, the extreme
      point is the true extreme since the trend's first bar, and the
      acceleration is `step` for that bar and each new extreme, up to `cap`. */
  lemma {:induction false} TrendState(bars: seq<Bar>, i: nat, step: real, cap: real)
    requires i < |bars| && 0.0 < step <= cap
    ensures var s, f := SarAt(bars, i, step, cap), TrendStart(bars, i, step, cap);
            && s.rising == SarAt(bars, f, step, cap).rising
            && s.extreme == (if s.rising then MaxHigh(bars, f, i) else MinLow(bars, f, i))
            && s.accel == Accel(NewExtremes(bars, f, i, s.rising), step, cap)
            && step <= s.accel <= cap
  {
    hide SarStep, Pierced;
    if i > 0 {
      SarUnfold(bars, i, step, cap);
      hide SarAt, Flips;
      if !Flips(bars, i, step, cap) {
        TrendState(bars, i - 1, step, cap);
        StepInTrend(SarAt(bars, i - 1, step, cap), bars, i, step, cap);
      } else {
        StepTurns(SarAt(bars, i - 1, step, cap), bars, i, step, cap);
      }
    }
    hide *;
    AccelMeans(NewExtremes(bars, TrendStart(bars, i, step, cap), i, SarAt(bars, i, step, cap).rising), step, cap);
  }

  /** The turn: at the bar that flips, the stop jumps to the extreme of the
      trend that ended. */
  lemma FlipValue(bars: seq<Bar>, i: nat, step: real, cap: real)
    requires i < |bars| && 0.0 < step <= cap && Flips(bars, i, step, cap)
    ensures var s, was := SarAt(bars, i, step, cap), SarAt(bars, i - 1, step, cap);
            var f := TrendStart(bars, i - 1, step, cap);
            && s.rising == !was.rising
            && s.sar == if was.rising then MaxHigh(bars, f, i - 1) else MinLow(bars, f, i - 1)
  {
    hide SarAt, SarStep, Pierced, TrendStart, MaxHigh, MinLow, NewExtremes, Accel;
    SarUnfold(bars, i, step, cap);
    hide Flips;
    StepTurns(SarAt(bars, i - 1, step, cap), bars, i, step, cap);
    TrendState(bars, i - 1, step, cap);
  }

  lemma SarUnfold(bars: seq<Bar>, i: nat, step: real, cap: real)
    requires 0 < i < |bars|
    ensures SarAt(bars, i, step, cap) == SarStep(SarAt(bars, i - 1, step, cap), bars, i, step, cap)
    ensures Flips(bars, i, step, cap) <==> Pierced(SarAt(bars, i - 1, step, cap), bars, i)
  {
  }

  /** At every bar but the flips the stop is on its side of that bar and of the
      two before it. */
  lemma KeepsItsSide(bars: seq<Bar>, i: nat, step: real, cap: real)
    requires 0 < i < |bars| && !Flips(bars, i, step, cap)
    ensures var s := SarAt(bars, i, step, cap);
            if s.rising then s.sar <= bars[i].low && s.sar <= bars[i - 1].low && s.sar <= bars[Earlier(i)].low
            else s.sar >= bars[i].high && s.sar >= bars[i - 1].high && s.sar >= bars[Earlier(i)].high
  {
  }

  lemma CarriedMeans(s: Sar, bars: seq<Bar>, i: nat)
    requires 0 < i < |bars|
    ensures var c, one, two := Carried(s, bars, i), bars[i - 1], if i >= 2 then bars[i - 2] else bars[0];
            var drawn := Drawn(s.sar, s.extreme, s.accel);
            if s.rising then c <= drawn && c <= one.low && c <= two.low && (c == drawn || c == one.low || c == two.low)
            else c >= drawn && c >= one.high && c >= two.high && (c == drawn || c == one.high || c == two.high)
  {
    hide Drawn;
  }

  lemma StepCarries(was: Sar, bars: seq<Bar>, i: nat, step: real, cap: real)
    requires 0 < i < |bars|
    ensures Pierced(was, bars, i) <==>
            if was.rising then bars[i].low < Carried(was, bars, i) else bars[i].high > Carried(was, bars, i)
    ensures var s := SarStep(was, bars, i, step, cap);
            !Pierced(was, bars, i) ==> s.rising == was.rising && s.sar == Carried(was, bars, i)
  {
    hide Carried;
  }

  /** Wilder's rules for a bar, the extreme point drawing the stop to `drawn`: it goes
      no further than the two bars before, and the trend turns exactly if the bar
      goes through that. */
  ghost predicate Between(was: Sar, s: Sar, flips: bool, drawn: real, bar: Bar, one: Bar, two: Bar) {
    && (was.rising ==> (flips <==> bar.low < drawn && bar.low < one.low && bar.low < two.low))
    && (!was.rising ==> (flips <==> bar.high > drawn && bar.high > one.high && bar.high > two.high))
    && (!flips ==> s.rising == was.rising)
    && (!flips && s.rising ==>
        && s.sar <= drawn && s.sar <= one.low && s.sar <= two.low
        && (s.sar == drawn || s.sar == one.low || s.sar == two.low))
    && (!flips && !s.rising ==>
        && s.sar >= drawn && s.sar >= one.high && s.sar >= two.high
        && (s.sar == drawn || s.sar == one.high || s.sar == two.high))
  }

  lemma StepBetween(was: Sar, bars: seq<Bar>, i: nat, step: real, cap: real)
    requires 0 < i < |bars|
    ensures Between(was, SarStep(was, bars, i, step, cap), Pierced(was, bars, i),
                    Drawn(was.sar, was.extreme, was.accel), bars[i], bars[i - 1],
                    if i >= 2 then bars[i - 2] else bars[0])
  {
    hide Drawn, Carried, SarStep, Pierced;
    CarriedMeans(was, bars, i);
    StepCarries(was, bars, i, step, cap);
  }

  lemma DrawnIs(sar: real, extreme: real, accel: real, drawn: real)
    ensures drawn == sar + accel * (extreme - sar) <==> drawn == Drawn(sar, extreme, accel)
  {
  }

  /** Bar by bar the stop follows those rules, drawn its share of the way from where
      it stood to the extreme point. */
  lemma SarRules(bars: seq<Bar>, i: nat, step: real, cap: real, drawn: real)
    requires 0 < i < |bars|
    requires var was := SarAt(bars, i - 1, step, cap); drawn == was.sar + was.accel * (was.extreme - was.sar)
    ensures Between(SarAt(bars, i - 1, step, cap), SarAt(bars, i, step, cap), Flips(bars, i, step, cap), drawn,
                    bars[i], bars[i - 1], if i >= 2 then bars[i - 2] else bars[0])
  {
    hide SarAt, Flips, SarStep, Pierced, Drawn, Between;
    var was := SarAt(bars, i - 1, step, cap);
    DrawnIs(was.sar, was.extreme, was.accel, drawn);
    SarUnfold(bars, i, step, cap);
    StepBetween(was, bars, i, step, cap);
  }

  /** The first bar: a rising trend from its low to its high. */
  lemma SarStarts(bars: seq<Bar>, step: real, cap: real)
    requires bars != []
    ensures SarAt(bars, 0, step, cap) == Sar(bars[0].low, bars[0].high, step, true)
  {
  }

  /** So a stop short of the extreme point, with both bars before it beyond,
      advances, and only then. */
  lemma Advances(bars: seq<Bar>, i: nat, step: real, cap: real)
    requires 0 < i < |bars| && 0.0 < step <= cap && !Flips(bars, i, step, cap)
    ensures var was, s := SarAt(bars, i - 1, step, cap), SarAt(bars, i, step, cap);
            var one, two := bars[i - 1], if i >= 2 then bars[i - 2] else bars[0];
            && (was.rising ==>
                (s.sar > was.sar <==> was.extreme > was.sar && one.low > was.sar && two.low > was.sar))
            && (!was.rising ==>
                (s.sar < was.sar <==> was.extreme < was.sar && one.high < was.sar && two.high < was.sar))
  {
    hide SarAt, Flips, Between, Drawn, TrendStart, MaxHigh, MinLow, NewExtremes, Accel;
    var was := SarAt(bars, i - 1, step, cap);
    var drawn := Drawn(was.sar, was.extreme, was.accel);
    TrendState(bars, i - 1, step, cap);
    DrawnBeyond(was.sar, was.extreme, was.accel);
    DrawnIs(was.sar, was.extreme, was.accel, drawn);
    SarRules(bars, i, step, cap, drawn);
    BetweenOn(was, SarAt(bars, i, step, cap), Flips(bars, i, step, cap), drawn, bars[i], bars[i - 1],
              if i >= 2 then bars[i - 2] else bars[0]);
  }

  lemma BetweenOn(was: Sar, s: Sar, flips: bool, drawn: real, bar: Bar, one: Bar, two: Bar)
    requires Between(was, s, flips, drawn, bar, one, two) && !flips
    requires (was.extreme > was.sar <==> drawn > was.sar) && (was.extreme < was.sar <==> drawn < was.sar)
    ensures was.rising ==>
      (s.sar > was.sar <==> was.extreme > was.sar && one.low > was.sar && two.low > was.sar)
    ensures !was.rising ==>
      (s.sar < was.sar <==> was.extreme < was.sar && one.high < was.sar && two.high < was.sar)
  {
  }

  lemma DrawnBeyond(sar: real, extreme: real, accel: real)
    requires accel > 0.0
    ensures extreme > sar <==> Drawn(sar, extreme, accel) > sar
    ensures extreme < sar <==> Drawn(sar, extreme, accel) < sar
  {
    var way := extreme - sar;
    if way > 0.0 {
      assert accel * way > 0.0;
    } else if way < 0.0 {
      assert accel * -way > 0.0;
      assert accel * way == -(accel * -way);
    } else {
      assert accel * way == 0.0;
    }
  }

  /** Before its first bar is over the trend's extreme lies beyond the stop. */
  lemma Room(bars: seq<Bar>, i: nat, step: real, cap: real)
    requires i < |bars| && 0.0 < step <= cap && Sane(bars)
    ensures var s := SarAt(bars, i, step, cap); if s.rising then s.sar <= s.extreme else s.extreme <= s.sar
  {
    TrendState(bars, i, step, cap);
    if i > 0 {
      if Flips(bars, i, step, cap) {
        TrendState(bars, i - 1, step, cap);
        FlipValue(bars, i, step, cap);
      } else {
        KeepsItsSide(bars, i, step, cap);
      }
    }
  }

  lemma StepRatchets(was: Sar, bars: seq<Bar>, i: nat, step: real, cap: real)
    requires 0 < i < |bars| && was.accel > 0.0 && !Pierced(was, bars, i)
    requires if was.rising then was.sar <= was.extreme && was.sar <= bars[i - 1].low && was.sar <= bars[Earlier(i)].low
             else was.sar >= was.extreme && was.sar >= bars[i - 1].high && was.sar >= bars[Earlier(i)].high
    ensures var s := SarStep(was, bars, i, step, cap);
            s.rising == was.rising && if s.rising then s.sar >= was.sar else s.sar <= was.sar
  {
    DrawnToward(was.sar, was.extreme, was.accel);
    hide Drawn;
  }

  /** Inside a trend after its first bar the stop only moves toward price. */
  lemma Ratchets(bars: seq<Bar>, i: nat, step: real, cap: real)
    requires 0 < i < |bars| && 0.0 < step <= cap && Sane(bars)
    requires !Flips(bars, i, step, cap) && !Flips(bars, i - 1, step, cap)
    ensures var s, was := SarAt(bars, i, step, cap), SarAt(bars, i - 1, step, cap);
            s.rising == was.rising && if s.rising then s.sar >= was.sar else s.sar <= was.sar
  {
    var was := SarAt(bars, i - 1, step, cap);
    Room(bars, i - 1, step, cap);
    TrendState(bars, i - 1, step, cap);
    if i > 1 { KeepsItsSide(bars, i - 1, step, cap); }
    hide TrendStart, MaxHigh, MinLow, NewExtremes, Accel, SarStep, Carried;
    StepRatchets(was, bars, i, step, cap);
  }

  /** Right after its first bar it moves away exactly if that bar went beyond the
      extreme of the trend it ended. */
  lemma FirstMove(bars: seq<Bar>, i: nat, step: real, cap: real)
    requires 1 < i < |bars| && 0.0 < step <= cap && Sane(bars)
    requires Flips(bars, i - 1, step, cap) && !Flips(bars, i, step, cap)
    ensures var s, was := SarAt(bars, i, step, cap), SarAt(bars, i - 1, step, cap);
            if s.rising then s.sar < was.sar <==> bars[i - 1].low < was.sar
            else s.sar > was.sar <==> bars[i - 1].high > was.sar
  {
    var was := SarAt(bars, i - 1, step, cap);
    Room(bars, i - 1, step, cap);
    TrendState(bars, i - 1, step, cap);
    FlipValue(bars, i - 1, step, cap);
    DrawnToward(was.sar, was.extreme, was.accel);
    hide Drawn, TrendStart, MaxHigh, MinLow, NewExtremes, Accel;
  }

  /** It happens: the third bar turns the trend down with a high above the stop it
      is given, so the fourth finds the stop at that high. */
  lemma FirstMoveHappens()
    ensures var bars := [Bar(10.0, 9.0, 10.0), Bar(11.0, 10.0, 11.0), Bar(13.0, 5.0, 5.0), Bar(6.0, 5.0, 5.0)];
            && Closed(bars) && Flips(bars, 2, 0.02, 0.2) && !Flips(bars, 3, 0.02, 0.2)
            && SarAt(bars, 2, 0.02, 0.2) == Sar(11.0, 5.0, 0.02, false) && SarAt(bars, 3, 0.02, 0.2).sar == 13.0
  {
    var bars := [Bar(10.0, 9.0, 10.0), Bar(11.0, 10.0, 11.0), Bar(13.0, 5.0, 5.0), Bar(6.0, 5.0, 5.0)];
    assert SarAt(bars, 0, 0.02, 0.2) == Sar(9.0, 10.0, 0.02, true);
    assert SarAt(bars, 1, 0.02, 0.2) == Sar(9.0, 11.0, 0.04, true);
    assert SarAt(bars, 2, 0.02, 0.2) == Sar(11.0, 5.0, 0.02, false);
    SarUnfold(bars, 3, 0.02, 0.2);
  }

  /** The value at a bar depends on the bars up to it alone. */
  lemma {:induction false} SarCausal(a: seq<Bar>, b: seq<Bar>, i: nat, step: real, cap: real)
    requires i < |a| && i < |b| && a[..i + 1] == b[..i + 1]
    ensures SarAt(a, i, step, cap) == SarAt(b, i, step, cap)
  {
    assert forall k :: 0 <= k <= i ==> a[k] == a[..i + 1][k] == b[..i + 1][k] == b[k];
    if i > 0 {
      assert a[..i] == b[..i];
      SarCausal(a, b, i - 1, step, cap);
    }
  }

  method ParabolicSar(bars: seq<Bar>, step: real, cap: real) returns (out: seq<Option<real>>)
    ensures |out| == |bars|
    ensures bars != [] ==> out[0] == None
    ensures forall k :: 0 < k < |bars| ==> out[k] == Some(SarAt(bars, k, step, cap).sar)
  {
    hide Drawn;
    if bars == [] { return []; }
    out := [None];
    var rising := true;
    var sar := bars[0].low;
    var extreme := bars[0].high;
    var accel := step;
    for i := 1 to |bars|
      invariant |out| == i && out[0] == None
      invariant Sar(sar, extreme, accel, rising) == SarAt(bars, i - 1, step, cap)
      invariant forall k :: 0 < k < i ==> out[k] == Some(SarAt(bars, k, step, cap).sar)
    {
      sar := Drawn(sar, extreme, accel);
      if rising {
        sar := Min(Min(sar, bars[i - 1].low), bars[Earlier(i)].low);
        if bars[i].low < sar {
          rising, sar, extreme, accel := false, extreme, bars[i].low, step;
        } else if bars[i].high > extreme {
          extreme, accel := bars[i].high, Min(accel + step, cap);
        }
      } else {
        sar := Max(Max(sar, bars[i - 1].high), bars[Earlier(i)].high);
        if bars[i].high > sar {
          rising, sar, extreme, accel := true, extreme, bars[i].high, step;
        } else if bars[i].low < extreme {
          extreme, accel := bars[i].low, Min(accel + step, cap);
        }
      }
      out := out + [Some(sar)];
    }
  }

  // ---- Supertrend -----------------------------------------------------

  /** The smoothed true range before bar `i`'s own is told apart from a gap. */
  function Running(tr: seq<Option<real>>, i: nat, period: nat): Option<real>
    requires i < |tr| && period > 0
  {
    var before := if i == 0 then None else Running(tr, i - 1, period);
    if tr[i].None? then before
    else if before.None? then tr[i]
    else Some(before.value + (tr[i].value - before.value) / period as real)
  }

  function Atr(tr: seq<Option<real>>, i: nat, period: nat): Option<real>
    requires i < |tr| && period > 0
  {
    if tr[i].None? then None else Running(tr, i, period)
  }

  function Abs(x: real): real { if x < 0.0 then -x else x }

  /** The range of a bar, its gap from the close before included. */
  function TrueRange(bars: seq<Bar>): (tr: seq<Option<real>>)
    ensures |tr| == |bars|
  {
    seq(|bars|, i requires 0 <= i < |bars| =>
      var range := bars[i].high - bars[i].low;
      Some(if i == 0 then range
           else Max(range, Max(Abs(bars[i].high - bars[i - 1].close), Abs(bars[i].low - bars[i - 1].close)))))
  }

  lemma TrueRangeCausal(a: seq<Bar>, b: seq<Bar>, i: nat)
    requires i < |a| && i < |b| && a[..i + 1] == b[..i + 1]
    ensures TrueRange(a)[..i + 1] == TrueRange(b)[..i + 1]
  {
    forall k | 0 <= k <= i ensures a[k] == b[k] {
      assert a[k] == a[..i + 1][k] == b[..i + 1][k] == b[k];
    }
  }

  datatype Bands = Bands(upper: Option<real>, lower: Option<real>, up: bool)

  datatype Setting = Setting(period: nat, multiplier: real)

  function BasicUpper(b: Bar, atr: real, m: real): real { (b.high + b.low) / 2.0 + m * atr }

  function BasicLower(b: Bar, atr: real, m: real): real { (b.high + b.low) / 2.0 - m * atr }

  /** The bands and the side after a bar whose own bands are `hi` and `lo`. */
  function Banded(s: Bands, hi: real, lo: real, closed: real, close: real): Bands {
    var upper := if s.upper.None? || hi < s.upper.value || closed > s.upper.value then hi else s.upper.value;
    var lower := if s.lower.None? || lo > s.lower.value || closed < s.lower.value then lo else s.lower.value;
    Bands(Some(upper), Some(lower), if s.up then close >= lower else close > upper)
  }

  function BandsAt(bars: seq<Bar>, tr: seq<Option<real>>, i: nat, p: Setting): (s: Bands)
    requires i < |bars| == |tr| && p.period > 0
    ensures i > 0 && Atr(tr, i, p.period).Some? ==> s.upper.Some? && s.lower.Some?
  {
    if i == 0 then Bands(None, None, true)
    else
      var s := BandsAt(bars, tr, i - 1, p);
      var atr := Atr(tr, i, p.period);
      if atr.None? then s
      else Banded(s, BasicUpper(bars[i], atr.value, p.multiplier), BasicLower(bars[i], atr.value, p.multiplier),
                  bars[i - 1].close, bars[i].close)
  }

  /** A bar that has a line. */
  predicate Drawable(tr: seq<Option<real>>, i: nat, period: nat)
    requires period > 0
  {
    0 < i < |tr| && Atr(tr, i, period).Some?
  }

  function Line(bars: seq<Bar>, tr: seq<Option<real>>, i: nat, p: Setting): real
    requires i < |bars| == |tr| && p.period > 0 && Drawable(tr, i, p.period)
  {
    var s := BandsAt(bars, tr, i, p);
    if s.up then s.lower.value else s.upper.value
  }

  predicate StFlips(bars: seq<Bar>, tr: seq<Option<real>>, i: nat, p: Setting)
    requires i < |bars| == |tr| && p.period > 0
  {
    i > 0 && BandsAt(bars, tr, i, p).up != BandsAt(bars, tr, i - 1, p).up
  }

  /** The close is on the line's far side. */
  predicate Across(bars: seq<Bar>, tr: seq<Option<real>>, i: nat, p: Setting)
    requires i < |bars| == |tr| && p.period > 0 && Drawable(tr, i, p.period)
  {
    if BandsAt(bars, tr, i, p).up then bars[i].close < Line(bars, tr, i, p) else bars[i].close > Line(bars, tr, i, p)
  }

  /** The first range there is starts the average, and a bar without one leaves it;
      a bar has an average exactly if it has a range. */
  lemma {:induction false} AtrMeans(tr: seq<Option<real>>, i: nat, period: nat)
    requires i < |tr| && period > 0
    ensures Atr(tr, i, period).Some? <==> tr[i].Some?
    ensures tr[i].Some? ==> Atr(tr, i, period) == Running(tr, i, period)
    ensures tr[i].None? ==> Running(tr, i, period) == if i == 0 then None else Running(tr, i - 1, period)
    ensures tr[i].Some? && (i == 0 || Running(tr, i - 1, period).None?) ==> Running(tr, i, period) == tr[i]
    ensures Running(tr, i, period).None? <==> forall k :: 0 <= k <= i ==> tr[k].None?
  {
    if i > 0 { AtrMeans(tr, i - 1, period); }
  }

  /** Wilder's smoothing: any other range moves the average by its share. */
  lemma AtrMoves(tr: seq<Option<real>>, i: nat, period: nat)
    requires 0 < i < |tr| && period > 0 && tr[i].Some? && Running(tr, i - 1, period).Some?
    ensures Running(tr, i, period).Some?
            && period as real * Running(tr, i, period).value
            == (period as real - 1.0) * Running(tr, i - 1, period).value + tr[i].value
  {
    var r := Running(tr, i - 1, period).value;
    assert Running(tr, i, period) == Some(r + (tr[i].value - r) / period as real);
    hide Running;
    Shares(period as real, r, tr[i].value);
  }

  lemma Shares(n: real, r: real, v: real)
    requires n > 0.0
    ensures n * (r + (v - r) / n) == (n - 1.0) * r + v
  {
    var w := (v - r) / n;
    assert n * w == v - r;
    assert n * (r + w) == n * r + n * w;
    assert (n - 1.0) * r == n * r - r;
  }

  /** The true range spans the bar and the close before it. */
  lemma TrueRangeMeans(bars: seq<Bar>, i: nat)
    requires i < |bars| && Sane(bars)
    ensures i == 0 ==> TrueRange(bars)[i] == Some(bars[i].high - bars[i].low)
    ensures i > 0 ==>
      var top := if bars[i - 1].close > bars[i].high then bars[i - 1].close else bars[i].high;
      var bottom := if bars[i - 1].close < bars[i].low then bars[i - 1].close else bars[i].low;
      TrueRange(bars)[i] == Some(top - bottom)
  {
  }

  /** A bar's rules, `mid` being its middle and `off` how far off its own bands lie:
      a band is the bar's own or the one before, if that is tighter and the close
      before did not pass it; the side holds until a close passes the band that
      is its line. */
  ghost predicate Bounds(was: Bands, s: Bands, mid: real, off: real, closed: real, close: real) {
    && s.upper.Some? && s.lower.Some?
    && s.upper.value == (if was.upper.Some? && was.upper.value <= mid + off && closed <= was.upper.value
                         then was.upper.value else mid + off)
    && s.lower.value == (if was.lower.Some? && was.lower.value >= mid - off && closed >= was.lower.value
                         then was.lower.value else mid - off)
    && (was.up ==> (s.up <==> close >= s.lower.value))
    && (!was.up ==> (s.up <==> close > s.upper.value))
  }

  lemma OwnBounds(was: Bands, b: Bar, atr: real, m: real, off: real, closed: real, close: real)
    requires off == m * atr
    ensures Bounds(was, Banded(was, BasicUpper(b, atr, m), BasicLower(b, atr, m), closed, close),
                   (b.high + b.low) / 2.0, off, closed, close)
  {
    var hi, lo := BasicUpper(b, atr, m), BasicLower(b, atr, m);
    assert hi == (b.high + b.low) / 2.0 + off && lo == (b.high + b.low) / 2.0 - off;
    hide BasicUpper, BasicLower;
  }

  /** Bar by bar the bands follow those rules, `multiplier` average ranges off. */
  lemma BandRules(bars: seq<Bar>, tr: seq<Option<real>>, i: nat, p: Setting, off: real)
    requires 0 < i < |bars| == |tr| && p.period > 0
    requires Atr(tr, i, p.period).Some? ==> off == p.multiplier * Atr(tr, i, p.period).value
    ensures BandsAt(bars, tr, 0, p) == Bands(None, None, true)
    ensures var was, s := BandsAt(bars, tr, i - 1, p), BandsAt(bars, tr, i, p);
            && (Drawable(tr, i, p.period) <==> tr[i].Some?)
            && (tr[i].None? ==> s == was)
            && (tr[i].Some? ==>
                && Bounds(was, s, (bars[i].high + bars[i].low) / 2.0, off, bars[i - 1].close, bars[i].close)
                && Line(bars, tr, i, p) == if s.up then s.lower.value else s.upper.value)
  {
    hide Running, Atr, Bounds, Banded, BasicUpper, BasicLower;
    AtrMeans(tr, i, p.period);
    if tr[i].Some? {
      OwnBounds(BandsAt(bars, tr, i - 1, p), bars[i], Atr(tr, i, p.period).value, p.multiplier, off,
                bars[i - 1].close, bars[i].close);
    }
  }

  /** The close does not cross the line without turning it: across it, the bar is
      one that turned. */
  lemma NoSilentCross(bars: seq<Bar>, tr: seq<Option<real>>, i: nat, p: Setting)
    requires i < |bars| == |tr| && p.period > 0 && Drawable(tr, i, p.period)
    ensures Across(bars, tr, i, p) ==> StFlips(bars, tr, i, p)
    ensures StFlips(bars, tr, i, p) ==>
              var s := BandsAt(bars, tr, i, p);
              if s.up then bars[i].close > s.upper.value else bars[i].close < s.lower.value
  {
    hide BasicUpper, BasicLower, Atr;
  }

  /** From one drawn bar to the next on the same side the line moves away from
      price exactly if the earlier close was across it and the later bar's own
      band lies behind it -- so at most right after a turn. */
  lemma StRetreats(bars: seq<Bar>, tr: seq<Option<real>>, i: nat, p: Setting)
    requires 1 < i < |bars| == |tr| && p.period > 0
    requires Drawable(tr, i, p.period) && Drawable(tr, i - 1, p.period) && !StFlips(bars, tr, i, p)
    ensures var up := BandsAt(bars, tr, i, p).up;
            var was, line := Line(bars, tr, i - 1, p), Line(bars, tr, i, p);
            var atr := Atr(tr, i, p.period).value;
            var retreats := if up then line < was else line > was;
            var behind := if up then BasicLower(bars[i], atr, p.multiplier) < was
                else BasicUpper(bars[i], atr, p.multiplier) > was;
            && (retreats <==> Across(bars, tr, i - 1, p) && behind)
            && (retreats ==> StFlips(bars, tr, i - 1, p))
  {
    NoSilentCross(bars, tr, i - 1, p);
    hide BasicUpper, BasicLower, Atr;
  }

  /** It can happen: the third bar turns the line down but closes above it, and
      the fourth starts the upper band anew, higher. */
  lemma StRetreatHappens()
    ensures var bars := [Bar(20.0, 20.0, 20.0), Bar(17.0, 17.0, 17.0), Bar(79.0, 19.0, 19.0), Bar(58.0, 38.0, 58.0)];
            var tr, p := TrueRange(bars), Setting(10, 3.0);
            && Closed(bars) && Drawable(tr, 2, 10) && Drawable(tr, 3, 10) && !StFlips(bars, tr, 3, p)
            && !BandsAt(bars, tr, 2, p).up && Across(bars, tr, 2, p)
            && Line(bars, tr, 2, p) == 17.9 && Line(bars, tr, 3, p) == 77.169
  {
    var bars := [Bar(20.0, 20.0, 20.0), Bar(17.0, 17.0, 17.0), Bar(79.0, 19.0, 19.0), Bar(58.0, 38.0, 58.0)];
    var tr, p := TrueRange(bars), Setting(10, 3.0);
    assert tr == [Some(0.0), Some(3.0), Some(62.0), Some(39.0)];
    hide TrueRange;
    assert Running(tr, 0, 10) == Some(0.0);
    assert Running(tr, 1, 10) == Some(0.3);
    assert Running(tr, 2, 10) == Some(6.47);
    assert Running(tr, 3, 10) == Some(9.723);
    hide Running;
    assert BandsAt(bars, tr, 1, p) == Bands(Some(17.9), Some(16.1), true);
    assert BandsAt(bars, tr, 2, p) == Bands(Some(17.9), Some(29.59), false);
    assert BandsAt(bars, tr, 3, p).upper == Some(77.169) && !BandsAt(bars, tr, 3, p).up;
  }

  lemma {:induction false} RunningCausal(a: seq<Option<real>>, b: seq<Option<real>>, i: nat, period: nat)
    requires i < |a| && i < |b| && a[..i + 1] == b[..i + 1] && period > 0
    ensures Running(a, i, period) == Running(b, i, period) && Atr(a, i, period) == Atr(b, i, period)
  {
    assert a[i] == a[..i + 1][i] == b[..i + 1][i] == b[i];
    if i > 0 {
      assert a[..i] == a[..i + 1][..i] == b[..i + 1][..i] == b[..i];
      RunningCausal(a, b, i - 1, period);
    }
  }

  /** The bands at a bar depend on the bars up to it alone. */
  lemma {:induction false} StCausal(a: seq<Bar>, b: seq<Bar>, ta: seq<Option<real>>, tb: seq<Option<real>>, i: nat,
                                    p: Setting)
    requires i < |a| == |ta| && i < |b| == |tb| && p.period > 0
    requires a[..i + 1] == b[..i + 1] && ta[..i + 1] == tb[..i + 1]
    ensures BandsAt(a, ta, i, p) == BandsAt(b, tb, i, p)
    ensures Drawable(ta, i, p.period) == Drawable(tb, i, p.period)
  {
    RunningCausal(ta, tb, i, p.period);
    hide Running, Atr, Banded, BasicUpper, BasicLower;
    if i > 0 {
      assert a[i] == a[..i + 1][i] == b[..i + 1][i] == b[i];
      assert a[i - 1] == a[..i + 1][i - 1] == b[..i + 1][i - 1] == b[i - 1];
      assert a[..i] == a[..i + 1][..i] == b[..i + 1][..i] == b[..i];
      assert ta[..i] == ta[..i + 1][..i] == tb[..i + 1][..i] == tb[..i];
      StCausal(a, b, ta, tb, i - 1, p);
    }
  }

  method AtrOf(tr: seq<Option<real>>, period: nat) returns (atr: seq<Option<real>>)
    requires period > 0
    ensures |atr| == |tr| && forall k :: 0 <= k < |tr| ==> atr[k] == Atr(tr, k, period)
  {
    atr := [];
    var running: Option<real> := None;
    for i := 0 to |tr|
      invariant |atr| == i && forall k :: 0 <= k < i ==> atr[k] == Atr(tr, k, period)
      invariant running == if i == 0 then None else Running(tr, i - 1, period)
    {
      if tr[i].Some? {
        running := if running.None? then tr[i]
                   else Some(running.value + (tr[i].value - running.value) / period as real);
        atr := atr + [running];
      } else {
        atr := atr + [None];
      }
    }
  }

  method Supertrend(bars: seq<Bar>, tr: seq<Option<real>>, p: Setting)
    returns (line: seq<Option<real>>, up: seq<Option<bool>>)
    requires |tr| == |bars| && p.period > 0
    ensures |line| == |bars| == |up|
    ensures forall k :: 0 <= k < |bars| ==>
              && line[k] == (if Drawable(tr, k, p.period) then Some(Line(bars, tr, k, p)) else None)
              && up[k] == if Drawable(tr, k, p.period) then Some(BandsAt(bars, tr, k, p).up) else None
  {
    if bars == [] { return [], []; }
    var atr := AtrOf(tr, p.period);
    line, up := [None], [None];
    var upper: Option<real>, lower: Option<real> := None, None;
    var rising := true;
    for i := 1 to |bars|
      invariant |line| == |up| == i
      invariant Bands(upper, lower, rising) == BandsAt(bars, tr, i - 1, p)
      invariant forall k :: 0 <= k < i ==>
                  && line[k] == (if Drawable(tr, k, p.period) then Some(Line(bars, tr, k, p)) else None)
                  && up[k] == if Drawable(tr, k, p.period) then Some(BandsAt(bars, tr, k, p).up) else None
    {
      hide Running, Atr, BasicUpper, BasicLower;
      if atr[i].None? {
        line, up := line + [None], up + [None];
      } else {
        var basicUpper := BasicUpper(bars[i], atr[i].value, p.multiplier);
        var basicLower := BasicLower(bars[i], atr[i].value, p.multiplier);
        if upper.None? || basicUpper < upper.value || bars[i - 1].close > upper.value { upper := Some(basicUpper); }
        if lower.None? || basicLower > lower.value || bars[i - 1].close < lower.value { lower := Some(basicLower); }
        if rising && bars[i].close < lower.value {
          rising := false;
        } else if !rising && bars[i].close > upper.value {
          rising := true;
        }
        line := line + [if rising then lower else upper];
        up := up + [Some(rising)];
      }
    }
  }
}
