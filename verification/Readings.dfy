/** What the registry's expressions come to when the engine's primitives do
    arithmetic on columns with gaps (live-grid/app/ta/exprs.py, registry.py). */
module Readings {
  import opened Options
  import opened Columns
  import opened Compute
  import opened Catalogue
  import I = Iterative

  // ---- arithmetic on columns ------------------------------------------

  function Truth(b: bool): Option<real> { Some(if b then 1.0 else 0.0) }

  function Product(a: real, b: real): real { a * b }

  function Quotient(a: real, b: real): real
    requires b != 0.0
  {
    a / b
  }

  /** One row of a primitive of two columns; what divides by zero is missing. */
  function Scalar(op: string, a: Option<real>, b: Option<real>): Option<real> {
    if op == "max_horizontal" then
      if a.None? then b else if b.None? then a else Some(if b.value > a.value then b.value else a.value)
    else if op == "when" then if a == Truth(true) then b else Some(0.0)
    else if op == "when_or_null" then if a == Truth(true) then b else None
    else if op == "&" then
      if a == Truth(false) || b == Truth(false) then Truth(false) else if a.None? || b.None? then None else Truth(true)
    else if a.None? || b.None? then None
    else if op == "+" then Some(a.value + b.value)
    else if op == "-" then Some(a.value - b.value)
    else if op == "*" then Some(Product(a.value, b.value))
    else if op == "/" then if b.value == 0.0 then None else Some(Quotient(a.value, b.value))
    else if op == ">" then Truth(a.value > b.value)
    else if op == ">=" then Truth(a.value >= b.value)
    else None
  }

  /** The sum of a stretch, gaps left out. */
  function Sum(x: Series, lo: nat, hi: nat): real
    requires lo <= hi <= |x|
  {
    if lo == hi then 0.0 else Sum(x, lo, hi - 1) + if x[hi - 1].Some? then x[hi - 1].value else 0.0
  }

  /** How far a stretch strays from `m`, squared and summed. */
  function Strays(x: Series, lo: nat, hi: nat, m: real): real
    requires lo <= hi <= |x|
  {
    if lo == hi then 0.0
    else
      Strays(x, lo, hi - 1, m)
      + if x[hi - 1].Some? then (x[hi - 1].value - m) * (x[hi - 1].value - m) else 0.0
  }

  predicate NoGaps(x: Series, lo: int, hi: int) {
    0 <= lo < hi <= |x| && forall j :: lo <= j < hi ==> x[j].Some?
  }

  function Mean(x: Series, lo: nat, hi: nat): real
    requires lo < hi <= |x|
  {
    Sum(x, lo, hi) / (hi - lo) as real
  }

  /** The exponential average of span `n`: it moves by `2 / (n + 1)`. */
  function Ema(x: Series, i: nat, n: nat): Option<real>
    requires i < |x|
  {
    var before := if i == 0 then None else Ema(x, i - 1, n);
    if x[i].None? then before
    else if before.None? then x[i]
    else Some(before.value + (x[i].value - before.value) * 2.0 / (n + 1) as real)
  }

  function Extreme(x: Series, lo: nat, hi: nat, most: bool): real
    requires lo < hi <= |x| && NoGaps(x, lo, hi)
  {
    if hi == lo + 1 then x[lo].value
    else
      var m := Extreme(x, lo, hi - 1, most);
      if (x[hi - 1].value > m) == most then x[hi - 1].value else m
  }

  function Unary(op: string, x: Series, i: nat): Option<real>
    requires i < |x|
  {
    if op == "abs" then if x[i].None? then None else Some(if x[i].value < 0.0 then -x[i].value else x[i].value)
    else if op == "cum_sum" then if x[i].None? then None else Some(Sum(x, 0, i + 1))
    else if op == "is_not_null" then Truth(x[i].Some?)
    else if op == "is_not_nan" then if x[i].None? then None else Truth(true)
    else x[i]
  }

  /** `root` is a square root. */
  function Window(op: string, n: nat, x: Series, i: nat, root: real -> real): Option<real>
    requires i < |x|
  {
    if op == "shift" then if i < n then None else x[i - n]
    else if op == "ewm_wilder" then if n == 0 then None else I.Atr(x, i, n)
    else if op == "ewm_span" then if x[i].None? then None else Ema(x, i, n)
    else if !NoGaps(x, i + 1 - n, i + 1) then None
    else if op == "rolling_mean" then Some(Mean(x, i + 1 - n, i + 1))
    else if op == "rolling_std_population" then
      Some(root(Strays(x, i + 1 - n, i + 1, Mean(x, i + 1 - n, i + 1)) / n as real))
    else if op == "rolling_max" then Some(Extreme(x, i + 1 - n, i + 1, true))
    else if op == "rolling_min" then Some(Extreme(x, i + 1 - n, i + 1, false))
    else None
  }

  /** The engine on frames of `h` rows; `num` reads a literal. */
  function Arithmetic(h: nat, num: string -> real, root: real -> real): Ops {
    Ops(t => seq(h, _ => Some(num(t))),
        (op, x) => seq(|x|, i requires 0 <= i < |x| => Unary(op, x, i)),
        (op, x, y) =>
          seq(if |x| <= |y| then |x| else |y|, i requires 0 <= i < |x| && i < |y| => Scalar(op, x[i], y[i])),
        (op, n: nat, x) => seq(|x|, i requires 0 <= i < |x| => Window(op, n, x, i, root)))
  }

  /** Every column read has `h` rows. */
  predicate Rectangular(f: Frame, h: nat, cols: set<string>) {
    forall c :: c in cols ==> c in f && |f[c]| == h
  }

  lemma {:induction false} Height(e: Expr, f: Frame, h: nat, num: string -> real, root: real -> real)
    requires Rectangular(f, h, Cols(e))
    ensures |Eval(e, f, Arithmetic(h, num, root))| == h
  {
    match e
    case Col(_) =>
    case Lit(_) =>
    case Un(_, a) => Height(a, f, h, num, root);
    case Bin(_, a, b) => Height(a, f, h, num, root); Height(b, f, h, num, root);
    case Win(_, _, a) => Height(a, f, h, num, root);
  }

  lemma BinRow(op: string, a: Expr, b: Expr, f: Frame, h: nat, num: string -> real, root: real -> real, i: nat)
    requires Rectangular(f, h, Cols(a)) && Rectangular(f, h, Cols(b)) && i < h
    ensures var ops := Arithmetic(h, num, root);
            && |Eval(a, f, ops)| == |Eval(b, f, ops)| == |Eval(Bin(op, a, b), f, ops)| == h
            && Eval(Bin(op, a, b), f, ops)[i] == Scalar(op, Eval(a, f, ops)[i], Eval(b, f, ops)[i])
  {
    hide Scalar, Unary, Window;
    Height(a, f, h, num, root);
    Height(b, f, h, num, root);
  }

  lemma UnRow(op: string, a: Expr, f: Frame, h: nat, num: string -> real, root: real -> real, i: nat)
    requires Rectangular(f, h, Cols(a)) && i < h
    ensures var ops := Arithmetic(h, num, root);
            && |Eval(a, f, ops)| == |Eval(Un(op, a), f, ops)| == h
            && Eval(Un(op, a), f, ops)[i] == Unary(op, Eval(a, f, ops), i)
  {
    hide Scalar, Unary, Window;
    Height(a, f, h, num, root);
  }

  lemma WinRow(op: string, n: nat, a: Expr, f: Frame, h: nat, num: string -> real, root: real -> real, i: nat)
    requires Rectangular(f, h, Cols(a)) && i < h
    ensures var ops := Arithmetic(h, num, root);
            && |Eval(a, f, ops)| == |Eval(Win(op, n, a), f, ops)| == h
            && Eval(Win(op, n, a), f, ops)[i] == Window(op, n, Eval(a, f, ops), i, root)
  {
    hide Scalar, Unary, Window;
    Height(a, f, h, num, root);
  }

  lemma LitRow(t: string, f: Frame, h: nat, num: string -> real, root: real -> real, i: nat)
    requires i < h
    ensures |Eval(Lit(t), f, Arithmetic(h, num, root))| == h
            && Eval(Lit(t), f, Arithmetic(h, num, root))[i] == Some(num(t))
  {
    hide Scalar, Unary, Window;
  }

  // ---- shared sub-series ----------------------------------------------

  lemma ReadsAs(b: Base, deps: map<string, Base>)
    requires Key(b) in deps && deps[Key(b)] == b
    ensures Inline(Read(b), deps) == BaseExpr(b)
  {
  }

  lemma OneDep(b: Base)
    ensures DepMap([b]) == map[Key(b) := b]
  {
    assert [b][..0] == [];
  }

  lemma TwoDeps(a: Base, b: Base)
    requires CleanBase(a) && CleanBase(b) && a != b
    ensures var m := DepMap([a, b]); Key(a) in m && m[Key(a)] == a && Key(b) in m && m[Key(b)] == b
  {
    if Key(a) == Key(b) { KeyInjective(a, b); }
    OneDep(a);
    assert [a, b][..1] == [a];
  }

  /** The mean of the last `n` prices, and how far they stray from it. */
  ghost predicate Averages(x: Series, i: nat, n: nat, mid: Option<real>, dev: Option<real>) {
    && mid.Some? && dev.Some? && 0 < n <= i + 1 <= |x|
    && n as real * mid.value == Sum(x, i + 1 - n, i + 1)
    && dev.value >= 0.0 && n as real * (dev.value * dev.value) == Strays(x, i + 1 - n, i + 1, mid.value)
  }

  ghost predicate IsRoot(root: real -> real) {
    forall x :: x >= 0.0 ==> root(x) >= 0.0 && root(x) * root(x) == x
  }

  lemma {:induction false} StraysPositive(x: Series, lo: nat, hi: nat, m: real)
    requires lo <= hi <= |x|
    ensures Strays(x, lo, hi, m) >= 0.0
  {
    if lo < hi {
      StraysPositive(x, lo, hi - 1, m);
      if x[hi - 1].Some? { Square(x[hi - 1].value - m); }
    }
  }

  lemma Square(d: real)
    ensures d * d >= 0.0
  {
    if d < 0.0 { assert -d * -d == d * d; }
  }

  lemma Divides(x: real, n: nat)
    requires n > 0
    ensures n as real * (x / n as real) == x && (x >= 0.0 ==> x / n as real >= 0.0)
  {
    var q := x / n as real;
    assert n as real * q == x;
    assert q < 0.0 ==> n as real * q < 0.0;
  }

  lemma AveragesHold(x: Series, i: nat, n: nat, root: real -> real)
    requires i < |x| && n > 0 && NoGaps(x, i + 1 - n, i + 1) && IsRoot(root)
    ensures var m := Mean(x, i + 1 - n, i + 1);
            Averages(x, i, n, Some(m), Some(root(Strays(x, i + 1 - n, i + 1, m) / n as real)))
  {
    var lo := i + 1 - n;
    var m := Mean(x, lo, i + 1);
    StraysPositive(x, lo, i + 1, m);
    Divides(Sum(x, lo, i + 1), n);
    Divides(Strays(x, lo, i + 1, m), n);
    hide Sum, Strays, NoGaps;
    Squared(root, Strays(x, lo, i + 1, m) / n as real);
  }

  lemma Squared(root: real -> real, q: real)
    requires q >= 0.0 && IsRoot(root)
    ensures root(q) >= 0.0 && root(q) * root(q) == q
  {
  }

  lemma SharedMeans(f: Frame, n: nat, h: nat, num: string -> real, root: real -> real, i: nat)
    requires Rectangular(f, h, {Price()}) && i < h && n > 0 && NoGaps(f[Price()], i + 1 - n, i + 1) && IsRoot(root)
    ensures var ops := Arithmetic(h, num, root);
            && |Eval(BaseExpr(Shared("sma", n)), f, ops)| == |Eval(BaseExpr(Shared("std", n)), f, ops)| == h
            && Averages(f[Price()], i, n, Eval(BaseExpr(Shared("sma", n)), f, ops)[i],
                        Eval(BaseExpr(Shared("std", n)), f, ops)[i])
  {
    WinRow("rolling_mean", n, Col(Price()), f, h, num, root, i);
    WinRow("rolling_std_population", n, Col(Price()), f, h, num, root, i);
    AveragesHold(f[Price()], i, n, root);
    hide Arithmetic, Averages, IsRoot, Sum, Strays, Mean;
  }

  // ---- one row at a time ----------------------------------------------

  lemma Calculates(a: real, b: real)
    ensures Scalar("+", Some(a), Some(b)) == Some(a + b)
    ensures Scalar("-", Some(a), Some(b)) == Some(a - b)
    ensures Scalar("*", Some(a), Some(b)) == Some(Product(a, b))
    ensures b != 0.0 ==> Scalar("/", Some(a), Some(b)) == Some(Quotient(a, b))
  {
    assert "+"[0] == '+' && "-"[0] == '-' && "*"[0] == '*' && "/"[0] == '/' && "&"[0] == '&';
    hide Product, Quotient;
  }

  predicate Reads(s: Series, i: nat, v: real) {
    i < |s| && s[i].Some? && s[i].value == v
  }

  /** A row of a frame, read by the engine. */
  datatype Row = Row(f: Frame, h: nat, num: string -> real, root: real -> real, i: nat) {
    function Engine(): Ops { Arithmetic(h, num, root) }

    /** The expression comes to `v` in this row. */
    ghost predicate Yields(e: Expr, v: real) {
      Rectangular(f, h, Cols(e)) && i < h && Reads(Eval(e, f, Engine()), i, v)
    }

    /** The last `n` rows have a price. */
    ghost predicate Priced(n: nat) {
      Rectangular(f, h, {Price()}) && i < h && n > 0 && NoGaps(f[Price()], i + 1 - n, i + 1) && IsRoot(root)
    }
  }

  lemma OneRow(r: Row, op: string, a: Expr, b: Expr, x: real, y: real, v: real)
    requires r.Yields(a, x) && r.Yields(b, y) && Scalar(op, Some(x), Some(y)) == Some(v)
    ensures r.Yields(Bin(op, a, b), v)
  {
    BinRow(op, a, b, r.f, r.h, r.num, r.root, r.i);
    hide Eval, Arithmetic, Scalar;
  }

  lemma Pair(r: Row, a: Expr, b: Expr, x: real, y: real)
    requires r.Yields(a, x) && r.Yields(b, y)
    ensures r.Yields(Bin("+", a, b), x + y) && r.Yields(Bin("-", a, b), x - y)
    ensures r.Yields(Bin("*", a, b), Product(x, y))
    ensures y != 0.0 ==> r.Yields(Bin("/", a, b), Quotient(x, y))
  {
    Calculates(x, y);
    hide *;
    OneRow(r, "+", a, b, x, y, x + y);
    OneRow(r, "-", a, b, x, y, x - y);
    OneRow(r, "*", a, b, x, y, Product(x, y));
    if y != 0.0 { OneRow(r, "/", a, b, x, y, Quotient(x, y)); }
  }

  lemma Literal(r: Row, t: string)
    requires r.i < r.h
    ensures r.Yields(Lit(t), r.num(t))
  {
    LitRow(t, r.f, r.h, r.num, r.root, r.i);
    hide Arithmetic;
  }

  lemma Priced(r: Row, n: nat) returns (price: real)
    requires r.Priced(n)
    ensures r.Yields(Col(Price()), price)
  {
    hide IsRoot, Arithmetic;
    price := r.f[Price()][r.i].value;
  }

  lemma Averaged(r: Row, n: nat) returns (mean: real, dev: real)
    requires r.Priced(n)
    ensures r.Yields(BaseExpr(Shared("sma", n)), mean) && r.Yields(BaseExpr(Shared("std", n)), dev)
    ensures Averages(r.f[Price()], r.i, n, Some(mean), Some(dev))
  {
    SharedMeans(r.f, n, r.h, r.num, r.root, r.i);
    SharedCols(r.f, n, r.h);
    hide Eval, Arithmetic, IsRoot, BaseExpr, Cols;
    mean := Eval(BaseExpr(Shared("sma", n)), r.f, r.Engine())[r.i].value;
    dev := Eval(BaseExpr(Shared("std", n)), r.f, r.Engine())[r.i].value;
  }

  lemma SharedCols(f: Frame, n: nat, h: nat)
    requires Rectangular(f, h, {Price()})
    ensures Rectangular(f, h, Cols(BaseExpr(Shared("sma", n)))) && Rectangular(f, h, Cols(BaseExpr(Shared("std", n))))
  {
  }

  // ---- indicators -----------------------------------------------------

  lemma SmaColumn(f: Frame, n: nat, ops: Ops, s: Series)
    requires Means(f, Sma(n), ops, "sma", s)
    ensures s == Eval(BaseExpr(Shared("sma", n)), f, ops)
  {
    OneDep(Shared("sma", n));
    ReadsAs(Shared("sma", n), DepMap(Sma(n).deps));
    hide Eval, Inline, BaseExpr, DepMap, Key, Read;
  }

  /** The simple average is the mean of the last `n` adjusted closes. */
  lemma SmaMeans(r: Row, n: nat, s: Series) returns (mean: real)
    requires r.Priced(n) && Means(r.f, Sma(n), r.Engine(), "sma", s)
    ensures Reads(s, r.i, mean) && n as real * mean == Sum(r.f[Price()], r.i + 1 - n, r.i + 1)
  {
    hide Means, Sma, IsRoot, Arithmetic, Eval, BaseExpr, Strays;
    var dev;
    mean, dev := Averaged(r, n);
    SmaColumn(r.f, n, r.Engine(), s);
  }

  lemma BandsApart(n: nat, k: Expr, out: string, f: Frame, ops: Ops, s: Series)
    requires Means(f, Bbands(n, k), ops, out, s)
    ensures var mid, sd, deps := Read(Shared("sma", n)), Read(Shared("std", n)), DepMap(BandDeps(n));
            && (out == "bb_mid" ==> s == Eval(Inline(mid, deps), f, ops))
            && (out == "bb_up" ==> s == Eval(Inline(Bin("+", mid, Bin("*", k, sd)), deps), f, ops))
            && (out == "bb_lo" ==> s == Eval(Inline(Bin("-", mid, Bin("*", k, sd)), deps), f, ops))
  {
    hide Eval, Inline, DepMap, Read;
  }

  /** The three bands, with the shared columns written out. */
  lemma BandColumns(f: Frame, n: nat, t: string, ops: Ops, mid: Series, up: Series, lo: Series)
    requires Means(f, Bbands(n, Lit(t)), ops, "bb_mid", mid) && Means(f, Bbands(n, Lit(t)), ops, "bb_up", up)
             && Means(f, Bbands(n, Lit(t)), ops, "bb_lo", lo)
    ensures var m, d := BaseExpr(Shared("sma", n)), BaseExpr(Shared("std", n));
            && mid == Eval(m, f, ops)
            && up == Eval(Bin("+", m, Bin("*", Lit(t), d)), f, ops)
            && lo == Eval(Bin("-", m, Bin("*", Lit(t), d)), f, ops)
  {
    BandsApart(n, Lit(t), "bb_mid", f, ops, mid);
    BandsApart(n, Lit(t), "bb_up", f, ops, up);
    BandsApart(n, Lit(t), "bb_lo", f, ops, lo);
    SharedReads(n);
    hide Means, Eval, BaseExpr, DepMap, Read;
    var m, d, deps := Read(Shared("sma", n)), Read(Shared("std", n)), DepMap(BandDeps(n));
    Inlined("+", m, Lit(t), d, deps);
    Inlined("-", m, Lit(t), d, deps);
  }

  lemma SharedReads(n: nat)
    ensures Inline(Read(Shared("sma", n)), DepMap(BandDeps(n))) == BaseExpr(Shared("sma", n))
    ensures Inline(Read(Shared("std", n)), DepMap(BandDeps(n))) == BaseExpr(Shared("std", n))
  {
    TwoDeps(Shared("sma", n), Shared("std", n));
    var deps := DepMap(BandDeps(n));
    hide Inline, BaseExpr, DepMap, Key;
    ReadsAs(Shared("sma", n), deps);
    ReadsAs(Shared("std", n), deps);
  }

  lemma Inlined(op: string, a: Expr, k: Expr, b: Expr, deps: map<string, Base>)
    requires k.Lit?
    ensures Inline(Bin(op, a, Bin("*", k, b)), deps) == Bin(op, Inline(a, deps), Bin("*", k, Inline(b, deps)))
  {
    assert Inline(k, deps) == k;
  }

  /** The Bollinger bands: the mean of the last `n` prices, and that mean with
      `k` population deviations added above and taken away below. */
  lemma BandsMean(r: Row, n: nat, t: string, mid: Series, up: Series, lo: Series)
    returns (mean: real, dev: real)
    requires r.Priced(n)
    requires Means(r.f, Bbands(n, Lit(t)), r.Engine(), "bb_mid", mid)
    requires Means(r.f, Bbands(n, Lit(t)), r.Engine(), "bb_up", up)
    requires Means(r.f, Bbands(n, Lit(t)), r.Engine(), "bb_lo", lo)
    ensures Averages(r.f[Price()], r.i, n, Some(mean), Some(dev))
    ensures Reads(mid, r.i, mean) && Reads(up, r.i, mean + r.num(t) * dev) && Reads(lo, r.i, mean - r.num(t) * dev)
  {
    hide Means, Averages, Bbands, Rectangular, NoGaps, IsRoot;
    mean, dev := Averaged(r, n);
    BandColumns(r.f, n, t, r.Engine(), mid, up, lo);
    Literal(r, t);
    hide Eval, Arithmetic, BaseExpr, Product, Cols;
    var m, d := BaseExpr(Shared("sma", n)), BaseExpr(Shared("std", n));
    Pair(r, Lit(t), d, r.num(t), dev);
    Pair(r, m, Bin("*", Lit(t), d), mean, Product(r.num(t), dev));
    ProductIs(r.num(t), dev);
  }

  lemma ProductIs(a: real, b: real)
    ensures Product(a, b) == a * b
  {
  }

  function Ratio(m: Expr, d: Expr, t: string): Expr {
    Bin("/", Bin("-", Col(Price()), Bin("-", m, Bin("*", Lit(t), d))), Bin("*", Bin("*", Lit("2"), Lit(t)), d))
  }

  lemma PctColumns(f: Frame, n: nat, t: string, ops: Ops, s: Series)
    requires Means(f, PctB(n, Lit(t)), ops, "pct_b", s)
    ensures s == Eval(Un("fill_nan", Ratio(BaseExpr(Shared("sma", n)), BaseExpr(Shared("std", n)), t)), f, ops)
  {
    SharedReads(n);
    PriceNoKey(n);
    InlinedRatio(Read(Shared("sma", n)), Read(Shared("std", n)), t, DepMap(BandDeps(n)));
    hide Eval, BaseExpr, DepMap, Read, Inline;
  }

  lemma PriceNoKey(n: nat)
    ensures Price() !in DepMap(BandDeps(n))
  {
    KeyNotRaw(Shared("sma", n), {Price()});
    KeyNotRaw(Shared("std", n), {Price()});
    DepKeys(BandDeps(n));
    hide Key, DepMap;
  }

  lemma InlinedRatio(m: Expr, d: Expr, t: string, deps: map<string, Base>)
    requires Price() !in deps
    ensures Inline(Un("fill_nan", Ratio(m, d, t)), deps)
            == Un("fill_nan", Ratio(Inline(m, deps), Inline(d, deps), t))
  {
    Inlined("-", m, Lit(t), d, deps);
    var top, under := Bin("-", m, Bin("*", Lit(t), d)), Bin("*", Bin("*", Lit("2"), Lit(t)), d);
    assert Inline(Bin("*", Lit("2"), Lit(t)), deps) == Bin("*", Lit("2"), Lit(t));
    assert Inline(under, deps) == Bin("*", Bin("*", Lit("2"), Lit(t)), Inline(d, deps));
    assert Inline(Bin("-", Col(Price()), top), deps) == Bin("-", Col(Price()), Inline(top, deps));
    assert Inline(Ratio(m, d, t), deps) == Bin("/", Inline(Bin("-", Col(Price()), top), deps), Inline(under, deps));
  }

  lemma RatioRow(r: Row, m: Expr, d: Expr, k: Expr, two: Expr, cost: Expr, a: real, b: real, x: real, y: real)
    requires r.Yields(m, a) && r.Yields(d, b) && r.Yields(k, x) && r.Yields(two, 2.0) && r.Yields(cost, y)
    requires Product(Product(2.0, x), b) != 0.0
    ensures r.Yields(Un("fill_nan", Bin("/", Bin("-", cost, Bin("-", m, Bin("*", k, d))),
                                        Bin("*", Bin("*", two, k), d))),
                     Quotient(y - (a - Product(x, b)), Product(Product(2.0, x), b)))
  {
    hide *;
    Pair(r, k, d, x, b);
    Pair(r, m, Bin("*", k, d), a, Product(x, b));
    Pair(r, cost, Bin("-", m, Bin("*", k, d)), y, a - Product(x, b));
    Pair(r, two, k, 2.0, x);
    Pair(r, Bin("*", two, k), d, Product(2.0, x), b);
    var top, under := Bin("-", cost, Bin("-", m, Bin("*", k, d))), Bin("*", Bin("*", two, k), d);
    Pair(r, top, under, y - (a - Product(x, b)), Product(Product(2.0, x), b));
    Filled(r, Bin("/", top, under), Quotient(y - (a - Product(x, b)), Product(Product(2.0, x), b)));
  }

  lemma Filled(r: Row, e: Expr, v: real)
    requires r.Yields(e, v)
    ensures r.Yields(Un("fill_nan", e), v)
  {
    UnRow("fill_nan", e, r.f, r.h, r.num, r.root, r.i);
    hide Eval, Arithmetic;
    assert Unary("fill_nan", Eval(e, r.f, r.Engine()), r.i) == Eval(e, r.f, r.Engine())[r.i];
  }

  /** %B: how far the price lies above the lower band, as a share of the bands'
      distance, wherever they are apart. */
  lemma PctMeans(r: Row, n: nat, t: string, s: Series)
    returns (mean: real, dev: real, up: real, lo: real, price: real, v: real)
    requires r.Priced(n) && r.num("2") == 2.0 && Means(r.f, PctB(n, Lit(t)), r.Engine(), "pct_b", s)
    ensures Averages(r.f[Price()], r.i, n, Some(mean), Some(dev))
    ensures up == mean + r.num(t) * dev && lo == mean - r.num(t) * dev && r.Yields(Col(Price()), price)
    ensures up != lo ==> Reads(s, r.i, v) && v * (up - lo) == price - lo
  {
    hide Means, Averages, IsRoot, Product, Quotient, Eval, Arithmetic, Rectangular, Cols, NoGaps;
    mean, dev := Averaged(r, n);
    up, lo := mean + r.num(t) * dev, mean - r.num(t) * dev;
    price := Priced(r, n);
    v := PctRow(r, n, t, s, mean, dev, price);
    Apart(r.num(t), dev, mean, up, lo, price, v);
  }

  lemma PctRow(r: Row, n: nat, t: string, s: Series, mean: real, dev: real, price: real) returns (v: real)
    requires r.num("2") == 2.0 && r.i < r.h && Means(r.f, PctB(n, Lit(t)), r.Engine(), "pct_b", s)
    requires r.Yields(BaseExpr(Shared("sma", n)), mean) && r.Yields(BaseExpr(Shared("std", n)), dev)
             && r.Yields(Col(Price()), price)
    ensures PctShare(r.num(t), dev, mean, price, v)
    ensures Product(Product(2.0, r.num(t)), dev) != 0.0 ==> Reads(s, r.i, v)
  {
    hide Eval, Arithmetic, BaseExpr, Product, Quotient, Cols, Rectangular, Means, PctB, Shared;
    PctColumns(r.f, n, t, r.Engine(), s);
    Literal(r, t);
    Literal(r, "2");
    v := 0.0;
    if Product(Product(2.0, r.num(t)), dev) != 0.0 {
      RatioRow(r, BaseExpr(Shared("sma", n)), BaseExpr(Shared("std", n)), Lit(t), Lit("2"), Col(Price()),
               mean, dev, r.num(t), price);
      v := Quotient(price - (mean - Product(r.num(t), dev)), Product(Product(2.0, r.num(t)), dev));
    }
  }

  ghost predicate PctShare(k: real, dev: real, mean: real, price: real, v: real) {
    Product(Product(2.0, k), dev) != 0.0 ==>
      v == Quotient(price - (mean - Product(k, dev)), Product(Product(2.0, k), dev))
  }

  lemma Apart(k: real, dev: real, mean: real, up: real, lo: real, price: real, v: real)
    requires up == mean + k * dev && lo == mean - k * dev && PctShare(k, dev, mean, price, v)
    ensures Product(Product(2.0, k), dev) == up - lo
    ensures up != lo ==> v * (up - lo) == price - lo
  {
    var d := up - lo;
    if d != 0.0 { assert (price - lo) / d * d == price - lo; }
  }

  // ---- ranges ---------------------------------------------------------

  /** The frame's raw prices are those of `bars`. */
  ghost predicate Quotes(f: Frame, bars: seq<I.Bar>) {
    && Rectangular(f, |bars|, {"high", "low", "close"})
    && forall j :: 0 <= j < |bars| ==>
         f["high"][j] == Some(bars[j].high) && f["low"][j] == Some(bars[j].low) && f["close"][j] == Some(bars[j].close)
  }

  lemma Extremes(a: Option<real>, b: Option<real>)
    ensures Scalar("max_horizontal", a, b)
            == if a.None? then b else if b.None? then a else Some(I.Max(a.value, b.value))
    ensures Scalar("-", a, b) == if a.None? || b.None? then None else Some(a.value - b.value)
  {
    assert "+"[0] == '+' && "-"[0] == '-' && "&"[0] == '&';
  }

  /** Row `r.i` of an expression, gaps and all. */
  ghost predicate Comes(r: Row, e: Expr, v: Option<real>) {
    Rectangular(r.f, r.h, Cols(e)) && r.i < |Eval(e, r.f, r.Engine())| && r.i < r.h
    && Eval(e, r.f, r.Engine())[r.i] == v
  }

  lemma OptRow(r: Row, op: string, a: Expr, b: Expr, x: Option<real>, y: Option<real>)
    requires Comes(r, a, x) && Comes(r, b, y)
    ensures Comes(r, Bin(op, a, b), Scalar(op, x, y))
  {
    BinRow(op, a, b, r.f, r.h, r.num, r.root, r.i);
    hide Eval, Arithmetic, Scalar;
  }

  lemma Widest(r: Row, a: Expr, b: Expr, x: Option<real>, y: Option<real>)
    requires Comes(r, a, x) && Comes(r, b, y)
    ensures Comes(r, Bin("max_horizontal", a, b),
                  if x.None? then y else if y.None? then x else Some(I.Max(x.value, y.value)))
  {
    BinRow("max_horizontal", a, b, r.f, r.h, r.num, r.root, r.i);
    Extremes(x, y);
    hide Eval, Arithmetic, Scalar;
  }

  lemma Between(r: Row, a: Expr, b: Expr, x: real, y: real)
    requires Comes(r, a, Some(x)) && Comes(r, b, Some(y))
    ensures Comes(r, Bin("-", a, b), Some(x - y))
  {
    BinRow("-", a, b, r.f, r.h, r.num, r.root, r.i);
    Extremes(Some(x), Some(y));
    hide Eval, Arithmetic, Scalar;
  }

  lemma Before(r: Row)
    requires Rectangular(r.f, r.h, {"close"}) && r.i < r.h
    ensures Comes(r, Win("shift", 1, Col("close")), if r.i == 0 then None else r.f["close"][r.i - 1])
  {
    WinRow("shift", 1, Col("close"), r.f, r.h, r.num, r.root, r.i);
    assert Cols(Win("shift", 1, Col("close"))) == {"close"};
    hide Arithmetic;
  }

  lemma Absolute(r: Row, e: Expr, v: Option<real>)
    requires Comes(r, e, v)
    ensures Comes(r, Un("abs", e), if v.None? then None else Some(I.Abs(v.value)))
  {
    UnRow("abs", e, r.f, r.h, r.num, r.root, r.i);
    hide Eval, Arithmetic;
  }

  lemma Gap(side: string, r: Row, bars: seq<I.Bar>)
    requires Quotes(r.f, bars) && r.h == |bars| && r.i < r.h && side in ["high", "low"]
    ensures Comes(r, Un("abs", Bin("-", Col(side), Win("shift", 1, Col("close")))),
                  if r.i == 0 then None
                  else Some(I.Abs((if side == "high" then bars[r.i].high else bars[r.i].low) - bars[r.i - 1].close)))
  {
    var prev := Win("shift", 1, Col("close"));
    Before(r);
    Sides(r, bars);
    var here := if side == "high" then bars[r.i].high else bars[r.i].low;
    var closed := if r.i == 0 then None else Some(bars[r.i - 1].close);
    Extremes(Some(here), closed);
    hide *;
    OptRow(r, "-", Col(side), prev, Some(here), closed);
    Absolute(r, Bin("-", Col(side), prev), if r.i == 0 then None else Some(here - closed.value));
  }

  lemma Sides(r: Row, bars: seq<I.Bar>)
    requires Quotes(r.f, bars) && r.h == |bars| && r.i < r.h
    ensures Comes(r, Col("high"), Some(bars[r.i].high)) && Comes(r, Col("low"), Some(bars[r.i].low))
  {
    hide Arithmetic;
  }

  lemma RangeRow(r: Row, bars: seq<I.Bar>)
    requires Quotes(r.f, bars) && r.h == |bars| && r.i < r.h
    ensures Comes(r, TrueRange(), I.TrueRange(bars)[r.i])
  {
    hide Eval, Arithmetic, Cols, Rectangular, Scalar, Quotes, Comes;
    var prev := Win("shift", 1, Col("close"));
    var bar, closed := bars[r.i], if r.i == 0 then 0.0 else bars[r.i - 1].close;
    var up := if r.i == 0 then None else Some(I.Abs(bar.high - closed));
    var down := if r.i == 0 then None else Some(I.Abs(bar.low - closed));
    Sides(r, bars);
    Gap("high", r, bars);
    Gap("low", r, bars);
    Between(r, Col("high"), Col("low"), bar.high, bar.low);
    var gaps := Bin("max_horizontal", Un("abs", Bin("-", Col("high"), prev)), Un("abs", Bin("-", Col("low"), prev)));
    Widest(r, Un("abs", Bin("-", Col("high"), prev)), Un("abs", Bin("-", Col("low"), prev)), up, down);
    Widest(r, Bin("-", Col("high"), Col("low")), gaps, Some(bar.high - bar.low),
           if r.i == 0 then None else Some(I.Max(up.value, down.value)));
  }

  lemma AtrColumn(f: Frame, n: nat, ops: Ops, s: Series)
    requires Means(f, Atr(n), ops, "atr", s)
    ensures s == Eval(Win("ewm_wilder", n, TrueRange()), f, ops)
  {
    OneDep(Range());
    ReadsAs(Range(), DepMap(Atr(n).deps));
    assert BaseExpr(Range()) == TrueRange();
    hide Eval, BaseExpr, DepMap, Key, Read, TrueRange;
  }

  /** The registry's average true range is Wilder's average of the bars' ranges. */
  lemma AtrIs(r: Row, bars: seq<I.Bar>, n: nat, s: Series)
    requires Quotes(r.f, bars) && r.h == |bars| && r.i < r.h && n > 0 && Means(r.f, Atr(n), r.Engine(), "atr", s)
    ensures |s| == r.h && s[r.i] == I.Atr(I.TrueRange(bars), r.i, n)
  {
    hide Means;
    AtrColumn(r.f, n, r.Engine(), s);
    RangeSeries(r, bars);
    WilderRow(n, r, bars);
  }

  lemma RangeSeries(r: Row, bars: seq<I.Bar>)
    requires Quotes(r.f, bars) && r.h == |bars|
    ensures Eval(TrueRange(), r.f, r.Engine()) == I.TrueRange(bars) && Rectangular(r.f, r.h, Cols(TrueRange()))
  {
    RangeCols();
    Height(TrueRange(), r.f, r.h, r.num, r.root);
    forall j | 0 <= j < r.h
      ensures Eval(TrueRange(), r.f, r.Engine())[j] == I.TrueRange(bars)[j]
    {
      hide Quotes, Eval, Arithmetic, TrueRange, Cols;
      RangeRow(r.(i := j), bars);
    }
  }

  lemma RangeCols()
    ensures Cols(TrueRange()) == {"high", "low", "close"}
  {
    RangeIsGood(RAW);
    var prev := Win("shift", 1, Col("close"));
    assert Cols(prev) == {"close"};
    assert Cols(Bin("-", Col("high"), prev)) == {"high", "close"}
           && Cols(Bin("-", Col("low"), prev)) == {"low", "close"};
  }

  lemma WilderRow(n: nat, r: Row, bars: seq<I.Bar>)
    requires Rectangular(r.f, r.h, Cols(TrueRange())) && r.i < r.h && n > 0
    ensures |Eval(Win("ewm_wilder", n, TrueRange()), r.f, r.Engine())| == r.h
    ensures Eval(Win("ewm_wilder", n, TrueRange()), r.f, r.Engine())[r.i]
            == I.Atr(Eval(TrueRange(), r.f, r.Engine()), r.i, n)
  {
    WinRow("ewm_wilder", n, TrueRange(), r.f, r.h, r.num, r.root, r.i);
    hide Arithmetic, Eval, TrueRange;
  }

  // ---- volume-weighted prices -----------------------------------------

  /** A cell, 0 where there is none. */
  function Cell(f: Frame, c: string, j: nat): real {
    if c in f && j < |f[c]| && f[c][j].Some? then f[c][j].value else 0.0
  }

  predicate Held(f: Frame, c: string, j: nat) { c in f && j < |f[c]| && f[c][j].Some? }

  /** A bar that carries trades, and is not before the anchor if there is one. */
  predicate Counts(f: Frame, from: Option<real>, j: nat) {
    && Held(f, "vwap", j) && Held(f, "volume", j) && Cell(f, "volume", j) > 0.0
    && (from.Some? ==> Held(f, "date", j) && Cell(f, "date", j) >= from.value)
  }

  /** What the first `j` bars that count traded for, price times shares. */
  ghost function Paid(f: Frame, from: Option<real>, j: nat): real {
    if j == 0 then 0.0
    else
      Paid(f, from, j - 1)
      + if Counts(f, from, j - 1) then Cell(f, "vwap", j - 1) * Cell(f, "volume", j - 1) else 0.0
  }

  /** The shares those bars traded. */
  ghost function Shares(f: Frame, from: Option<real>, j: nat): real {
    if j == 0 then 0.0
    else Shares(f, from, j - 1) + if Counts(f, from, j - 1) then Cell(f, "volume", j - 1) else 0.0
  }

  /** What the first `j` bars traded for at their typical price. */
  ghost function Spent(f: Frame, j: nat): real {
    if j == 0 then 0.0
    else
      Spent(f, j - 1)
      + (Cell(f, "high", j - 1) + Cell(f, "low", j - 1) + Cell(f, "close", j - 1)) / 3.0 * Cell(f, "volume", j - 1)
  }

  ghost function Volume(f: Frame, j: nat): real {
    if j == 0 then 0.0 else Volume(f, j - 1) + Cell(f, "volume", j - 1)
  }

  /** Every bar up to the row is whole. */
  ghost predicate Unbroken(r: Row) {
    && Rectangular(r.f, r.h, {"high", "low", "close", "volume"}) && r.i < r.h
    && forall j :: 0 <= j <= r.i ==> Held(r.f, "high", j) && Held(r.f, "low", j) && Held(r.f, "close", j)
                                     && Held(r.f, "volume", j)
  }

  function Typical(): Expr { Bin("/", Bin("+", Bin("+", Col("high"), Col("low")), Col("close")), Lit("3")) }

  function Turnover(): Expr { Bin("*", Typical(), Col("volume")) }

  lemma Raw(r: Row, c: string)
    requires Held(r.f, c, r.i) && r.i < r.h && |r.f[c]| == r.h
    ensures r.Yields(Col(c), Cell(r.f, c, r.i))
  {
    hide Arithmetic;
  }

  lemma RawRow(r: Row)
    requires Unbroken(r)
    ensures r.Yields(Col("high"), Cell(r.f, "high", r.i)) && r.Yields(Col("low"), Cell(r.f, "low", r.i))
    ensures r.Yields(Col("close"), Cell(r.f, "close", r.i)) && r.Yields(Col("volume"), Cell(r.f, "volume", r.i))
  {
    hide Eval, Arithmetic, Cell, Cols;
    Raw(r, "high");
    Raw(r, "low");
    Raw(r, "close");
    Raw(r, "volume");
  }

  lemma TurnoverRow(r: Row)
    requires Unbroken(r) && r.num("3") == 3.0
    ensures r.Yields(Turnover(),
                     Product(Quotient(Cell(r.f, "high", r.i) + Cell(r.f, "low", r.i) + Cell(r.f, "close", r.i), 3.0),
                             Cell(r.f, "volume", r.i)))
  {
    RawRow(r);
    Literal(r, "3");
    hide *;
    var h, l, c := Cell(r.f, "high", r.i), Cell(r.f, "low", r.i), Cell(r.f, "close", r.i);
    TypicalRow(r, h, l, c);
    Pair(r, Typical(), Col("volume"), Quotient(h + l + c, 3.0), Cell(r.f, "volume", r.i));
  }

  lemma TypicalRow(r: Row, h: real, l: real, c: real)
    requires r.Yields(Col("high"), h) && r.Yields(Col("low"), l) && r.Yields(Col("close"), c)
             && r.Yields(Lit("3"), 3.0)
    ensures r.Yields(Typical(), Quotient(h + l + c, 3.0))
  {
    hide Eval, Arithmetic, Cols, Rectangular, Reads, Quotient, Product;
    Pair(r, Col("high"), Col("low"), h, l);
    Pair(r, Bin("+", Col("high"), Col("low")), Col("close"), h + l, c);
    Pair(r, Bin("+", Bin("+", Col("high"), Col("low")), Col("close")), Lit("3"), h + l + c, 3.0);
  }

  lemma SpentStep(r: Row) returns (v: real)
    requires Unbroken(r) && r.num("3") == 3.0
    ensures r.Yields(Turnover(), v) && Spent(r.f, r.i + 1) == Spent(r.f, r.i) + v
  {
    TurnoverRow(r);
    hide Eval, Arithmetic, Turnover, Cell, Cols, Rectangular, Held, Product, Quotient, Unbroken, Reads;
    var p := Cell(r.f, "high", r.i) + Cell(r.f, "low", r.i) + Cell(r.f, "close", r.i);
    v := Product(Quotient(p, 3.0), Cell(r.f, "volume", r.i));
    TypicalValue(p, Cell(r.f, "volume", r.i));
  }

  lemma SumStep(x: Series, j: nat, v: real)
    requires Reads(x, j, v)
    ensures Sum(x, 0, j + 1) == Sum(x, 0, j) + v
  {
  }

  lemma {:induction false} SpentSum(r: Row, j: nat)
    requires Unbroken(r) && r.num("3") == 3.0 && j <= r.i + 1
    ensures |Eval(Turnover(), r.f, r.Engine())| == r.h && Sum(Eval(Turnover(), r.f, r.Engine()), 0, j) == Spent(r.f, j)
  {
    TurnoverHeight(r);
    if j > 0 {
      SpentSum(r, j - 1);
      assert Unbroken(r.(i := j - 1));
      hide *;
      var v := SpentStep(r.(i := j - 1));
      SumStep(Eval(Turnover(), r.f, r.Engine()), j - 1, v);
    }
  }

  lemma TurnoverHeight(r: Row)
    requires Unbroken(r)
    ensures |Eval(Turnover(), r.f, r.Engine())| == r.h
  {
    TurnoverCols();
    Height(Turnover(), r.f, r.h, r.num, r.root);
  }

  lemma TypicalValue(p: real, v: real)
    ensures Product(Quotient(p, 3.0), v) == p / 3.0 * v
  {
  }

  lemma TurnoverCols()
    ensures Cols(Turnover()) == {"high", "low", "close", "volume"}
  {
    assert Cols(Bin("+", Bin("+", Col("high"), Col("low")), Col("close"))) == {"high", "low", "close"};
    assert Cols(Typical()) == {"high", "low", "close"};
  }

  lemma {:induction false} VolumeSum(r: Row, j: nat)
    requires Unbroken(r) && j <= r.i + 1
    ensures Sum(r.f["volume"], 0, j) == Volume(r.f, j)
  {
    if j > 0 { VolumeSum(r, j - 1); }
  }

  lemma Running(r: Row, e: Expr, v: real)
    requires r.Yields(e, v)
    ensures r.Yields(Un("cum_sum", e), Sum(Eval(e, r.f, r.Engine()), 0, r.i + 1))
  {
    UnRow("cum_sum", e, r.f, r.h, r.num, r.root, r.i);
    hide Eval, Arithmetic;
    assert Unary("cum_sum", Eval(e, r.f, r.Engine()), r.i) == Some(Sum(Eval(e, r.f, r.Engine()), 0, r.i + 1));
  }

  lemma VwapColumn(f: Frame, ops: Ops, s: Series)
    requires Means(f, Vwap(), ops, "vwap", s)
    ensures s == Eval(Bin("/", Un("cum_sum", Turnover()), Un("cum_sum", Col("volume"))), f, ops)
  {
    Unshared(Vwap().build[0].expr);
    hide Eval, Inline;
  }

  lemma {:induction false} Unshared(e: Expr)
    ensures Inline(e, DepMap([])) == e
  {
    match e
    case Col(_) =>
    case Lit(_) =>
    case Un(_, a) => Unshared(a);
    case Bin(_, a, b) => Unshared(a); Unshared(b);
    case Win(_, _, a) => Unshared(a);
  }

  lemma PaidRow(r: Row)
    requires Unbroken(r) && r.num("3") == 3.0
    ensures r.Yields(Un("cum_sum", Turnover()), Spent(r.f, r.i + 1))
  {
    SpentSum(r, r.i + 1);
    TurnoverRow(r);
    hide *;
    Running(r, Turnover(), Product(Quotient(Cell(r.f, "high", r.i) + Cell(r.f, "low", r.i) + Cell(r.f, "close", r.i),
                                            3.0), Cell(r.f, "volume", r.i)));
  }

  lemma SharesRow(r: Row)
    requires Unbroken(r)
    ensures r.Yields(Un("cum_sum", Col("volume")), Volume(r.f, r.i + 1))
  {
    VolumeSum(r, r.i + 1);
    VolumeColumn(r);
    Raw(r, "volume");
    hide Unbroken, Cell, Arithmetic, Sum, Volume, Cols, Rectangular, Eval;
    Running(r, Col("volume"), Cell(r.f, "volume", r.i));
  }

  /** The volume-weighted price: what the bars so far traded for at their typical
      price, by the shares they traded. */
  lemma VwapMeans(r: Row, s: Series) returns (v: real)
    requires Unbroken(r) && r.num("3") == 3.0 && Means(r.f, Vwap(), r.Engine(), "vwap", s)
    ensures Volume(r.f, r.i + 1) != 0.0 ==> Reads(s, r.i, v) && v * Volume(r.f, r.i + 1) == Spent(r.f, r.i + 1)
  {
    hide Unbroken, Arithmetic, Turnover, Product, Quotient, Means, Spent, Volume, Cols, Rectangular, Eval;
    PaidRow(r);
    SharesRow(r);
    VwapColumn(r.f, r.Engine(), s);
    Pair(r, Un("cum_sum", Turnover()), Un("cum_sum", Col("volume")), Spent(r.f, r.i + 1), Volume(r.f, r.i + 1));
    v := 0.0;
    if Volume(r.f, r.i + 1) != 0.0 {
      v := Quotient(Spent(r.f, r.i + 1), Volume(r.f, r.i + 1));
      QuotientIs(Spent(r.f, r.i + 1), Volume(r.f, r.i + 1));
    }
  }

  lemma VolumeColumn(r: Row)
    requires "volume" in r.f
    ensures Eval(Col("volume"), r.f, r.Engine()) == r.f["volume"]
  {
  }

  lemma QuotientIs(a: real, b: real)
    requires b != 0.0
    ensures Quotient(a, b) * b == a
  {
  }

  // ---- the anchored price ---------------------------------------------

  predicate IsTruth(v: Option<real>) { v.None? || v == Truth(true) || v == Truth(false) }

  ghost predicate Frames(r: Row) {
    Rectangular(r.f, r.h, {"vwap", "volume", "date"}) && r.i < r.h && r.num("0") == 0.0
  }

  function Anchor(anchor: Option<Val>, num: string -> real): Option<real> {
    if anchor.None? || Shown(anchor.value) == "" then None else Some(num(Shown(anchor.value)))
  }

  lemma Compares(a: Option<real>, b: real)
    ensures IsTruth(Scalar(">", a, Some(b))) && (Scalar(">", a, Some(b)) == Truth(true) <==> a.Some? && a.value > b)
    ensures IsTruth(Scalar(">=", a, Some(b))) && (Scalar(">=", a, Some(b)) == Truth(true) <==> a.Some? && a.value >= b)
  {
    assert ">"[0] == '>' && "+"[0] == '+' && "-"[0] == '-' && "*"[0] == '*' && "/"[0] == '/' && "&"[0] == '&';
    hide Product, Quotient;
  }

  lemma Whens(a: Option<real>, b: Option<real>)
    ensures Scalar("when", a, b) == if a == Truth(true) then b else Some(0.0)
    ensures Scalar("when_or_null", a, b) == if a == Truth(true) then b else None
  {
  }

  lemma Both(r: Row, a: Expr, b: Expr, x: Option<real>, y: Option<real>) returns (z: Option<real>)
    requires Comes(r, a, x) && Comes(r, b, y) && IsTruth(x) && IsTruth(y)
    ensures Comes(r, Bin("&", a, b), z) && IsTruth(z) && (z == Truth(true) <==> x == Truth(true) && y == Truth(true))
  {
    BinRow("&", a, b, r.f, r.h, r.num, r.root, r.i);
    z := Scalar("&", x, y);
    hide Eval, Arithmetic;
  }

  lemma HeldRow(r: Row) returns (z: Option<real>)
    requires Frames(r)
    ensures Comes(r, Bin("&", Un("is_not_null", Col("vwap")), Un("is_not_nan", Col("vwap"))), z) && IsTruth(z)
    ensures z == Truth(true) <==> Held(r.f, "vwap", r.i)
  {
    UnRow("is_not_null", Col("vwap"), r.f, r.h, r.num, r.root, r.i);
    UnRow("is_not_nan", Col("vwap"), r.f, r.h, r.num, r.root, r.i);
    hide Arithmetic, Scalar;
    var x := Unary("is_not_null", r.f["vwap"], r.i);
    var y := Unary("is_not_nan", r.f["vwap"], r.i);
    assert x == Truth(r.f["vwap"][r.i].Some?) && y == if r.f["vwap"][r.i].None? then None else Truth(true);
    z := Both(r, Un("is_not_null", Col("vwap")), Un("is_not_nan", Col("vwap")), x, y);
  }

  lemma TradedRow(r: Row) returns (z: Option<real>)
    requires Frames(r)
    ensures Comes(r, Catalogue.Traded(), z) && IsTruth(z)
    ensures z == Truth(true) <==> Counts(r.f, None, r.i)
  {
    var x := HeldRow(r);
    BinRow(">", Col("volume"), Lit("0"), r.f, r.h, r.num, r.root, r.i);
    LitRow("0", r.f, r.h, r.num, r.root, r.i);
    hide Arithmetic, Scalar;
    var y := Scalar(">", r.f["volume"][r.i], Some(0.0));
    Compares(r.f["volume"][r.i], 0.0);
    z := Both(r, Bin("&", Un("is_not_null", Col("vwap")), Un("is_not_nan", Col("vwap"))),
              Bin(">", Col("volume"), Lit("0")), x, y);
  }

  lemma ValidRow(r: Row, anchor: Option<Val>) returns (z: Option<real>)
    requires Frames(r)
    ensures Comes(r, Valid(anchor), z) && IsTruth(z)
    ensures z == Truth(true) <==> Counts(r.f, Anchor(anchor, r.num), r.i)
  {
    z := TradedRow(r);
    if Anchor(anchor, r.num).Some? {
      var t := Shown(anchor.value);
      var y := DateRow(r, t);
      hide Comes, Catalogue.Traded;
      z := Both(r, Catalogue.Traded(), Bin(">=", Un("cast_datetime", Col("date")), Lit(t)), z, y);
    }
  }

  lemma DateRow(r: Row, t: string) returns (z: Option<real>)
    requires Frames(r)
    ensures Comes(r, Bin(">=", Un("cast_datetime", Col("date")), Lit(t)), z) && IsTruth(z)
    ensures z == Truth(true) <==> Held(r.f, "date", r.i) && Cell(r.f, "date", r.i) >= r.num(t)
  {
    var date := Un("cast_datetime", Col("date"));
    UnRow("cast_datetime", Col("date"), r.f, r.h, r.num, r.root, r.i);
    LitRow(t, r.f, r.h, r.num, r.root, r.i);
    BinRow(">=", date, Lit(t), r.f, r.h, r.num, r.root, r.i);
    assert Unary("cast_datetime", r.f["date"], r.i) == r.f["date"][r.i];
    hide Arithmetic, Scalar, Unary;
    Compares(r.f["date"][r.i], r.num(t));
    z := Scalar(">=", r.f["date"][r.i], Some(r.num(t)));
  }

  lemma WhenRow(r: Row, anchor: Option<Val>, e: Expr, v: Option<real>)
    requires Frames(r) && Comes(r, e, v)
    ensures Comes(r, Bin("when", Valid(anchor), e), if Counts(r.f, Anchor(anchor, r.num), r.i) then v else Some(0.0))
    ensures Comes(r, Bin("when_or_null", Valid(anchor), e), if Counts(r.f, Anchor(anchor, r.num), r.i) then v else None)
  {
    var z := ValidRow(r, anchor);
    BinRow("when", Valid(anchor), e, r.f, r.h, r.num, r.root, r.i);
    BinRow("when_or_null", Valid(anchor), e, r.f, r.h, r.num, r.root, r.i);
    hide Eval, Arithmetic, Scalar, Valid, Counts, Frames, Anchor;
    Whens(z, v);
  }

  /** What a bar adds when it counts: its shares, or what they were paid. */
  function Share(f: Frame, paid: bool, j: nat): real {
    if paid then Product(Cell(f, "vwap", j), Cell(f, "volume", j)) else Cell(f, "volume", j)
  }

  function Weighed(paid: bool): Expr { if paid then Bin("*", Col("vwap"), Col("volume")) else Col("volume") }

  lemma WeighedRow(r: Row, paid: bool)
    requires Frames(r) && Counts(r.f, None, r.i)
    ensures Comes(r, Weighed(paid), Some(Share(r.f, paid, r.i)))
  {
    BinRow("*", Col("vwap"), Col("volume"), r.f, r.h, r.num, r.root, r.i);
    hide Arithmetic, Scalar, Product;
    Calculates(Cell(r.f, "vwap", r.i), Cell(r.f, "volume", r.i));
  }

  lemma CountedRow(r: Row, anchor: Option<Val>, paid: bool)
    requires Frames(r)
    ensures r.Yields(Bin("when", Valid(anchor), Weighed(paid)),
                     if Counts(r.f, Anchor(anchor, r.num), r.i) then Share(r.f, paid, r.i) else 0.0)
  {
    var from := Anchor(anchor, r.num);
    var v := WeighedValue(r, paid);
    if Counts(r.f, from, r.i) {
      assert Counts(r.f, None, r.i);
      WeighedRow(r, paid);
    }
    hide Eval, Arithmetic, Valid, Counts, Anchor, Weighed, Share;
    WhenRow(r, anchor, Weighed(paid), v);
  }

  lemma WeighedValue(r: Row, paid: bool) returns (v: Option<real>)
    requires Frames(r)
    ensures Comes(r, Weighed(paid), v)
  {
    Height(Weighed(paid), r.f, r.h, r.num, r.root);
    hide Arithmetic;
    v := Eval(Weighed(paid), r.f, r.Engine())[r.i];
  }

  ghost function Counted(f: Frame, from: Option<real>, paid: bool, j: nat): real {
    if paid then Paid(f, from, j) else Shares(f, from, j)
  }

  lemma CountedStep(f: Frame, from: Option<real>, paid: bool, j: nat)
    requires j > 0
    ensures Counted(f, from, paid, j)
            == Counted(f, from, paid, j - 1) + if Counts(f, from, j - 1) then Share(f, paid, j - 1) else 0.0
  {
    hide Counts, Cell;
  }

  lemma {:induction false} CountedSum(r: Row, anchor: Option<Val>, paid: bool, j: nat)
    requires Frames(r) && j <= r.i + 1
    ensures var e := Bin("when", Valid(anchor), Weighed(paid));
            |Eval(e, r.f, r.Engine())| == r.h
            && Sum(Eval(e, r.f, r.Engine()), 0, j) == Counted(r.f, Anchor(anchor, r.num), paid, j)
  {
    CountedHeight(r, anchor, paid);
    if j > 0 {
      CountedSum(r, anchor, paid, j - 1);
      CountedRow(r.(i := j - 1), anchor, paid);
      CountedStep(r.f, Anchor(anchor, r.num), paid, j);
      hide Eval, Arithmetic, Valid, Weighed, Counted, Counts, Share, Anchor, Rectangular, Cols;
    }
  }

  lemma CountedHeight(r: Row, anchor: Option<Val>, paid: bool)
    requires Frames(r)
    ensures |Eval(Bin("when", Valid(anchor), Weighed(paid)), r.f, r.Engine())| == r.h
  {
    CountedRow(r, anchor, paid);
    hide Arithmetic, Valid, Weighed;
    Height(Bin("when", Valid(anchor), Weighed(paid)), r.f, r.h, r.num, r.root);
  }

  lemma {:induction false} SharesGrow(f: Frame, from: Option<real>, j: nat)
    ensures Shares(f, from, j) >= 0.0 && (j > 0 && Counts(f, from, j - 1) ==> Shares(f, from, j) > 0.0)
  {
    if j > 0 { SharesGrow(f, from, j - 1); }
  }

  lemma RunningRow(r: Row, anchor: Option<Val>, paid: bool)
    requires Frames(r)
    ensures r.Yields(Un("cum_sum", Bin("when", Valid(anchor), Weighed(paid))),
                     Counted(r.f, Anchor(anchor, r.num), paid, r.i + 1))
  {
    CountedRow(r, anchor, paid);
    CountedSum(r, anchor, paid, r.i + 1);
    hide *;
    Running(r, Bin("when", Valid(anchor), Weighed(paid)),
            if Counts(r.f, Anchor(anchor, r.num), r.i) then Share(r.f, paid, r.i) else 0.0);
  }

  lemma AvwapColumn(f: Frame, anchor: Option<Val>, ops: Ops, s: Series)
    requires Means(f, Avwap(anchor), ops, "avwap", s)
    ensures var num := Un("cum_sum", Bin("when", Valid(anchor), Weighed(true)));
            var den := Un("cum_sum", Bin("when", Valid(anchor), Weighed(false)));
            s == Eval(Bin("when_or_null", Bin("&", Valid(anchor), Bin(">", den, Lit("0"))), Bin("/", num, den)), f, ops)
  {
    Unshared(Avwap(anchor).build[0].expr);
    hide Eval, Inline, Valid;
  }

  lemma YieldsComes(r: Row, e: Expr, v: real)
    requires r.Yields(e, v)
    ensures Comes(r, e, Some(v))
  {
    hide Eval, Arithmetic;
  }

  /** The division, and whether it is shown. */
  lemma AvwapRow(r: Row, valid: Expr, num: Expr, den: Expr, z: Option<real>, paid: real, shares: real)
    returns (w: Option<real>)
    requires r.num("0") == 0.0 && Comes(r, valid, z) && IsTruth(z)
             && Comes(r, num, Some(paid)) && Comes(r, den, Some(shares)) && Comes(r, Lit("0"), Some(0.0))
    requires z == Truth(true) ==> shares > 0.0
    ensures Comes(r, Bin("when_or_null", Bin("&", valid, Bin(">", den, Lit("0"))), Bin("/", num, den)), w)
    ensures if z == Truth(true) then shares != 0.0 && w == Some(Quotient(paid, shares)) else w == None
  {
    var q := Scalar("/", Some(paid), Some(shares));
    Calculates(paid, shares);
    Compares(Some(shares), 0.0);
    hide Comes, Scalar, Quotient, Eval;
    OptRow(r, ">", den, Lit("0"), Some(shares), Some(0.0));
    OptRow(r, "/", num, den, Some(paid), Some(shares));
    var some := Both(r, valid, Bin(">", den, Lit("0")), z, Scalar(">", Some(shares), Some(0.0)));
    OptRow(r, "when_or_null", Bin("&", valid, Bin(">", den, Lit("0"))), Bin("/", num, den), some, q);
    Whens(some, q);
    w := Scalar("when_or_null", some, q);
  }

  lemma Zero(r: Row)
    requires Frames(r)
    ensures Comes(r, Lit("0"), Some(0.0)) && r.num("0") == 0.0
  {
    LitRow("0", r.f, r.h, r.num, r.root, r.i);
    hide Arithmetic;
  }

  /** The anchored price: shown exactly on the bars that carry trades from the
      anchor on, and there what the trades so far were paid, by the shares traded. */
  lemma AvwapMeans(r: Row, anchor: Option<Val>, s: Series) returns (v: real)
    requires Frames(r) && Means(r.f, Avwap(anchor), r.Engine(), "avwap", s)
    ensures r.i < |s|
    ensures var from := Anchor(anchor, r.num);
            if Counts(r.f, from, r.i) then
              Reads(s, r.i, v) && Shares(r.f, from, r.i + 1) > 0.0
              && v * Shares(r.f, from, r.i + 1) == Paid(r.f, from, r.i + 1)
            else s[r.i].None?
  {
    var from := Anchor(anchor, r.num);
    hide Means, Arithmetic, Valid, Weighed, Counts, Anchor, Frames, Eval, Product, Quotient, Cols, Rectangular;
    hide Paid, Shares;
    AvwapColumn(r.f, anchor, r.Engine(), s);
    RunningRow(r, anchor, true);
    RunningRow(r, anchor, false);
    SharesGrow(r.f, from, r.i + 1);
    var z := ValidRow(r, anchor);
    var num := Un("cum_sum", Bin("when", Valid(anchor), Weighed(true)));
    var den := Un("cum_sum", Bin("when", Valid(anchor), Weighed(false)));
    YieldsComes(r, num, Paid(r.f, from, r.i + 1));
    YieldsComes(r, den, Shares(r.f, from, r.i + 1));
    Zero(r);
    var w := AvwapRow(r, Valid(anchor), num, den, z, Paid(r.f, from, r.i + 1), Shares(r.f, from, r.i + 1));
    v := 0.0;
    if w.Some? {
      v := w.value;
      QuotientIs(Paid(r.f, from, r.i + 1), Shares(r.f, from, r.i + 1));
    }
  }

  // ---- the other shared sub-series ------------------------------------

  lemma {:induction false} ExtremeMeans(x: Series, lo: nat, hi: nat, most: bool)
    requires lo < hi <= |x| && NoGaps(x, lo, hi)
    ensures exists j :: lo <= j < hi && x[j].value == Extreme(x, lo, hi, most)
    ensures forall j :: lo <= j < hi ==>
              if most then x[j].value <= Extreme(x, lo, hi, most) else x[j].value >= Extreme(x, lo, hi, most)
  {
    if hi > lo + 1 {
      ExtremeMeans(x, lo, hi - 1, most);
      var j :| lo <= j < hi - 1 && x[j].value == Extreme(x, lo, hi - 1, most);
      assert x[j].value == Extreme(x, lo, hi, most) || x[hi - 1].value == Extreme(x, lo, hi, most);
    } else {
      assert x[lo].value == Extreme(x, lo, hi, most);
    }
  }

  lemma ExtremeRow(r: Row, c: string, n: nat, most: bool)
    requires Rectangular(r.f, r.h, {c}) && r.i < r.h && n > 0 && NoGaps(r.f[c], r.i + 1 - n, r.i + 1)
    ensures var s := Eval(BaseExpr(Base(if most then "max" else "min", c, n)), r.f, r.Engine());
            |s| == r.h && s[r.i] == Some(Extreme(r.f[c], r.i + 1 - n, r.i + 1, most))
  {
    WinRow(if most then "rolling_max" else "rolling_min", n, Col(c), r.f, r.h, r.num, r.root, r.i);
    hide Arithmetic, Extreme;
  }

  /** The rolling highest and lowest: the greatest and the least of the last `n`. */
  lemma HighestMeans(r: Row, c: string, n: nat, most: bool)
    requires Rectangular(r.f, r.h, {c}) && r.i < r.h && n > 0 && NoGaps(r.f[c], r.i + 1 - n, r.i + 1)
    ensures var s := Eval(BaseExpr(Base(if most then "max" else "min", c, n)), r.f, r.Engine());
            && r.i < |s| && s[r.i].Some?
            && (exists j :: r.i + 1 - n <= j <= r.i && r.f[c][j] == s[r.i])
            && forall j :: r.i + 1 - n <= j <= r.i ==>
                 if most then r.f[c][j].value <= s[r.i].value else r.f[c][j].value >= s[r.i].value
  {
    ExtremeRow(r, c, n, most);
    hide Arithmetic, Eval, BaseExpr, Extreme;
    ExtremeMeans(r.f[c], r.i + 1 - n, r.i + 1, most);
  }

  /** The kinds there are, and Wilder's average of a column. */
  lemma KindsMean(r: Row, c: string, n: nat)
    requires Rectangular(r.f, r.h, {c}) && r.i < r.h && n > 0
    ensures forall b: Base :: KnownKind(b) <==> b.kind in {"tr", "sma", "ewm", "wilder", "std", "max", "min"}
    ensures var s := Eval(BaseExpr(Base("wilder", c, n)), r.f, r.Engine());
            |s| == r.h && s[r.i] == I.Atr(r.f[c], r.i, n)
  {
    WinRow("ewm_wilder", n, Col(c), r.f, r.h, r.num, r.root, r.i);
    hide Arithmetic;
  }

  /** The exponential average: the first value, then moved by `2 / (n + 1)` of the
      way to each new one. */
  lemma EwmMeans(r: Row, c: string, n: nat)
    requires Rectangular(r.f, r.h, {c}) && r.i < r.h && NoGaps(r.f[c], 0, r.i + 1)
    ensures var s := Eval(BaseExpr(Base("ewm", c, n)), r.f, r.Engine());
            && r.i < |s| && s[r.i].Some?
            && (r.i == 0 ==> s[0] == r.f[c][0])
            && (r.i > 0 ==> s[r.i - 1].Some? && Draws(n, s[r.i - 1].value, s[r.i].value, r.f[c][r.i].value))
  {
    EmaRow(r, c, n);
    EmaMoves(r.f[c], r.i, n);
    if r.i > 0 {
      EmaRow(r.(i := r.i - 1), c, n);
      EmaMoves(r.f[c], r.i - 1, n);
    }
    hide Arithmetic, Ema, Draws, Eval, BaseExpr;
  }

  ghost predicate Draws(n: nat, was: real, now: real, to: real) {
    (n + 1) as real * (now - was) == 2.0 * (to - was)
  }

  lemma EmaRow(r: Row, c: string, n: nat)
    requires Rectangular(r.f, r.h, {c}) && r.i < r.h && r.f[c][r.i].Some?
    ensures var s := Eval(BaseExpr(Base("ewm", c, n)), r.f, r.Engine());
            |s| == r.h && s[r.i] == Ema(r.f[c], r.i, n)
  {
    WinRow("ewm_span", n, Col(c), r.f, r.h, r.num, r.root, r.i);
    hide Arithmetic, Ema;
  }

  lemma {:induction false} EmaMoves(x: Series, i: nat, n: nat)
    requires i < |x| && NoGaps(x, 0, i + 1)
    ensures Ema(x, i, n).Some? && (i == 0 ==> Ema(x, 0, n) == x[0])
    ensures i > 0 ==> Ema(x, i - 1, n).Some?
                      && Draws(n, Ema(x, i - 1, n).value, Ema(x, i, n).value, x[i].value)
  {
    if i > 0 {
      EmaMoves(x, i - 1, n);
      var was, d := Ema(x, i - 1, n).value, (n + 1) as real;
      assert Ema(x, i, n) == Some(was + (x[i].value - was) * 2.0 / d);
      assert (x[i].value - was) * 2.0 / d * d == (x[i].value - was) * 2.0;
    }
  }
}
