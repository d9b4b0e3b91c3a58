/** Evaluating indicator requests together (live-grid/app/ta/compute.py): every
    shared sub-series once, then the expressions that read them, then the
    path-dependent and per-session indicators. */
module Compute {
  import opened Options
  import opened Columns

  type Series = seq<Option<real>>

  type Frame = map<string, Series>

  // ---- expressions ----------------------------------------------------

  datatype Expr =
    | Col(name: string)
    | Lit(text: string)
    | Un(op: string, arg: Expr)
    | Bin(op: string, left: Expr, right: Expr)
    | Win(op: string, period: nat, arg: Expr)

  /** What the engine's primitives compute: anything, of their arguments alone. */
  datatype Ops = Ops(lit: string -> Series, un: (string, Series) -> Series,
                     bin: (string, Series, Series) -> Series, win: (string, nat, Series) -> Series)

  function Cols(e: Expr): set<string> {
    match e
    case Col(n) => {n}
    case Lit(_) => {}
    case Un(_, a) => Cols(a)
    case Bin(_, a, b) => Cols(a) + Cols(b)
    case Win(_, _, a) => Cols(a)
  }

  function Eval(e: Expr, f: Frame, ops: Ops): Series {
    match e
    case Col(n) => if n in f then f[n] else []
    case Lit(t) => ops.lit(t)
    case Un(op, a) => ops.un(op, Eval(a, f, ops))
    case Bin(op, a, b) => ops.bin(op, Eval(a, f, ops), Eval(b, f, ops))
    case Win(op, n, a) => ops.win(op, n, Eval(a, f, ops))
  }

  /** Wilder's true range, always on raw prices. */
  function TrueRange(): Expr {
    var prev := Win("shift", 1, Col("close"));
    Bin("max_horizontal", Bin("-", Col("high"), Col("low")),
        Bin("max_horizontal", Un("abs", Bin("-", Col("high"), prev)), Un("abs", Bin("-", Col("low"), prev))))
  }

  predicate KnownKind(b: Base) {
    b.kind in ["tr", "sma", "ewm", "wilder", "std", "max", "min"]
  }

  function BaseExpr(b: Base): Expr {
    if b.kind == "tr" then TrueRange()
    else if b.kind == "sma" then Win("rolling_mean", b.period, Col(b.col))
    else if b.kind == "ewm" then Win("ewm_span", b.period, Col(b.col))
    else if b.kind == "wilder" then Win("ewm_wilder", b.period, Col(b.col))
    else if b.kind == "std" then Win("rolling_std_population", b.period, Col(b.col))
    else if b.kind == "max" then Win("rolling_max", b.period, Col(b.col))
    else Win("rolling_min", b.period, Col(b.col))
  }

  // ---- indicators -----------------------------------------------------

  datatype Out = Out(name: string, expr: Expr)

  /** An indicator that reads the frame instead of adding expressions to it:
      path-dependent, or computed per session. `run` reads the columns `needs`. */
  datatype Late = Late(session: bool, cols: seq<string>, needs: set<string>, run: Frame -> Frame)

  /** An indicator with its parameters filled in. */
  datatype Plan = Plan(deps: seq<Base>, build: seq<Out>, late: Option<Late>)

  /** The registry: a name it does not know has no plan. */
  type Registry = (string, seq<Param>) -> Option<Plan>

  function PlanOf(r: Req, reg: Registry): Plan
    requires reg(r.name, r.params).Some?
  {
    reg(r.name, r.params).value
  }

  predicate AllKnown(reqs: seq<Req>, reg: Registry) {
    forall i :: 0 <= i < |reqs| ==> reg(reqs[i].name, reqs[i].params).Some?
  }

  // ---- the passes -----------------------------------------------------

  function DepMap(deps: seq<Base>): map<string, Base> {
    if deps == [] then map[]
    else
      var n := |deps| - 1;
      DepMap(deps[..n])[Key(deps[n]) := deps[n]]
  }

  function Bases(reqs: seq<Req>, reg: Registry): map<string, Base>
    requires AllKnown(reqs, reg)
  {
    if reqs == [] then map[]
    else
      var n := |reqs| - 1;
      Bases(reqs[..n], reg) + DepMap(PlanOf(reqs[n], reg).deps)
  }

  function WithBases(df: Frame, bases: map<string, Base>, ops: Ops): Frame {
    df + map k | k in bases :: Eval(BaseExpr(bases[k]), df, ops)
  }

  function AddOuts(m: map<string, Expr>, outs: seq<Out>, r: Req): map<string, Expr> {
    if outs == [] then m
    else
      var n := |outs| - 1;
      var before := AddOuts(m, outs[..n], r);
      var name := Column(outs[n].name, r);
      if name in before then before else before[name := outs[n].expr]
  }

  predicate IsSession(p: Plan) { p.late.Some? && p.late.value.session }

  function Exprs(reqs: seq<Req>, reg: Registry): map<string, Expr>
    requires AllKnown(reqs, reg)
  {
    if reqs == [] then map[]
    else
      var n := |reqs| - 1;
      var p := PlanOf(reqs[n], reg);
      if IsSession(p) then Exprs(reqs[..n], reg) else AddOuts(Exprs(reqs[..n], reg), p.build, reqs[n])
  }

  function WithExprs(f: Frame, exprs: map<string, Expr>, ops: Ops): Frame {
    f + map n | n in exprs :: Eval(exprs[n], f, ops)
  }

  function AddCols(f: Frame, cols: seq<string>, values: Frame, r: Req): Frame {
    if cols == [] then f
    else
      var n := |cols| - 1;
      var before := AddCols(f, cols[..n], values, r);
      var name := Column(cols[n], r);
      if name in before || cols[n] !in values then before else before[name := values[cols[n]]]
  }

  predicate RunsIn(p: Plan, session: bool) { p.late.Some? && p.late.value.session == session }

  function WithLate(f: Frame, reqs: seq<Req>, reg: Registry, session: bool): Frame
    requires AllKnown(reqs, reg)
  {
    if reqs == [] then f
    else
      var n := |reqs| - 1;
      var before := WithLate(f, reqs[..n], reg, session);
      var p := PlanOf(reqs[n], reg);
      if RunsIn(p, session) then AddCols(before, p.late.value.cols, p.late.value.run(before), reqs[n]) else before
  }

  /** All requests evaluated together, the shared columns dropped at the end. */
  function Computed(df: Frame, reqs: seq<Req>, reg: Registry, ops: Ops): Frame
    requires AllKnown(reqs, reg)
  {
    var bases := Bases(reqs, reg);
    var f := WithExprs(WithBases(df, bases, ops), Exprs(reqs, reg), ops);
    WithLate(WithLate(f, reqs, reg, false), reqs, reg, true) - bases.Keys
  }

  datatype Result<T> = Ok(value: T) | UnknownIndicator(name: string)

  method CollectBases(reqs: seq<Req>, reg: Registry) returns (r: Result<map<string, Base>>)
    ensures r.Ok? <==> AllKnown(reqs, reg)
    ensures AllKnown(reqs, reg) ==> r.value == Bases(reqs, reg)
  {
    var bases := map[];
    for i := 0 to |reqs|
      invariant AllKnown(reqs[..i], reg) && bases == Bases(reqs[..i], reg)
    {
      hide Key, DepMap;
      var p := reg(reqs[i].name, reqs[i].params);
      if p.None? { return UnknownIndicator(reqs[i].name); }
      assert reqs[..i + 1][..i] == reqs[..i];
      bases := CollectDeps(bases, p.value.deps);
    }
    assert reqs[..|reqs|] == reqs;
    return Ok(bases);
  }

  method CollectDeps(before: map<string, Base>, deps: seq<Base>) returns (bases: map<string, Base>)
    ensures bases == before + DepMap(deps)
  {
    hide Key;
    bases := before;
    for j := 0 to |deps|
      invariant bases == before + DepMap(deps[..j])
    {
      assert deps[..j + 1][..j] == deps[..j];
      bases := bases[Key(deps[j]) := deps[j]];
    }
    assert deps[..|deps|] == deps;
  }

  method CollectExprs(reqs: seq<Req>, reg: Registry) returns (exprs: map<string, Expr>)
    requires AllKnown(reqs, reg)
    ensures exprs == Exprs(reqs, reg)
  {
    exprs := map[];
    for i := 0 to |reqs|
      invariant AllKnown(reqs[..i], reg) && exprs == Exprs(reqs[..i], reg)
    {
      assert reqs[..i + 1][..i] == reqs[..i];
      var p := reg(reqs[i].name, reqs[i].params).value;
      if !IsSession(p) {
        ghost var before := exprs;
        for j := 0 to |p.build|
          invariant exprs == AddOuts(before, p.build[..j], reqs[i])
        {
          assert p.build[..j + 1][..j] == p.build[..j];
          var name := Column(p.build[j].name, reqs[i]);
          if name !in exprs { exprs := exprs[name := p.build[j].expr]; }
        }
        assert p.build[..|p.build|] == p.build;
      }
    }
    assert reqs[..|reqs|] == reqs;
  }

  method RunLate(f: Frame, reqs: seq<Req>, reg: Registry, session: bool) returns (frame: Frame)
    requires AllKnown(reqs, reg)
    ensures frame == WithLate(f, reqs, reg, session)
  {
    frame := f;
    for i := 0 to |reqs|
      invariant AllKnown(reqs[..i], reg) && frame == WithLate(f, reqs[..i], reg, session)
    {
      assert reqs[..i + 1][..i] == reqs[..i];
      var p := reg(reqs[i].name, reqs[i].params).value;
      if RunsIn(p, session) {
        var cols, values := p.late.value.cols, p.late.value.run(frame);
        ghost var before := frame;
        for j := 0 to |cols|
          invariant frame == AddCols(before, cols[..j], values, reqs[i])
        {
          assert cols[..j + 1][..j] == cols[..j];
          var name := Column(cols[j], reqs[i]);
          if name !in frame && cols[j] in values { frame := frame[name := values[cols[j]]]; }
        }
        assert cols[..|cols|] == cols;
      }
    }
    assert reqs[..|reqs|] == reqs;
  }

  method Run(df: Frame, reqs: seq<Req>, reg: Registry, ops: Ops) returns (r: Result<Frame>)
    ensures r.Ok? <==> AllKnown(reqs, reg)
    ensures AllKnown(reqs, reg) ==> r.value == Computed(df, reqs, reg, ops)
  {
    var bases := CollectBases(reqs, reg);
    if bases.UnknownIndicator? { return UnknownIndicator(bases.name); }
    var frame := WithBases(df, bases.value, ops);
    var exprs := CollectExprs(reqs, reg);
    frame := WithExprs(frame, exprs, ops);
    frame := RunLate(frame, reqs, reg, false);
    frame := RunLate(frame, reqs, reg, true);
    return Ok(frame - bases.value.Keys);
  }

  // ---- what a request means alone -------------------------------------

  /** The frame with one request's own shared columns. */
  function Own(df: Frame, p: Plan, ops: Ops): Frame {
    WithBases(df, DepMap(p.deps), ops)
  }

  /** An expression with its shared columns written out. */
  function Inline(e: Expr, deps: map<string, Base>): Expr {
    match e
    case Col(n) => if n in deps then BaseExpr(deps[n]) else e
    case Lit(_) => e
    case Un(op, a) => Un(op, Inline(a, deps))
    case Bin(op, a, b) => Bin(op, Inline(a, deps), Inline(b, deps))
    case Win(op, n, a) => Win(op, n, Inline(a, deps))
  }

  // ---- what is asked of the registry ----------------------------------

  predicate RawNames(raw: set<string>) {
    forall c :: c in raw ==> Lacks(c, ':') && Lacks(c, '|')
  }

  ghost predicate Agree(f: Frame, g: Frame, cols: set<string>) {
    forall c :: c in cols ==> c in f && c in g && f[c] == g[c]
  }

  /** The run reads no column but those it says, and yields those it says. */
  ghost predicate ReadsOnly(l: Late) {
    && (forall f :: forall c :: c in l.run(f) <==> c in l.cols)
    && (forall f, g :: Agree(f, g, l.needs) ==> l.run(f) == l.run(g))
  }

  predicate CleanDeps(p: Plan, raw: set<string>) {
    forall j :: 0 <= j < |p.deps| ==>
      CleanBase(p.deps[j]) && KnownKind(p.deps[j]) && Cols(BaseExpr(p.deps[j])) <= raw
  }

  /** An indicator as the registry declares them: expressions over raw columns
      and its own shared ones, output names of its own, each once. */
  ghost predicate GoodPlan(p: Plan, raw: set<string>) {
    && CleanDeps(p, raw)
    && (forall j :: 0 <= j < |p.build| ==>
        CleanOut(p.build[j].name) && Cols(p.build[j].expr) <= raw + DepMap(p.deps).Keys)
    && (forall i, j :: 0 <= i < j < |p.build| ==> p.build[i].name != p.build[j].name)
    && (p.late.Some? ==>
          && ReadsOnly(p.late.value) && p.late.value.needs <= raw + DepMap(p.deps).Keys
          && (p.late.value.session ==> p.build == [])
          && forall j :: 0 <= j < |p.late.value.cols| ==>
               CleanOut(p.late.value.cols[j]) && p.late.value.cols[j] !in raw
               && forall i :: 0 <= i < |p.build| ==> p.build[i].name != p.late.value.cols[j])
  }

  predicate Makes(p: Plan, out: string) {
    (exists j :: 0 <= j < |p.build| && p.build[j].name == out) || (p.late.Some? && out in p.late.value.cols)
  }

  /** No two indicators share an output name. */
  ghost predicate Owned(reg: Registry) {
    forall a, x, b, y, out ::
      reg(a, x).Some? && reg(b, y).Some? && Makes(reg(a, x).value, out) && Makes(reg(b, y).value, out) ==> a == b
  }

  ghost predicate GoodRequests(df: Frame, reqs: seq<Req>, reg: Registry) {
    && RawNames(df.Keys) && Owned(reg) && AllKnown(reqs, reg)
    && (forall i :: 0 <= i < |reqs| ==> CleanReq(reqs[i]) && GoodPlan(PlanOf(reqs[i], reg), df.Keys))
    && (forall i, j, k ::
          0 <= i < |reqs| && 0 <= j < |reqs| && PlanOf(reqs[i], reg).late.Some?
          && 0 <= k < |PlanOf(reqs[j], reg).build| ==>
          Column(PlanOf(reqs[j], reg).build[k].name, reqs[j]) !in PlanOf(reqs[i], reg).late.value.needs)
  }

  // ---- expressions see only their columns -----------------------------

  lemma {:induction false} EvalAgree(e: Expr, f: Frame, g: Frame, ops: Ops)
    requires Agree(f, g, Cols(e))
    ensures Eval(e, f, ops) == Eval(e, g, ops)
  {
    match e
    case Col(_) =>
    case Lit(_) =>
    case Un(_, a) => EvalAgree(a, f, g, ops);
    case Bin(_, a, b) => EvalAgree(a, f, g, ops); EvalAgree(b, f, g, ops);
    case Win(_, _, a) => EvalAgree(a, f, g, ops);
  }

  /** Reading a shared column is evaluating it in place. */
  lemma {:induction false} InlineMeans(e: Expr, df: Frame, deps: map<string, Base>, ops: Ops)
    requires Cols(e) <= df.Keys + deps.Keys && df.Keys !! deps.Keys
    ensures Eval(e, WithBases(df, deps, ops), ops) == Eval(Inline(e, deps), df, ops)
  {
    match e
    case Col(_) =>
    case Lit(_) =>
    case Un(_, a) => InlineMeans(a, df, deps, ops);
    case Bin(_, a, b) => InlineMeans(a, df, deps, ops); InlineMeans(b, df, deps, ops);
    case Win(_, _, a) => InlineMeans(a, df, deps, ops);
  }

  // ---- shared columns -------------------------------------------------

  ghost predicate Keyed(m: map<string, Base>) {
    forall k :: k in m ==> CleanBase(m[k]) && Key(m[k]) == k
  }

  lemma {:induction false} DepMapMeans(p: Plan, raw: set<string>, deps: seq<Base>)
    requires CleanDeps(p, raw) && deps <= p.deps
    ensures Keyed(DepMap(deps))
    ensures forall k :: k in DepMap(deps) ==> Cols(BaseExpr(DepMap(deps)[k])) <= raw
  {
    hide Key, Cols, BaseExpr, KnownKind, CleanBase;
    if deps != [] {
      var n := |deps| - 1;
      DepMapMeans(p, raw, deps[..n]);
      assert deps[n] == p.deps[n];
    }
  }

  lemma KeyNotRaw(b: Base, raw: set<string>)
    requires RawNames(raw)
    ensures Key(b) !in raw
  {
    assert Key(b)[|b.kind|] == ':';
  }

  lemma {:induction false} BasesMeans(reqs: seq<Req>, reg: Registry, raw: set<string>, i: nat)
    requires AllKnown(reqs, reg) && forall j :: 0 <= j < |reqs| ==> CleanDeps(PlanOf(reqs[j], reg), raw)
    ensures Keyed(Bases(reqs, reg))
    ensures i < |reqs| ==>
              var own := DepMap(PlanOf(reqs[i], reg).deps);
              forall k :: k in own ==> k in Bases(reqs, reg) && Bases(reqs, reg)[k] == own[k]
    decreases |reqs|
  {
    hide Key, CleanBase, CleanDeps, DepMap;
    if reqs != [] {
      var n := |reqs| - 1;
      BasesMeans(reqs[..n], reg, raw, i);
      var p := PlanOf(reqs[n], reg);
      DepMapMeans(p, raw, p.deps);
      if i < n {
        var own := DepMap(PlanOf(reqs[i], reg).deps);
        DepMapMeans(PlanOf(reqs[i], reg), raw, PlanOf(reqs[i], reg).deps);
        forall k | k in own && k in DepMap(p.deps) ensures own[k] == DepMap(p.deps)[k] {
          KeyInjective(own[k], DepMap(p.deps)[k]);
        }
      }
    }
  }

  /** In the shared frame a request finds the columns it would find alone. */
  lemma SharedAgrees(df: Frame, reqs: seq<Req>, reg: Registry, ops: Ops, i: nat)
    requires GoodRequests(df, reqs, reg) && i < |reqs|
    ensures var p := PlanOf(reqs[i], reg);
            Agree(WithBases(df, Bases(reqs, reg), ops), Own(df, p, ops), df.Keys + DepMap(p.deps).Keys)
            && df.Keys !! DepMap(p.deps).Keys && df.Keys !! Bases(reqs, reg).Keys
  {
    hide Key, CleanBase, DepMap, Bases, Eval, BaseExpr, Cols, KnownKind, ReadsOnly, Owned, Column;
    var p := PlanOf(reqs[i], reg);
    BasesMeans(reqs, reg, df.Keys, i);
    DepMapMeans(p, df.Keys, p.deps);
    forall k | k in DepMap(p.deps) ensures k !in df { KeyNotRaw(DepMap(p.deps)[k], df.Keys); }
    forall k | k in Bases(reqs, reg) ensures k !in df { KeyNotRaw(Bases(reqs, reg)[k], df.Keys); }
  }

  // ---- output columns -------------------------------------------------

  /** Two requests that put out one column are the same request to the engine. */
  lemma SameColumn(a: Req, x: string, b: Req, y: string, reg: Registry)
    requires Owned(reg) && CleanReq(a) && CleanReq(b) && CleanOut(x) && CleanOut(y)
    requires reg(a.name, a.params).Some? && reg(b.name, b.params).Some?
    requires Makes(PlanOf(a, reg), x) && Makes(PlanOf(b, reg), y) && Column(x, a) == Column(y, b)
    ensures x == y && PlanOf(a, reg) == PlanOf(b, reg)
  {
    ColumnInjective(x, a, y, b);
    hide Column, CleanReq, CleanOut, Makes;
    assert a.name == b.name;
  }

  /** The column is some request's output, and its expression that output's. */
  ghost predicate IsOut(reqs: seq<Req>, reg: Registry, name: string, e: Expr)
    requires AllKnown(reqs, reg)
  {
    exists i, j :: 0 <= i < |reqs| && 0 <= j < |PlanOf(reqs[i], reg).build|
                   && name == Column(PlanOf(reqs[i], reg).build[j].name, reqs[i])
                      && e == PlanOf(reqs[i], reg).build[j].expr
  }

  lemma {:induction false} AddOutsMeans(m: map<string, Expr>, outs: seq<Out>, r: Req)
    ensures var a := AddOuts(m, outs, r);
            && (forall n :: n in m ==> n in a && a[n] == m[n])
            && (forall j :: 0 <= j < |outs| ==> Column(outs[j].name, r) in a)
            && (forall n :: n in a && n !in m ==>
                exists j :: 0 <= j < |outs| && n == Column(outs[j].name, r) && a[n] == outs[j].expr)
  {
    hide Column;
    if outs != [] { AddOutsMeans(m, outs[..|outs| - 1], r); }
  }

  lemma {:induction false} ExprsMeans(reqs: seq<Req>, reg: Registry)
    requires AllKnown(reqs, reg)
    ensures forall n :: n in Exprs(reqs, reg) ==> IsOut(reqs, reg, n, Exprs(reqs, reg)[n])
    ensures forall i :: 0 <= i < |reqs| && !IsSession(PlanOf(reqs[i], reg)) ==>
      HasOuts(Exprs(reqs, reg), reqs[i], PlanOf(reqs[i], reg))
  {
    hide Column;
    if reqs != [] {
      var n := |reqs| - 1;
      ExprsMeans(reqs[..n], reg);
      var p := PlanOf(reqs[n], reg);
      var before := Exprs(reqs[..n], reg);
      forall c | c in before ensures IsOut(reqs, reg, c, before[c]) { OutSnoc(reqs, reg, c, before[c]); }
      AddOutsMeans(before, p.build, reqs[n]);
      forall c | c in Exprs(reqs, reg) ensures IsOut(reqs, reg, c, Exprs(reqs, reg)[c]) {
        if c !in before {
          var j :| 0 <= j < |p.build| && c == Column(p.build[j].name, reqs[n])
              && Exprs(reqs, reg)[c] == p.build[j].expr;
          assert reqs[n] == reqs[n];
        }
      }
    }
  }

  predicate HasOuts(m: map<string, Expr>, r: Req, p: Plan) {
    forall j :: 0 <= j < |p.build| ==> Column(p.build[j].name, r) in m
  }

  lemma OutSnoc(reqs: seq<Req>, reg: Registry, name: string, e: Expr)
    requires reqs != [] && AllKnown(reqs, reg) && IsOut(reqs[..|reqs| - 1], reg, name, e)
    ensures IsOut(reqs, reg, name, e)
  {
    hide Column, PlanOf;
    var f := reqs[..|reqs| - 1];
    var i, j :| 0 <= i < |f| && 0 <= j < |PlanOf(f[i], reg).build|
                && name == Column(PlanOf(f[i], reg).build[j].name, f[i]) && e == PlanOf(f[i], reg).build[j].expr;
    assert f[i] == reqs[i];
  }

  /** The expression filed under a request's output column is that output's. */
  lemma ExprsExact(df: Frame, reqs: seq<Req>, reg: Registry, i: nat, j: nat)
    requires GoodRequests(df, reqs, reg) && i < |reqs| && j < |PlanOf(reqs[i], reg).build|
    ensures var out, n := PlanOf(reqs[i], reg).build[j], Column(PlanOf(reqs[i], reg).build[j].name, reqs[i]);
            n in Exprs(reqs, reg) && Exprs(reqs, reg)[n] == out.expr
  {
    hide Column, CleanReq, CleanOut, ReadsOnly, CleanDeps, Owned, Cols, DepMap, Exprs;
    ExprsMeans(reqs, reg);
    var p := PlanOf(reqs[i], reg);
    var n := Column(p.build[j].name, reqs[i]);
    assert HasOuts(Exprs(reqs, reg), reqs[i], p);
    var a, b :| 0 <= a < |reqs| && 0 <= b < |PlanOf(reqs[a], reg).build|
                && n == Column(PlanOf(reqs[a], reg).build[b].name, reqs[a])
                   && Exprs(reqs, reg)[n] == PlanOf(reqs[a], reg).build[b].expr;
    SameColumn(reqs[i], p.build[j].name, reqs[a], PlanOf(reqs[a], reg).build[b].name, reg);
  }

  // ---- late columns ---------------------------------------------------

  /** The column is a late output of some request, with the values it has alone. */
  ghost predicate IsLate(df: Frame, reqs: seq<Req>, reg: Registry, ops: Ops, name: string, s: Series)
    requires AllKnown(reqs, reg)
  {
    exists i, c :: 0 <= i < |reqs| && IsLateOf(df, reqs[i], PlanOf(reqs[i], reg), ops, name, c, s)
  }

  ghost predicate IsLateOf(df: Frame, r: Req, p: Plan, ops: Ops, name: string, c: string, s: Series) {
    && p.late.Some? && c in p.late.value.cols && name == Column(c, r)
    && var values := p.late.value.run(Own(df, p, ops)); c in values && s == values[c]
  }

  /** A frame the late indicators have added to: what was there is there still,
      and what is new is a late column. */
  ghost predicate Grown(df: Frame, f: Frame, g: Frame, reqs: seq<Req>, reg: Registry, ops: Ops)
    requires AllKnown(reqs, reg)
  {
    && Agree(g, f, f.Keys)
    && forall n :: n in g && n !in f ==> IsLate(df, reqs, reg, ops, n, g[n])
  }

  lemma {:induction false} AddColsMeans(f: Frame, cols: seq<string>, values: Frame, r: Req)
    ensures var a := AddCols(f, cols, values, r);
            && Agree(a, f, f.Keys)
            && (forall j :: 0 <= j < |cols| && cols[j] in values ==> Column(cols[j], r) in a)
            && (forall n :: n in a && n !in f ==>
                exists j :: 0 <= j < |cols| && cols[j] in values && n == Column(cols[j], r) && a[n] == values[cols[j]])
  {
    hide Column;
    if cols != [] { AddColsMeans(f, cols[..|cols| - 1], values, r); }
  }

  /** `f` is the frame after the expressions; whatever late columns have been
      added to it, a late indicator finds in it what it would find alone. */
  ghost predicate Sees(df: Frame, g: Frame, p: Plan, ops: Ops) {
    p.late.Some? ==> Agree(g, Own(df, p, ops), p.late.value.needs)
  }

  ghost predicate AllSee(df: Frame, g: Frame, reqs: seq<Req>, reg: Registry, ops: Ops)
    requires AllKnown(reqs, reg)
  {
    forall i :: 0 <= i < |reqs| ==> Sees(df, g, PlanOf(reqs[i], reg), ops)
  }

  lemma NeedsKept(df: Frame, reqs: seq<Req>, reg: Registry, i: nat, c: string)
    requires GoodRequests(df, reqs, reg) && i < |reqs| && PlanOf(reqs[i], reg).late.Some?
             && c in PlanOf(reqs[i], reg).late.value.needs
    ensures c !in Exprs(reqs, reg)
  {
    hide Column, CleanReq, CleanDeps, Owned, Exprs, GoodPlan;
    ExprsMeans(reqs, reg);
    assert c in Exprs(reqs, reg) ==> IsOut(reqs, reg, c, Exprs(reqs, reg)[c]);
  }

  lemma ExprsSeen(df: Frame, reqs: seq<Req>, reg: Registry, ops: Ops)
    requires GoodRequests(df, reqs, reg)
    ensures AllSee(df, WithExprs(WithBases(df, Bases(reqs, reg), ops), Exprs(reqs, reg), ops), reqs, reg, ops)
  {
    var f := WithExprs(WithBases(df, Bases(reqs, reg), ops), Exprs(reqs, reg), ops);
    forall i | 0 <= i < |reqs| ensures Sees(df, f, PlanOf(reqs[i], reg), ops) {
      SeesAlone(df, reqs, reg, ops, i);
    }
  }

  lemma SeesAlone(df: Frame, reqs: seq<Req>, reg: Registry, ops: Ops, i: nat)
    requires GoodRequests(df, reqs, reg) && i < |reqs|
    ensures Sees(df, WithExprs(WithBases(df, Bases(reqs, reg), ops), Exprs(reqs, reg), ops), PlanOf(reqs[i], reg), ops)
  {
    hide Column, CleanReq, CleanDeps, Owned, Exprs, Bases, Own, Eval, WithBases, WithExprs, ReadsOnly, DepMap, Cols,
         Sees;
    SharedAgrees(df, reqs, reg, ops, i);
    var p := PlanOf(reqs[i], reg);
    if p.late.Some? {
      assert p.late.value.needs <= df.Keys + DepMap(p.deps).Keys;
      forall c | c in p.late.value.needs ensures c !in Exprs(reqs, reg) { NeedsKept(df, reqs, reg, i, c); }
    }
    SeesThrough(df, WithBases(df, Bases(reqs, reg), ops), Exprs(reqs, reg), p, ops, df.Keys + DepMap(p.deps).Keys);
  }

  lemma SeesThrough(df: Frame, shared: Frame, exprs: map<string, Expr>, p: Plan, ops: Ops, cols: set<string>)
    requires Agree(shared, Own(df, p, ops), cols)
    requires p.late.Some? ==> p.late.value.needs <= cols && forall c :: c in p.late.value.needs ==> c !in exprs
    ensures Sees(df, WithExprs(shared, exprs, ops), p, ops)
  {
    hide Own, Eval;
  }

  lemma SeenStays(df: Frame, g: Frame, h: Frame, reqs: seq<Req>, reg: Registry, ops: Ops)
    requires AllKnown(reqs, reg) && AllSee(df, g, reqs, reg, ops) && Agree(h, g, g.Keys)
    ensures AllSee(df, h, reqs, reg, ops)
  {
    hide Own, PlanOf;
    forall i | 0 <= i < |reqs| ensures Sees(df, h, PlanOf(reqs[i], reg), ops) {
      assert Sees(df, g, PlanOf(reqs[i], reg), ops);
    }
  }

  predicate HasCols(g: Frame, r: Req, cols: seq<string>) {
    forall j :: 0 <= j < |cols| ==> Column(cols[j], r) in g
  }

  /** One late indicator run. */
  lemma LateStep(df: Frame, f: Frame, g: Frame, reqs: seq<Req>, reg: Registry, ops: Ops, i: nat)
    requires AllKnown(reqs, reg) && i < |reqs| && PlanOf(reqs[i], reg).late.Some?
             && ReadsOnly(PlanOf(reqs[i], reg).late.value)
    requires Grown(df, f, g, reqs, reg, ops) && AllSee(df, g, reqs, reg, ops)
    ensures var l := PlanOf(reqs[i], reg).late.value;
            var h := AddCols(g, l.cols, l.run(g), reqs[i]);
            Grown(df, f, h, reqs, reg, ops) && AllSee(df, h, reqs, reg, ops) && Agree(h, g, g.Keys)
              && HasCols(h, reqs[i], l.cols)
  {
    hide Column, PlanOf, Own, AddCols;
    var p := PlanOf(reqs[i], reg);
    var l := p.late.value;
    assert Sees(df, g, p, ops);
    assert l.run(g) == l.run(Own(df, p, ops));
    var h := AddCols(g, l.cols, l.run(g), reqs[i]);
    AddColsMeans(g, l.cols, l.run(g), reqs[i]);
    SeenStays(df, g, h, reqs, reg, ops);
    forall n | n in h && n !in f ensures IsLate(df, reqs, reg, ops, n, h[n]) {
      if n in g {
        assert IsLate(df, reqs, reg, ops, n, g[n]);
      } else {
        var j :| 0 <= j < |l.cols| && l.cols[j] in l.run(g) && n == Column(l.cols[j], reqs[i])
            && h[n] == l.run(g)[l.cols[j]];
        assert IsLateOf(df, reqs[i], p, ops, n, l.cols[j], h[n]);
      }
    }
  }

  lemma {:induction false} LateMeans(df: Frame, f: Frame, g: Frame, reqs: seq<Req>, m: nat, reg: Registry, ops: Ops,
                                     session: bool)
    requires AllKnown(reqs, reg) && m <= |reqs|
    requires forall i :: 0 <= i < |reqs| ==>
      PlanOf(reqs[i], reg).late.Some? ==> ReadsOnly(PlanOf(reqs[i], reg).late.value)
    requires Grown(df, f, g, reqs, reg, ops) && AllSee(df, g, reqs, reg, ops)
    ensures var h := WithLate(g, reqs[..m], reg, session);
            && Grown(df, f, h, reqs, reg, ops) && AllSee(df, h, reqs, reg, ops) && Agree(h, g, g.Keys)
            && forall i :: 0 <= i < m && RunsIn(PlanOf(reqs[i], reg), session) ==>
                 HasCols(h, reqs[i], PlanOf(reqs[i], reg).late.value.cols)
    decreases m
  {
    hide Grown, AllSee, ReadsOnly, Column, AddCols, PlanOf;
    if m > 0 {
      assert reqs[..m][..m - 1] == reqs[..m - 1] && reqs[..m][m - 1] == reqs[m - 1];
      LateMeans(df, f, g, reqs, m - 1, reg, ops, session);
      var before := WithLate(g, reqs[..m - 1], reg, session);
      if RunsIn(PlanOf(reqs[m - 1], reg), session) { LateStep(df, f, before, reqs, reg, ops, m - 1); }
    }
  }

  // ---- the theorem ----------------------------------------------------

  /** What the request's output means, with no other request in sight: an
      expression with its shared columns written out, or the late run. */
  ghost predicate Means(df: Frame, p: Plan, ops: Ops, out: string, s: Series) {
    || (exists j ::
          0 <= j < |p.build| && p.build[j].name == out && s == Eval(Inline(p.build[j].expr, DepMap(p.deps)), df, ops))
    || (p.late.Some? && out in p.late.value.cols
        && var values := p.late.value.run(Own(df, p, ops)); out in values && s == values[out])
  }

  lemma NotRaw(c: string, r: Req, raw: set<string>)
    requires RawNames(raw) && CleanOut(c) && c !in raw
    ensures Column(c, r) !in raw
  {
    HasBar(c, r);
    assert Suffix(r) == "" ==> Column(c, r) == c;
  }

  /** No late column is there before the late indicators run. */
  lemma LateIsNew(df: Frame, reqs: seq<Req>, reg: Registry, i: nat, c: string)
    requires GoodRequests(df, reqs, reg) && i < |reqs| && PlanOf(reqs[i], reg).late.Some?
             && c in PlanOf(reqs[i], reg).late.value.cols
    ensures var n := Column(c, reqs[i]); n !in df && n !in Bases(reqs, reg) && n !in Exprs(reqs, reg)
  {
    hide Column, Key, CleanReq, CleanDeps, CleanBase, Owned, Exprs, Bases, ReadsOnly, Cols, DepMap, RawNames, Lacks;
    var p := PlanOf(reqs[i], reg);
    var n := Column(c, reqs[i]);
    NotRaw(c, reqs[i], df.Keys);
    BasesMeans(reqs, reg, df.Keys, i);
    forall k | k in Bases(reqs, reg) ensures k != n { ColumnNotKey(c, reqs[i], Bases(reqs, reg)[k]); }
    ExprsMeans(reqs, reg);
    forall k | k in Exprs(reqs, reg) ensures k != n {
      assert IsOut(reqs, reg, k, Exprs(reqs, reg)[k]);
      var a, b :| 0 <= a < |reqs| && 0 <= b < |PlanOf(reqs[a], reg).build|
                  && k == Column(PlanOf(reqs[a], reg).build[b].name, reqs[a])
                     && Exprs(reqs, reg)[k] == PlanOf(reqs[a], reg).build[b].expr;
      Apart(reqs[i], c, reqs[a], b, reg, df.Keys);
    }
  }

  lemma Apart(r: Req, c: string, q: Req, b: nat, reg: Registry, raw: set<string>)
    requires Owned(reg) && CleanReq(r) && CleanReq(q) && reg(r.name, r.params).Some? && reg(q.name, q.params).Some?
    requires GoodPlan(PlanOf(r, reg), raw) && GoodPlan(PlanOf(q, reg), raw)
    requires PlanOf(r, reg).late.Some? && c in PlanOf(r, reg).late.value.cols && b < |PlanOf(q, reg).build|
    ensures Column(c, r) != Column(PlanOf(q, reg).build[b].name, q)
  {
    hide Column, CleanReq, Owned, CleanDeps, ReadsOnly, Cols, DepMap;
    if Column(c, r) == Column(PlanOf(q, reg).build[b].name, q) {
      SameColumn(r, c, q, PlanOf(q, reg).build[b].name, reg);
    }
  }

  lemma LateExact(df: Frame, f: Frame, h: Frame, reqs: seq<Req>, reg: Registry, ops: Ops, i: nat, c: string)
    requires GoodRequests(df, reqs, reg) && i < |reqs| && PlanOf(reqs[i], reg).late.Some?
             && c in PlanOf(reqs[i], reg).late.value.cols
    requires Grown(df, f, h, reqs, reg, ops) && Column(c, reqs[i]) in h && Column(c, reqs[i]) !in f
    ensures Means(df, PlanOf(reqs[i], reg), ops, c, h[Column(c, reqs[i])])
  {
    hide Column, CleanReq, CleanDeps, Owned, ReadsOnly, Cols, DepMap, Own, Eval, Inline;
    var n := Column(c, reqs[i]);
    assert IsLate(df, reqs, reg, ops, n, h[n]);
    var a, d :| 0 <= a < |reqs| && IsLateOf(df, reqs[a], PlanOf(reqs[a], reg), ops, n, d, h[n]);
    SameColumn(reqs[i], c, reqs[a], d, reg);
  }

  /** Requests do not interfere: whatever else is asked, in whatever order and
      however often, each output column of a request holds what that request
      means alone, with its shared columns written out. */
  lemma NonInterference(df: Frame, reqs: seq<Req>, reg: Registry, ops: Ops, i: nat, out: string)
    requires GoodRequests(df, reqs, reg) && i < |reqs| && Makes(PlanOf(reqs[i], reg), out)
    ensures var n := Column(out, reqs[i]);
            n in Computed(df, reqs, reg, ops)
              && Means(df, PlanOf(reqs[i], reg), ops, out, Computed(df, reqs, reg, ops)[n])
  {
    var p := PlanOf(reqs[i], reg);
    var shared := WithBases(df, Bases(reqs, reg), ops);
    var f := WithExprs(shared, Exprs(reqs, reg), ops);
    Passes(df, reqs, reg, ops);
    var h := WithLate(WithLate(f, reqs, reg, false), reqs, reg, true);
    var n := Column(out, reqs[i]);
    NotShared(df, reqs, reg, i, out);
    if p.late.Some? && out in p.late.value.cols {
      LateIsNew(df, reqs, reg, i, out);
      assert n in h by { assert RunsIn(p, p.late.value.session); }
      LateExact(df, f, h, reqs, reg, ops, i, out);
    } else {
      var j :| 0 <= j < |p.build| && p.build[j].name == out;
      ExprsExact(df, reqs, reg, i, j);
      VectorExact(df, reqs, reg, ops, i, j);
    }
  }

  lemma NotShared(df: Frame, reqs: seq<Req>, reg: Registry, i: nat, out: string)
    requires GoodRequests(df, reqs, reg) && i < |reqs| && Makes(PlanOf(reqs[i], reg), out)
    ensures Column(out, reqs[i]) !in Bases(reqs, reg)
  {
    hide Column, Key, CleanReq, CleanDeps, CleanBase, Owned, Bases, ReadsOnly, Cols, DepMap;
    BasesMeans(reqs, reg, df.Keys, i);
    assert CleanOut(out);
    forall k | k in Bases(reqs, reg) ensures k != Column(out, reqs[i]) {
      ColumnNotKey(out, reqs[i], Bases(reqs, reg)[k]);
    }
  }

  /** An output expression, read in the shared frame, means what it means alone. */
  lemma VectorExact(df: Frame, reqs: seq<Req>, reg: Registry, ops: Ops, i: nat, j: nat)
    requires GoodRequests(df, reqs, reg) && i < |reqs| && j < |PlanOf(reqs[i], reg).build|
    ensures var p := PlanOf(reqs[i], reg);
            Eval(p.build[j].expr, WithBases(df, Bases(reqs, reg), ops), ops)
            == Eval(Inline(p.build[j].expr, DepMap(p.deps)), df, ops)
  {
    hide Column, CleanReq, CleanDeps, Owned, ReadsOnly, Cols, DepMap, Bases, Eval, Inline, WithBases;
    var p := PlanOf(reqs[i], reg);
    SharedAgrees(df, reqs, reg, ops, i);
    EvalAgree(p.build[j].expr, WithBases(df, Bases(reqs, reg), ops), Own(df, p, ops), ops);
    InlineMeans(p.build[j].expr, df, DepMap(p.deps), ops);
  }

  /** After both late passes the frame has every late column and has kept the rest. */
  lemma Passes(df: Frame, reqs: seq<Req>, reg: Registry, ops: Ops)
    requires GoodRequests(df, reqs, reg)
    ensures var f := WithExprs(WithBases(df, Bases(reqs, reg), ops), Exprs(reqs, reg), ops);
            var h := WithLate(WithLate(f, reqs, reg, false), reqs, reg, true);
            && Grown(df, f, h, reqs, reg, ops)
            && forall i, session :: 0 <= i < |reqs| && RunsIn(PlanOf(reqs[i], reg), session) ==>
                 HasCols(h, reqs[i], PlanOf(reqs[i], reg).late.value.cols)
  {
    var f := WithExprs(WithBases(df, Bases(reqs, reg), ops), Exprs(reqs, reg), ops);
    ExprsSeen(df, reqs, reg, ops);
    AllReadOnly(df, reqs, reg);
    Ungrown(df, f, reqs, reg, ops);
    hide WithExprs, WithBases, Bases, Exprs, GoodRequests;
    LatePasses(df, f, reqs, reg, ops);
  }

  lemma AllReadOnly(df: Frame, reqs: seq<Req>, reg: Registry)
    requires GoodRequests(df, reqs, reg)
    ensures forall i :: 0 <= i < |reqs| ==>
      PlanOf(reqs[i], reg).late.Some? ==> ReadsOnly(PlanOf(reqs[i], reg).late.value)
  {
    hide ReadsOnly, Column, CleanReq, CleanDeps, Owned;
  }

  lemma LatePasses(df: Frame, f: Frame, reqs: seq<Req>, reg: Registry, ops: Ops)
    requires AllKnown(reqs, reg)
    requires forall i :: 0 <= i < |reqs| ==>
      PlanOf(reqs[i], reg).late.Some? ==> ReadsOnly(PlanOf(reqs[i], reg).late.value)
    requires Grown(df, f, f, reqs, reg, ops) && AllSee(df, f, reqs, reg, ops)
    ensures var h := WithLate(WithLate(f, reqs, reg, false), reqs, reg, true);
            && Grown(df, f, h, reqs, reg, ops)
            && forall i, session :: 0 <= i < |reqs| && RunsIn(PlanOf(reqs[i], reg), session) ==>
                 HasCols(h, reqs[i], PlanOf(reqs[i], reg).late.value.cols)
  {
    hide WithLate, Column, AllSee, Grown, IsLate, ReadsOnly, PlanOf;
    assert reqs[..|reqs|] == reqs;
    LateMeans(df, f, f, reqs, |reqs|, reg, ops, false);
    var g := WithLate(f, reqs, reg, false);
    LateMeans(df, f, g, reqs, |reqs|, reg, ops, true);
  }

  lemma Ungrown(df: Frame, f: Frame, reqs: seq<Req>, reg: Registry, ops: Ops)
    requires AllKnown(reqs, reg)
    ensures Grown(df, f, f, reqs, reg, ops)
  {
  }

  /** A request means one thing. */
  lemma MeansOne(df: Frame, p: Plan, ops: Ops, out: string, s: Series, t: Series)
    requires GoodPlan(p, df.Keys) && Means(df, p, ops, out, s) && Means(df, p, ops, out, t)
    ensures s == t
  {
    hide Eval, Inline, CleanDeps, Cols, DepMap, ReadsOnly, Own;
  }

  /** So a request asked among others gives what it gives asked alone. */
  lemma TogetherAsAlone(df: Frame, reqs: seq<Req>, reg: Registry, ops: Ops, i: nat, out: string)
    requires GoodRequests(df, reqs, reg) && i < |reqs| && Makes(PlanOf(reqs[i], reg), out)
    ensures var n := Column(out, reqs[i]);
            n in Computed(df, reqs, reg, ops) && n in Computed(df, [reqs[i]], reg, ops)
            && Computed(df, reqs, reg, ops)[n] == Computed(df, [reqs[i]], reg, ops)[n]
  {
    var alone := [reqs[i]];
    assert GoodRequests(df, alone, reg) by {
      hide CleanReq, GoodPlan, Owned, RawNames, Column;
      assert alone[0] == reqs[i];
    }
    hide GoodRequests, Computed, Means, GoodPlan;
    NonInterference(df, reqs, reg, ops, i, out);
    NonInterference(df, alone, reg, ops, 0, out);
    assert GoodPlan(PlanOf(reqs[i], reg), df.Keys) by { PlanGood(df, reqs, reg, i); }
    var n := Column(out, reqs[i]);
    MeansOne(df, PlanOf(reqs[i], reg), ops, out, Computed(df, reqs, reg, ops)[n], Computed(df, alone, reg, ops)[n]);
  }

  lemma PlanGood(df: Frame, reqs: seq<Req>, reg: Registry, i: nat)
    requires GoodRequests(df, reqs, reg) && i < |reqs|
    ensures GoodPlan(PlanOf(reqs[i], reg), df.Keys)
  {
    hide GoodPlan;
  }
}
