/** A part of the indicator registry (live-grid/app/ta/registry.py), written out,
    and what makes it safe to compute together. */
module Catalogue {
  import opened Options
  import opened Columns
  import opened Compute

  // ---- parameters -----------------------------------------------------

  function Find(params: seq<Param>, key: string): Option<Val> {
    if params == [] then None else if params[0].key == key then Some(params[0].val) else Find(params[1..], key)
  }

  function Window(params: seq<Param>): nat {
    match Find(params, "period")
    case Some(Whole(n)) => n
    case _ => 0
  }

  function Constant(params: seq<Param>, key: string): Expr {
    match Find(params, key)
    case Some(v) => Lit(Shown(v))
    case None => Lit("")
  }

  // ---- the indicators -------------------------------------------------

  function Price(): string { "adj_close" }

  function Shared(kind: string, n: nat): Base { Base(kind, Price(), n) }

  function Read(b: Base): Expr { Col(Key(b)) }

  function Sma(n: nat): Plan {
    Plan([Shared("sma", n)], [Out("sma", Read(Shared("sma", n)))], None)
  }

  function BandDeps(n: nat): seq<Base> { [Shared("sma", n), Shared("std", n)] }

  function Bbands(n: nat, k: Expr): Plan {
    var mid, sd := Read(Shared("sma", n)), Read(Shared("std", n));
    Plan(BandDeps(n),
         [Out("bb_mid", mid), Out("bb_up", Bin("+", mid, Bin("*", k, sd))),
          Out("bb_lo", Bin("-", mid, Bin("*", k, sd)))], None)
  }

  function PctB(n: nat, k: Expr): Plan {
    var mid, sd := Read(Shared("sma", n)), Read(Shared("std", n));
    Plan(BandDeps(n),
         [Out("pct_b", Un("fill_nan", Bin("/", Bin("-", Col(Price()), Bin("-", mid, Bin("*", k, sd))),
                                          Bin("*", Bin("*", Lit("2"), k), sd))))], None)
  }

  function Range(): Base { Base("tr", "raw", 0) }

  /** Its key, by which the loops read it, and the column the averages read. */
  lemma RangeKey()
    ensures Key(Range()) == "tr:raw:0" && Price() == "adj_close"
  {
    assert Digits(0) == "0";
  }

  function Atr(n: nat): Plan {
    Plan([Range()], [Out("atr", Win("ewm_wilder", n, Read(Range())))], None)
  }

  function Vwap(): Plan {
    var typical := Bin("/", Bin("+", Bin("+", Col("high"), Col("low")), Col("close")), Lit("3"));
    Plan([], [Out("vwap", Bin("/", Un("cum_sum", Bin("*", typical, Col("volume"))), Un("cum_sum", Col("volume"))))],
         None)
  }

  /** Bars that carry trades. */
  function Traded(): Expr {
    Bin("&", Bin("&", Un("is_not_null", Col("vwap")), Un("is_not_nan", Col("vwap"))), Bin(">", Col("volume"), Lit("0")))
  }

  /** From the anchor on; `anchor` is there only when one was given. */
  function Valid(anchor: Option<Val>): Expr {
    if anchor.None? || Shown(anchor.value) == "" then Traded()
    else Bin("&", Traded(), Bin(">=", Un("cast_datetime", Col("date")), Lit(Shown(anchor.value))))
  }

  function Avwap(anchor: Option<Val>): Plan {
    var valid := Valid(anchor);
    var num := Un("cum_sum", Bin("when", valid, Bin("*", Col("vwap"), Col("volume"))));
    var den := Un("cum_sum", Bin("when", valid, Col("volume")));
    Plan([], [Out("avwap", Bin("when_or_null", Bin("&", valid, Bin(">", den, Lit("0"))), Bin("/", num, den)))], None)
  }

  function Only(f: Frame, cols: set<string>): Frame {
    map c | c in cols && c in f :: f[c]
  }

  /** The values a loop yields for one of its outputs. */
  type Loops = (string, seq<Param>, Frame, string) -> Series

  function Loop(name: string, params: seq<Param>, cols: seq<string>, needs: set<string>, loops: Loops): Late {
    Late(false, cols, needs, f => map c | c in cols :: loops(name, params, Only(f, needs), c))
  }

  function Sar(params: seq<Param>, loops: Loops): Plan {
    Plan([], [], Some(Loop("sar", params, ["sar"], {"high", "low"}, loops)))
  }

  function Supertrend(params: seq<Param>, loops: Loops): Plan {
    Plan([Range()], [],
         Some(Loop("supertrend", params, ["supertrend", "st_direction"], {"high", "low", "close", Key(Range())},
                   loops)))
  }

  function Registered(name: string, params: seq<Param>, loops: Loops): Option<Plan> {
    if name == "sma" then Some(Sma(Window(params)))
    else if name == "bbands" then Some(Bbands(Window(params), Constant(params, "k")))
    else if name == "pct_b" then Some(PctB(Window(params), Constant(params, "k")))
    else if name == "atr" then Some(Atr(Window(params)))
    else if name == "vwap" then Some(Vwap())
    else if name == "avwap" then Some(Avwap(Find(params, "anchor")))
    else if name == "sar" then Some(Sar(params, loops))
    else if name == "supertrend" then Some(Supertrend(params, loops))
    else None
  }

  /** `key` has the value `v`: in the first parameter of that name. */
  ghost predicate Given(params: seq<Param>, key: string, v: Val) {
    exists i :: 0 <= i < |params| && params[i].key == key && params[i].val == v
                && forall j :: 0 <= j < i ==> params[j].key != key
  }

  lemma {:induction false} FindMeans(params: seq<Param>, key: string)
    ensures forall v :: Given(params, key, v) <==> Find(params, key) == Some(v)
    ensures Find(params, key).None? <==> forall i :: 0 <= i < |params| ==> params[i].key != key
  {
    if params != [] {
      var rest := params[1..];
      FindMeans(rest, key);
      forall v
        ensures Given(params, key, v) <==> if params[0].key == key then params[0].val == v else Given(rest, key, v)
      {
        if params[0].key == key && params[0].val == v { assert params[0].key == key; }
        if params[0].key != key && Given(rest, key, v) {
          var i :| 0 <= i < |rest| && rest[i].key == key && rest[i].val == v
                   && forall j :: 0 <= j < i ==> rest[j].key != key;
          assert params[i + 1] == rest[i];
          assert forall j :: 0 < j < i + 1 ==> params[j] == rest[j - 1];
        }
        if params[0].key != key && Given(params, key, v) {
          var i :| 0 <= i < |params| && params[i].key == key && params[i].val == v
                   && forall j :: 0 <= j < i ==> params[j].key != key;
          assert rest[i - 1] == params[i];
          assert forall j :: 0 <= j < i - 1 ==> rest[j] == params[j + 1];
        }
      }
    }
  }

  /** What a request's parameters do: the length is the parameter `period`, the
      width of the bands the one called `k`, the anchor the one called `anchor`. */
  lemma RegisteredMeans(params: seq<Param>, loops: Loops, n: nat, k: Val)
    ensures Given(params, "period", Whole(n)) ==>
      Registered("sma", params, loops) == Some(Sma(n)) && Registered("atr", params, loops) == Some(Atr(n))
    ensures Given(params, "period", Whole(n)) && Given(params, "k", k) ==>
      && Registered("bbands", params, loops) == Some(Bbands(n, Lit(Shown(k))))
      && Registered("pct_b", params, loops) == Some(PctB(n, Lit(Shown(k))))
    ensures Given(params, "anchor", k) ==> Registered("avwap", params, loops) == Some(Avwap(Some(k)))
    ensures (forall i :: 0 <= i < |params| ==> params[i].key != "anchor") ==>
      Registered("avwap", params, loops) == Some(Avwap(None))
    ensures Registered("vwap", params, loops) == Some(Vwap())
    ensures Registered("sar", params, loops) == Some(Sar(params, loops))
    ensures Registered("supertrend", params, loops) == Some(Supertrend(params, loops))
    ensures forall name ::
      Registered(name, params, loops).None? <==>
      name !in {"sma", "bbands", "pct_b", "atr", "vwap", "avwap", "sar", "supertrend"}
  {
    FindMeans(params, "period");
    FindMeans(params, "k");
    FindMeans(params, "anchor");
    hide Find, Given, Sma, Bbands, PctB, Atr, Avwap, Vwap, Sar, Supertrend, Shown;
  }

  function Book(loops: Loops): Registry {
    (name, params) => Registered(name, params, loops)
  }

  // ---- safe together --------------------------------------------------

  const RAW := {"date", "open", "high", "low", "close", "adj_close", "volume", "vwap"}

  /** Whose output it is. */
  function OwnerOf(out: string): string {
    if out == "bb_mid" || out == "bb_up" || out == "bb_lo" then "bbands"
    else if out == "st_direction" then "supertrend"
    else out
  }

  lemma MakesOwn(name: string, params: seq<Param>, loops: Loops, out: string)
    requires Registered(name, params, loops).Some? && Makes(Registered(name, params, loops).value, out)
    ensures OwnerOf(out) == name
  {
    hide Key, Digits, Window, Constant, Find;
    if name == "bbands" { MakesBands(Window(params), Constant(params, "k"), out); }
    else if name == "supertrend" { MakesTwo(params, loops, out); }
    else if name == "avwap" { MakesAnchored(Find(params, "anchor"), out); }
    else { hide Bbands, Supertrend, Avwap; }
  }

  lemma MakesBands(n: nat, k: Expr, out: string)
    requires Makes(Bbands(n, k), out)
    ensures out in ["bb_mid", "bb_up", "bb_lo"]
  {
  }

  lemma MakesTwo(params: seq<Param>, loops: Loops, out: string)
    requires Makes(Supertrend(params, loops), out)
    ensures out in ["supertrend", "st_direction"]
  {
  }

  lemma MakesAnchored(anchor: Option<Val>, out: string)
    requires Makes(Avwap(anchor), out)
    ensures out == "avwap"
  {
  }

  lemma BookOwned(loops: Loops)
    ensures Owned(Book(loops))
  {
    hide Registered, Makes, OwnerOf;
    forall a, x, b, y, out |
      Book(loops)(a, x).Some? && Book(loops)(b, y).Some? && Makes(Book(loops)(a, x).value, out)
        && Makes(Book(loops)(b, y).value, out)
      ensures a == b
    {
      MakesOwn(a, x, loops, out);
      MakesOwn(b, y, loops, out);
    }
  }

  lemma LoopReadsOnly(name: string, params: seq<Param>, cols: seq<string>, needs: set<string>, loops: Loops)
    ensures ReadsOnly(Loop(name, params, cols, needs, loops))
  {
    var l := Loop(name, params, cols, needs, loops);
    forall f, g | Agree(f, g, needs) ensures l.run(f) == l.run(g) {
      assert Only(f, needs) == Only(g, needs);
    }
  }

  lemma DepKeys(deps: seq<Base>)
    requires |deps| <= 2
    ensures DepMap(deps).Keys == set j | 0 <= j < |deps| :: Key(deps[j])
  {
    hide Key;
    if |deps| == 1 {
      assert deps[..0] == [];
    } else if |deps| == 2 {
      assert deps[..1] == [deps[0]] && [deps[0]][..0] == [];
    }
  }

  lemma SharedIsGood(kind: string, n: nat, raw: set<string>)
    requires RAW <= raw && kind in ["sma", "std"]
    ensures CleanBase(Shared(kind, n)) && KnownKind(Shared(kind, n)) && Cols(BaseExpr(Shared(kind, n))) <= raw
  {
    assert Price() in RAW;
  }

  lemma RangeIsGood(raw: set<string>)
    requires RAW <= raw
    ensures CleanBase(Range()) && KnownKind(Range()) && Cols(BaseExpr(Range())) <= raw
  {
    var prev := Win("shift", 1, Col("close"));
    assert Cols(prev) == {"close"};
    assert Cols(Bin("-", Col("high"), prev)) == {"high", "close"}
           && Cols(Bin("-", Col("low"), prev)) == {"low", "close"};
    assert Cols(Bin("max_horizontal", Un("abs", Bin("-", Col("high"), prev)), Un("abs", Bin("-", Col("low"), prev))))
           == {"high", "low", "close"};
  }

  lemma GoodSma(n: nat, raw: set<string>)
    requires RAW <= raw
    ensures GoodPlan(Sma(n), raw)
  {
    var p := Sma(n);
    SharedIsGood("sma", n, raw);
    DepKeys(p.deps);
    hide Key, DepMap, Digits, BaseExpr, KnownKind, CleanBase;
    assert Key(p.deps[0]) in DepMap(p.deps).Keys;
    assert Cols(p.build[0].expr) == {Key(p.deps[0])};
  }

  lemma BandDepsGood(n: nat, k: Expr, raw: set<string>)
    requires RAW <= raw
    ensures CleanDeps(Bbands(n, k), raw) && CleanDeps(PctB(n, k), raw)
  {
    SharedIsGood("sma", n, raw);
    SharedIsGood("std", n, raw);
    hide Shared, BaseExpr, KnownKind, CleanBase, Cols, Read;
    assert BandDeps(n)[0] == Shared("sma", n) && BandDeps(n)[1] == Shared("std", n);
  }

  lemma BandCols(n: nat, k: Expr)
    requires Cols(k) == {}
    ensures Cols(Bin("*", k, Read(Shared("std", n)))) <= DepMap(BandDeps(n)).Keys
    ensures Cols(Read(Shared("sma", n))) <= DepMap(BandDeps(n)).Keys
            && Cols(Read(Shared("std", n))) <= DepMap(BandDeps(n)).Keys
  {
    DepKeys(BandDeps(n));
    hide Key, DepMap, Shared;
    assert Key(BandDeps(n)[0]) in DepMap(BandDeps(n)).Keys && Key(BandDeps(n)[1]) in DepMap(BandDeps(n)).Keys;
    assert Cols(Read(Shared("std", n))) == {Key(Shared("std", n))};
  }

  lemma GoodBbands(n: nat, k: Expr, raw: set<string>)
    requires RAW <= raw && Cols(k) == {}
    ensures GoodPlan(Bbands(n, k), raw)
  {
    BandDepsGood(n, k, raw);
    BandCols(n, k);
    hide Key, DepMap, Digits, CleanDeps, Read, Cols, Shared;
    var mid, sd := Read(Shared("sma", n)), Read(Shared("std", n));
    var keys := DepMap(BandDeps(n)).Keys;
    BinCols("+", mid, Bin("*", k, sd), keys);
    BinCols("-", mid, Bin("*", k, sd), keys);
    BandNames(n, k);
  }

  lemma BandNames(n: nat, k: Expr)
    ensures forall j :: 0 <= j < 3 ==> CleanOut(Bbands(n, k).build[j].name)
    ensures forall i, j :: 0 <= i < j < 3 ==> Bbands(n, k).build[i].name != Bbands(n, k).build[j].name
  {
    hide Key, Read, Shared;
    var build := Bbands(n, k).build;
    assert build[0].name == "bb_mid" && build[1].name == "bb_up" && build[2].name == "bb_lo";
    assert "bb_mid"[3] == 'm' && "bb_up"[3] == 'u' && "bb_lo"[3] == 'l';
  }

  lemma PctBCols(mid: Expr, sd: Expr, k: Expr, all: set<string>)
    requires Cols(k) == {} && Cols(mid) <= all && Cols(sd) <= all && Price() in all
    ensures Cols(Un("fill_nan", Bin("/", Bin("-", Col(Price()), Bin("-", mid, Bin("*", k, sd))),
                                    Bin("*", Bin("*", Lit("2"), k), sd)))) <= all
  {
    var low := Bin("-", mid, Bin("*", k, sd));
    assert Cols(Col(Price())) <= all && Cols(Lit("2")) <= all;
    hide Cols;
    BinCols("*", k, sd, all);
    BinCols("-", mid, Bin("*", k, sd), all);
    BinCols("-", Col(Price()), low, all);
    BinCols("*", Lit("2"), k, all);
    BinCols("*", Bin("*", Lit("2"), k), sd, all);
    BinCols("/", Bin("-", Col(Price()), low), Bin("*", Bin("*", Lit("2"), k), sd), all);
    UnCols("fill_nan", Bin("/", Bin("-", Col(Price()), low), Bin("*", Bin("*", Lit("2"), k), sd)), all);
  }

  lemma GoodPctB(n: nat, k: Expr, raw: set<string>)
    requires RAW <= raw && Cols(k) == {}
    ensures GoodPlan(PctB(n, k), raw)
  {
    BandDepsGood(n, k, raw);
    BandCols(n, k);
    hide Key, DepMap, Digits, CleanDeps, Read;
    var mid, sd := Read(Shared("sma", n)), Read(Shared("std", n));
    var all := raw + DepMap(BandDeps(n)).Keys;
    assert Price() in RAW;
    PctBCols(mid, sd, k, all);
  }

  lemma GoodAtr(n: nat, raw: set<string>)
    requires RAW <= raw
    ensures GoodPlan(Atr(n), raw)
  {
    var p := Atr(n);
    RangeIsGood(raw);
    DepKeys(p.deps);
    hide Key, DepMap, Digits, BaseExpr, KnownKind, CleanBase;
    assert Key(p.deps[0]) in DepMap(p.deps).Keys;
    assert Cols(p.build[0].expr) == {Key(p.deps[0])};
  }

  lemma GoodVwap(raw: set<string>)
    requires RAW <= raw
    ensures GoodPlan(Vwap(), raw)
  {
    var sum := Bin("+", Bin("+", Col("high"), Col("low")), Col("close"));
    assert Cols(Bin("+", Col("high"), Col("low"))) == {"high", "low"};
    assert Cols(sum) == {"high", "low", "close"};
    assert Cols(Bin("/", sum, Lit("3"))) == {"high", "low", "close"};
    assert Cols(Un("cum_sum", Bin("*", Bin("/", sum, Lit("3")), Col("volume")))) <= RAW;
    assert Cols(Vwap().build[0].expr) <= RAW;
  }

  lemma ValidCols(anchor: Option<Val>)
    ensures Cols(Valid(anchor)) <= RAW
  {
    assert Cols(Bin("&", Un("is_not_null", Col("vwap")), Un("is_not_nan", Col("vwap")))) == {"vwap"};
    assert Cols(Bin(">", Col("volume"), Lit("0"))) == {"volume"};
    assert Cols(Traded()) == {"vwap", "volume"};
    assert anchor.Some? ==> Cols(Bin(">=", Un("cast_datetime", Col("date")), Lit(Shown(anchor.value)))) == {"date"};
  }

  lemma GoodAvwap(anchor: Option<Val>, raw: set<string>)
    requires RAW <= raw
    ensures GoodPlan(Avwap(anchor), raw)
  {
    ValidCols(anchor);
    hide Valid;
    var valid := Valid(anchor);
    var num := Un("cum_sum", Bin("when", valid, Bin("*", Col("vwap"), Col("volume"))));
    var den := Un("cum_sum", Bin("when", valid, Col("volume")));
    var price := Bin("*", Col("vwap"), Col("volume"));
    assert Cols(price) <= RAW && Cols(Col("volume")) <= RAW && Cols(Lit("0")) == {};
    hide Cols;
    BinCols("when", valid, price, RAW);
    BinCols("when", valid, Col("volume"), RAW);
    UnCols("cum_sum", Bin("when", valid, price), RAW);
    UnCols("cum_sum", Bin("when", valid, Col("volume")), RAW);
    BinCols(">", den, Lit("0"), RAW);
    BinCols("&", valid, Bin(">", den, Lit("0")), RAW);
    BinCols("/", num, den, RAW);
    BinCols("when_or_null", Bin("&", valid, Bin(">", den, Lit("0"))), Bin("/", num, den), RAW);
  }

  lemma BinCols(op: string, a: Expr, b: Expr, all: set<string>)
    requires Cols(a) <= all && Cols(b) <= all
    ensures Cols(Bin(op, a, b)) <= all
  {
  }

  lemma UnCols(op: string, a: Expr, all: set<string>)
    requires Cols(a) <= all
    ensures Cols(Un(op, a)) <= all
  {
  }

  lemma GoodSar(params: seq<Param>, loops: Loops, raw: set<string>)
    requires RAW <= raw && "sar" !in raw
    ensures GoodPlan(Sar(params, loops), raw)
  {
    LoopReadsOnly("sar", params, ["sar"], {"high", "low"}, loops);
    hide ReadsOnly;
    assert {"high", "low"} <= RAW;
  }

  lemma GoodSupertrend(params: seq<Param>, loops: Loops, raw: set<string>)
    requires RAW <= raw && "supertrend" !in raw && "st_direction" !in raw
    ensures GoodPlan(Supertrend(params, loops), raw)
  {
    var p := Supertrend(params, loops);
    LoopReadsOnly("supertrend", params, ["supertrend", "st_direction"], {"high", "low", "close", Key(Range())}, loops);
    RangeIsGood(raw);
    DepKeys(p.deps);
    hide Key, DepMap, Digits, ReadsOnly, BaseExpr, KnownKind, CleanBase;
    assert Key(p.deps[0]) in DepMap(p.deps).Keys;
    assert {"high", "low", "close"} <= RAW;
  }

  lemma Good(name: string, params: seq<Param>, loops: Loops, raw: set<string>)
    requires RAW <= raw && "sar" !in raw && "supertrend" !in raw && "st_direction" !in raw
    requires Registered(name, params, loops).Some?
    ensures GoodPlan(Registered(name, params, loops).value, raw)
  {
    hide GoodPlan, Sma, Bbands, PctB, Atr, Vwap, Avwap, Sar, Supertrend;
    var n, k := Window(params), Constant(params, "k");
    GoodSma(n, raw);
    GoodBbands(n, k, raw);
    GoodPctB(n, k, raw);
    GoodAtr(n, raw);
    GoodVwap(raw);
    GoodAvwap(Find(params, "anchor"), raw);
    GoodSar(params, loops, raw);
    GoodSupertrend(params, loops, raw);
  }

  lemma CleanOuts(out: string)
    requires out in ["sma", "bb_mid", "bb_up", "bb_lo", "pct_b", "atr", "vwap", "avwap"]
    ensures CleanOut(out)
  {
  }

  lemma OutsAside(name: string, params: seq<Param>, loops: Loops, k: nat)
    requires Registered(name, params, loops).Some? && k < |Registered(name, params, loops).value.build|
    ensures var out := Registered(name, params, loops).value.build[k].name;
            out in ["sma", "bb_mid", "bb_up", "bb_lo", "pct_b", "atr", "vwap", "avwap"]
  {
    hide Key, Digits, Window, Constant, Find, Read, Shared, Valid, Loop;
    if name == "bbands" {
      MakesBands(Window(params), Constant(params, "k"), Registered(name, params, loops).value.build[k].name);
    } else if name == "avwap" {
      MakesAnchored(Find(params, "anchor"), Registered(name, params, loops).value.build[k].name);
    } else {
      hide Bbands, Avwap;
    }
  }

  lemma NeedsOf(name: string, params: seq<Param>, loops: Loops)
    requires Registered(name, params, loops).Some? && Registered(name, params, loops).value.late.Some?
    ensures Registered(name, params, loops).value.late.value.needs <= {"high", "low", "close", Key(Range())}
  {
    hide Key, Digits, Window, Constant, Find;
  }

  lemma PlainNames()
    ensures RawNames({"high", "low", "close"})
  {
  }

  /** No expression output lands on a column a loop reads. */
  lemma Unclobbered(a: string, x: seq<Param>, b: string, y: seq<Param>, loops: Loops, r: Req, k: nat)
    requires Registered(a, x, loops).Some? && Registered(b, y, loops).Some?
    requires Registered(a, x, loops).value.late.Some? && k < |Registered(b, y, loops).value.build|
    ensures Column(Registered(b, y, loops).value.build[k].name, r) !in Registered(a, x, loops).value.late.value.needs
  {
    var out := Registered(b, y, loops).value.build[k].name;
    OutsAside(b, y, loops, k);
    CleanOuts(out);
    NeedsOf(a, x, loops);
    hide Registered, Key, Column, Digits, RawNames;
    assert RawNames({"high", "low", "close"}) by { PlainNames(); }
    ColumnNotKey(out, r, Range());
    NotRaw(out, r, {"high", "low", "close"});
  }

  /** So requests from this part of the registry, in any number and order, each
      get what they mean alone, on any frame with the raw columns. */
  lemma BookNonInterference(df: Frame, reqs: seq<Req>, loops: Loops, ops: Ops, i: nat, out: string)
    requires RAW <= df.Keys && RawNames(df.Keys)
    requires "sar" !in df && "supertrend" !in df && "st_direction" !in df
    requires AllKnown(reqs, Book(loops)) && forall j :: 0 <= j < |reqs| ==> CleanReq(reqs[j])
    requires i < |reqs| && Makes(PlanOf(reqs[i], Book(loops)), out)
    ensures var n := Column(out, reqs[i]);
            n in Computed(df, reqs, Book(loops), ops)
            && Means(df, PlanOf(reqs[i], Book(loops)), ops, out, Computed(df, reqs, Book(loops), ops)[n])
  {
    hide Registered, GoodPlan, CleanReq, Means, Computed, Column, Owned;
    BookOwned(loops);
    forall j | 0 <= j < |reqs| ensures GoodPlan(PlanOf(reqs[j], Book(loops)), df.Keys) {
      Good(reqs[j].name, reqs[j].params, loops, df.Keys);
    }
    forall a, j, k | 0 <= a < |reqs| && 0 <= j < |reqs| && PlanOf(reqs[a], Book(loops)).late.Some?
      && 0 <= k < |PlanOf(reqs[j], Book(loops)).build|
      ensures Column(PlanOf(reqs[j], Book(loops)).build[k].name, reqs[j])
              !in PlanOf(reqs[a], Book(loops)).late.value.needs
    {
      Unclobbered(reqs[a].name, reqs[a].params, reqs[j].name, reqs[j].params, loops, reqs[j], k);
    }
    NonInterference(df, reqs, Book(loops), ops, i, out);
  }
}
