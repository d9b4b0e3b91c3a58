/** Column names of the indicator engine (live-grid/app/ta/exprs.py,
    registry.py): the key of a shared sub-series, and the signature a request's
    parameters put on its output columns. */
module Columns {
  import opened Options

  predicate Lacks(s: string, c: char) {
    c !in s
  }

  // ---- numbers --------------------------------------------------------

  function Digit(n: nat): char
    requires n < 10
  {
    ('0' as int + n) as char
  }

  predicate IsDigits(s: string) {
    s != "" && forall i :: 0 <= i < |s| ==> '0' <= s[i] <= '9'
  }

  function Digits(n: nat): (s: string)
    ensures IsDigits(s) && (|s| == 1 <==> n < 10)
  {
    if n < 10 then [Digit(n)] else Digits(n / 10) + [Digit(n % 10)]
  }

  lemma {:induction false} DigitsInjective(a: nat, b: nat)
    requires Digits(a) == Digits(b)
    ensures a == b
  {
    var s, t := Digits(a), Digits(b);
    assert s[|s| - 1] == t[|t| - 1];
    assert a % 10 == b % 10;
    if a >= 10 && b >= 10 {
      assert s[..|s| - 1] == Digits(a / 10) && t[..|t| - 1] == Digits(b / 10);
      DigitsInjective(a / 10, b / 10);
    }
  }

  // ---- splitting ------------------------------------------------------

  lemma CutNotBefore(a: string, x: string, b: string, y: string, c: char)
    requires Lacks(b, c) && a + [c] + x == b + [c] + y
    ensures |b| <= |a|
  {
    assert (a + [c] + x)[|a|] == c;
  }

  /** Text is cut in one way at the first `c`. */
  lemma FirstCut(a: string, x: string, b: string, y: string, c: char)
    requires Lacks(a, c) && Lacks(b, c) && a + [c] + x == b + [c] + y
    ensures a == b && x == y
  {
    CutNotBefore(a, x, b, y, c);
    CutNotBefore(b, y, a, x, c);
    var l, r := a + [c] + x, b + [c] + y;
    assert a == l[..|a|] && b == r[..|b|] && x == l[|a| + 1..] && y == r[|b| + 1..];
  }

  // ---- base keys ------------------------------------------------------

  /** A shared sub-series: a primitive over a column. */
  datatype Base = Base(kind: string, col: string, period: nat)

  function Key(b: Base): string {
    b.kind + ":" + b.col + ":" + Digits(b.period)
  }

  predicate CleanBase(b: Base) {
    Lacks(b.kind, ':') && Lacks(b.col, ':') && Lacks(b.kind, '|') && Lacks(b.col, '|')
  }

  /** Different sub-series have different keys. */
  lemma KeyInjective(a: Base, b: Base)
    requires CleanBase(a) && CleanBase(b) && Key(a) == Key(b)
    ensures a == b
  {
    assert Key(a) == a.kind + [':'] + (a.col + [':'] + Digits(a.period));
    assert Key(b) == b.kind + [':'] + (b.col + [':'] + Digits(b.period));
    FirstCut(a.kind, a.col + [':'] + Digits(a.period), b.kind, b.col + [':'] + Digits(b.period), ':');
    FirstCut(a.col, Digits(a.period), b.col, Digits(b.period), ':');
    DigitsInjective(a.period, b.period);
  }

  // ---- request signatures ---------------------------------------------

  /** A value: a natural number, or the text of anything else, a fraction or a
      negative number included. */
  datatype Val = Whole(n: nat) | Text(s: string)

  function Shown(v: Val): string {
    match v case Whole(n) => Digits(n) case Text(s) => s
  }

  /** A parameter that has a value, and the unit it wears ("" for bars). */
  datatype Param = Param(key: string, val: Val, unit: string)

  /** `params` are sorted by key; those without a value do not count. */
  datatype Req = Req(name: string, params: seq<Param>, source: Option<string>)

  function Part(p: Param): string {
    p.key + "=" + Shown(p.val) + p.unit
  }

  function Parts(r: Req): seq<string> {
    seq(|r.params|, i requires 0 <= i < |r.params| => Part(r.params[i]))
    + if r.source.Some? then ["source=" + r.source.value] else []
  }

  function Join(parts: seq<string>): string {
    if parts == [] then "" else if |parts| == 1 then parts[0] else parts[0] + "," + Join(parts[1..])
  }

  function Suffix(r: Req): string {
    if Parts(r) == [] then "" else "|" + Join(Parts(r))
  }

  const DAYS := "bd"

  predicate EndsInDays(s: string) {
    |s| >= 2 && s[|s| - 2..] == DAYS
  }

  /** The parameters that are numbers and may wear a unit. */
  const NUMERIC := {
    "period", "k", "d", "fast", "slow", "signal", "smooth_k", "stoch_period", "atr_period", "mult", "acceleration",
    "maximum", "conversion", "base", "span_b", "displacement", "mid", "multiplier", "session_shift"}

  /** What the grammar of requests keeps out of parameters: a comma anywhere and an
      equals sign in a name. A numeric parameter is a number, whole or written out,
      and may wear a unit; any other is text and wears none. */
  predicate CleanParam(p: Param) {
    && Lacks(p.key, ',') && Lacks(p.key, '=') && p.key != "source"
    && (p.val.Text? ==> Lacks(p.val.s, ','))
    && if p.key in NUMERIC
       then (p.unit == "" || p.unit == DAYS) && (p.val.Text? ==> !IsDigits(p.val.s) && !EndsInDays(p.val.s))
       else p.val.Text? && p.unit == ""
  }

  predicate CleanReq(r: Req) {
    && (forall i :: 0 <= i < |r.params| ==> CleanParam(r.params[i]))
    && (r.source.Some? ==> Lacks(r.source.value, ','))
  }

  lemma PartInjective(a: Param, b: Param)
    requires CleanParam(a) && CleanParam(b) && Part(a) == Part(b)
    ensures a == b
  {
    FirstCut(a.key, Shown(a.val) + a.unit, b.key, Shown(b.val) + b.unit, '=') by {
      assert Part(a) == a.key + ['='] + (Shown(a.val) + a.unit);
      assert Part(b) == b.key + ['='] + (Shown(b.val) + b.unit);
    }
    hide NUMERIC;
    if a.key in NUMERIC {
      NumberEnds(a.val);
      NumberEnds(b.val);
      SameUnit(Shown(a.val), a.unit, Shown(b.val), b.unit);
      if a.val.Whole? && b.val.Whole? { DigitsInjective(a.val.n, b.val.n); }
    } else {
      assert Shown(a.val) + "" == Shown(a.val) && Shown(b.val) + "" == Shown(b.val);
    }
  }

  lemma NumberEnds(v: Val)
    ensures v.Whole? ==> IsDigits(Shown(v)) && !EndsInDays(Shown(v))
  {
    if v.Whole? && |Shown(v)| >= 2 { assert Shown(v)[|Shown(v)| - 2..][1] <= '9'; }
  }

  lemma SameUnit(x: string, u: string, y: string, w: string)
    requires x + u == y + w && (u == "" || u == DAYS) && (w == "" || w == DAYS)
    requires !EndsInDays(x) && !EndsInDays(y)
    ensures u == w && x == y
  {
    assert EndsInDays(x + DAYS) && EndsInDays(y + DAYS) by {
      assert (x + DAYS)[|x|..] == DAYS && (y + DAYS)[|y|..] == DAYS;
    }
    assert x + "" == x && y + "" == y;
    assert |x| == |y| ==> x == (x + u)[..|x|] && y == (y + w)[..|y|];
  }

  lemma JoinCommas(a: seq<string>)
    requires a != [] && forall i :: 0 <= i < |a| ==> Lacks(a[i], ',')
    ensures |a| > 1 <==> ',' in Join(a)
  {
    if |a| > 1 { assert Join(a)[|a[0]|] == ','; }
  }

  lemma {:induction false} JoinInjective(a: seq<string>, b: seq<string>)
    requires forall i :: 0 <= i < |a| ==> Lacks(a[i], ',')
    requires forall i :: 0 <= i < |b| ==> Lacks(b[i], ',')
    requires a != [] && b != [] && Join(a) == Join(b)
    ensures a == b
    decreases |a|
  {
    JoinCommas(a);
    JoinCommas(b);
    if |a| == 1 {
      assert a == [a[0]] && b == [b[0]];
    } else {
      assert Join(a) == a[0] + [','] + Join(a[1..]) && Join(b) == b[0] + [','] + Join(b[1..]);
      FirstCut(a[0], Join(a[1..]), b[0], Join(b[1..]), ',');
      JoinInjective(a[1..], b[1..]);
      assert a == [a[0]] + a[1..] && b == [b[0]] + b[1..];
    }
  }

  lemma PartsClean(r: Req)
    requires CleanReq(r)
    ensures forall i :: 0 <= i < |Parts(r)| ==> Lacks(Parts(r)[i], ',')
  {
    forall i | 0 <= i < |r.params| ensures Lacks(Part(r.params[i]), ',') {
      assert CleanParam(r.params[i]);
    }
  }

  /** The signature tells parameters, units and an explicit source apart. */
  lemma SuffixInjective(a: Req, b: Req)
    requires CleanReq(a) && CleanReq(b) && Suffix(a) == Suffix(b)
    ensures a.params == b.params && a.source == b.source
  {
    PartsClean(a);
    PartsClean(b);
    if Parts(a) != [] && Parts(b) != [] {
      assert Suffix(a)[1..] == Join(Parts(a)) && Suffix(b)[1..] == Join(Parts(b));
      JoinInjective(Parts(a), Parts(b));
    }
    assert Parts(a) == Parts(b);
    SameSource(a, b);
    forall i | 0 <= i < |a.params| ensures i < |b.params| && a.params[i] == b.params[i] {
      assert Parts(a)[i] == Part(a.params[i]) && Parts(b)[i] == Part(b.params[i]);
      PartInjective(a.params[i], b.params[i]);
    }
  }

  lemma NotSource(p: Param, source: string)
    requires CleanParam(p)
    ensures Part(p) != "source=" + source
  {
    if Part(p) == "source=" + source {
      FirstCut(p.key, Shown(p.val) + p.unit, "source", source, '=') by {
        assert Part(p) == p.key + ['='] + (Shown(p.val) + p.unit);
        assert "source=" + source == "source" + ['='] + source;
      }
    }
  }

  lemma SameSource(a: Req, b: Req)
    requires CleanReq(a) && CleanReq(b) && Parts(a) == Parts(b)
    ensures |a.params| == |b.params| && a.source == b.source
  {
    hide NUMERIC, CleanParam;
    var n := |Parts(a)| - 1;
    if a.source.Some? && b.source.None? {
      assert Parts(a)[n] == "source=" + a.source.value && Parts(b)[n] == Part(b.params[n]);
      NotSource(b.params[n], a.source.value);
    } else if a.source.None? && b.source.Some? {
      assert Parts(b)[n] == "source=" + b.source.value && Parts(a)[n] == Part(a.params[n]);
      NotSource(a.params[n], b.source.value);
    } else if a.source.Some? {
      assert Parts(a)[n] == "source=" + a.source.value && Parts(b)[n] == "source=" + b.source.value;
      assert ("source=" + a.source.value)[7..] == a.source.value && ("source=" + b.source.value)[7..] == b.source.value;
    }
  }

  /** An output column of a request. */
  function Column(out: string, r: Req): string {
    out + Suffix(r)
  }

  /** A request without parameters or source keeps the output's own name, and no
      other does. */
  lemma BareColumn(out: string, r: Req)
    ensures Column(out, r) == out <==> r.params == [] && r.source.None?
  {
    if r.params == [] && r.source.None? {
      assert Parts(r) == [];
      assert out + "" == out;
    }
  }

  /** What is asked of a request: no commas, names without an equals sign, and a unit
      on a number only. */
  lemma CleanMeans(r: Req)
    ensures CleanReq(r) <==>
            && (forall p :: p in r.params ==>
                  && ',' !in p.key && '=' !in p.key && p.key != "source" && (p.val.Text? ==> ',' !in p.val.s)
                  && if p.key in NUMERIC
                     then p.unit in ["", "bd"]
                          && (p.val.Text? ==>
                                !IsDigits(p.val.s) && !(|p.val.s| >= 2 && p.val.s[|p.val.s| - 2..] == "bd"))
                     else p.val.Text? && p.unit == "")
            && (r.source.Some? ==> ',' !in r.source.value)
  {
    forall s: string, c: char ensures Lacks(s, c) <==> c !in s { }
    hide Lacks, IsDigits, NUMERIC;
    assert forall i :: 0 <= i < |r.params| ==> r.params[i] in r.params;
  }

  predicate CleanOut(out: string) {
    Lacks(out, '|') && Lacks(out, ':')
  }

  lemma HasBar(out: string, r: Req)
    requires CleanOut(out)
    ensures '|' in Column(out, r) <==> Suffix(r) != ""
  {
    assert Suffix(r) != "" ==> Column(out, r)[|out|] == '|';
  }

  /** A column name tells the output and the request's parameters. */
  lemma ColumnInjective(x: string, a: Req, y: string, b: Req)
    requires CleanOut(x) && CleanOut(y) && CleanReq(a) && CleanReq(b) && Column(x, a) == Column(y, b)
    ensures x == y && a.params == b.params && a.source == b.source
  {
    HasBar(x, a);
    HasBar(y, b);
    if Suffix(a) != "" {
      assert Column(x, a) == x + ['|'] + Join(Parts(a)) && Column(y, b) == y + ['|'] + Join(Parts(b));
      FirstCut(x, Join(Parts(a)), y, Join(Parts(b)), '|');
    } else {
      assert Column(x, a) == x && Column(y, b) == y;
    }
    SuffixInjective(a, b);
  }

  /** No output column is a sub-series' key. */
  lemma ColumnNotKey(out: string, r: Req, b: Base)
    requires CleanOut(out) && CleanBase(b)
    ensures Column(out, r) != Key(b)
  {
    assert Key(b)[|b.kind|] == ':';
    assert Lacks(Digits(b.period), '|');
    HasBar(out, r);
  }
}
