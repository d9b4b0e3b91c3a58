/** The credentials file (key-maint/app/credfile.py): reading it as
    docker-compose reads a dotenv file, and setting one variable in place. */
module Credfile {
  import opened Options
  import Text

  // ---- lines ----------------------------------------------------------

  /** What ends a line, beyond the newline. */
  predicate IsBreak(c: char) {
    var u := c as int;
    10 <= u <= 13 || 28 <= u <= 30 || u == 0x85 || u == 0x2028 || u == 0x2029
  }

  predicate Unbroken(s: string) {
    forall i :: 0 <= i < |s| ==> !IsBreak(s[i])
  }

  /** Where the first line stops. */
  function LineEnd(t: string): (k: nat)
    ensures k <= |t| && Unbroken(t[..k]) && (k < |t| ==> IsBreak(t[k]))
  {
    if t == "" || IsBreak(t[0]) then 0
    else
      var k := LineEnd(t[1..]);
      assert t[..1 + k] == [t[0]] + t[1..][..k];
      1 + k
  }

  /** The break there: a carriage return and a newline count as one. */
  function BreakLength(t: string, k: nat): (n: nat)
    requires k < |t|
    ensures 1 <= n <= |t| - k
  {
    if t[k] == '\r' && k + 1 < |t| && t[k + 1] == '\n' then 2 else 1
  }

  /** No empty line is counted after a final break. */
  function SplitLines(t: string): (ls: seq<string>)
    ensures forall i :: 0 <= i < |ls| ==> Unbroken(ls[i])
  {
    if t == "" then []
    else
      var k := LineEnd(t);
      if k == |t| then [t[..k]] else [t[..k]] + SplitLines(t[k + BreakLength(t, k)..])
  }

  /** A line and what ends it, one after another. */
  ghost function Woven(ls: seq<string>, ends: seq<string>): string
    requires |ls| == |ends|
  {
    if ls == [] then "" else ls[0] + ends[0] + Woven(ls[1..], ends[1..])
  }

  ghost predicate Ends(c: char) {
    c as int in {10, 11, 12, 13, 28, 29, 30, 0x85, 0x2028, 0x2029}
  }

  /** The `i`-th line ends in a carriage return and a newline, or in one of ten
      characters, but not in a return before a newline; or it is the last. */
  ghost predicate EndsWell(ls: seq<string>, ends: seq<string>, i: nat)
    requires i < |ls| == |ends|
  {
    && (forall j :: 0 <= j < |ls[i]| ==> !Ends(ls[i][j]))
    && (ends[i] == "\r\n" || (|ends[i]| == 1 && Ends(ends[i][0])) || (ends[i] == "" && ls[i] != "" && i == |ls| - 1))
    && (ends[i] == "\r" && i < |ls| - 1 ==> !(ls[i + 1] == "" && "\n" <= ends[i + 1]))
  }

  lemma BreaksAre(c: char)
    ensures IsBreak(c) <==> Ends(c)
  {
  }

  /** The lines are the text cut at its line ends, with nothing lost. */
  lemma {:induction false} SplitMeans(t: string) returns (ends: seq<string>)
    ensures |ends| == |SplitLines(t)| && Woven(SplitLines(t), ends) == t
    ensures forall i :: 0 <= i < |ends| ==> EndsWell(SplitLines(t), ends, i)
  {
    forall c { BreaksAre(c); }
    ends := [];
    if t != "" {
      var k := LineEnd(t);
      if k == |t| {
        ends := [""];
        assert t[..k] == t && t + "" == t;
        assert Woven([t], [""]) == t + "" + Woven([], []);
      } else {
        var n := BreakLength(t, k);
        var rest := t[k + n..];
        var more := SplitMeans(rest);
        ends := [t[k..k + n]] + more;
        WovenCons(t[..k], t[k..k + n], SplitLines(rest), more);
        assert t == t[..k] + t[k..k + n] + rest;
        FirstEnd(t, k, rest, more);
        forall i | 0 < i < |ends| ensures EndsWell(SplitLines(t), ends, i) {
          assert EndsWell(SplitLines(rest), more, i - 1);
        }
      }
    }
  }

  lemma WovenCons(l: string, e: string, ls: seq<string>, ends: seq<string>)
    requires |ls| == |ends|
    ensures Woven([l] + ls, [e] + ends) == l + e + Woven(ls, ends)
  {
    assert ([l] + ls)[1..] == ls && ([e] + ends)[1..] == ends;
  }

  lemma FirstEnd(t: string, k: nat, rest: string, more: seq<string>)
    requires k < |t| && k == LineEnd(t) && rest == t[k + BreakLength(t, k)..]
    requires |more| == |SplitLines(rest)| && Woven(SplitLines(rest), more) == rest
    ensures EndsWell([t[..k]] + SplitLines(rest), [t[k..k + BreakLength(t, k)]] + more, 0)
  {
    forall c { BreaksAre(c); }
    hide IsBreak, Ends, SplitLines;
    var ls := SplitLines(rest);
    assert ls != [] && ls[0] == "" && "\n" <= more[0] ==> rest != "" && rest[0] == '\n';
    if t[k] == '\r' && rest != "" { assert BreakLength(t, k) == 1 ==> rest[0] == t[k + 1]; }
  }

  function Join(ls: seq<string>): string {
    if ls == [] then "" else if |ls| == 1 then ls[0] else ls[0] + "\n" + Join(ls[1..])
  }

  lemma LineEndIs(line: string, rest: string)
    requires Unbroken(line)
    ensures LineEnd(line + "\n" + rest) == |line|
  {
    var t := line + "\n" + rest;
    assert t[|line|] == '\n';
    assert forall i :: 0 <= i < |line| ==> t[i] == line[i];
    LineEndAt(t, |line|);
  }

  lemma {:induction false} LineEndAt(t: string, n: nat)
    requires n < |t| && IsBreak(t[n]) && forall i :: 0 <= i < n ==> !IsBreak(t[i])
    ensures LineEnd(t) == n
    decreases n
  {
    if n > 0 { LineEndAt(t[1..], n - 1); }
  }

  lemma SplitOne(line: string, rest: string)
    requires Unbroken(line)
    ensures SplitLines(line + "\n" + rest) == [line] + SplitLines(rest)
  {
    hide IsBreak, LineEnd, Unbroken;
    LineEndIs(line, rest);
    var t := line + "\n" + rest;
    assert t[|line|] == '\n' && t[..|line|] == line && t[|line| + 1..] == rest;
  }

  /** Lines written out, each ended by a newline, read back as they were. */
  lemma {:induction false} SplitJoin(ls: seq<string>)
    requires ls != [] && forall i :: 0 <= i < |ls| ==> Unbroken(ls[i])
    ensures SplitLines(Join(ls) + "\n") == ls
  {
    hide Unbroken, SplitLines;
    assert SplitLines("") == [] by { NoLines(); }
    if |ls| == 1 {
      SplitOne(ls[0], "");
      assert Join(ls) + "\n" == ls[0] + "\n" + "";
      assert ls == [ls[0]] + [];
    } else {
      SplitJoin(ls[1..]);
      SplitOne(ls[0], Join(ls[1..]) + "\n");
      assert Join(ls) + "\n" == ls[0] + "\n" + (Join(ls[1..]) + "\n");
      assert ls == [ls[0]] + ls[1..];
    }
  }

  lemma NoLines()
    ensures SplitLines("") == []
  {
  }

  // ---- one line -------------------------------------------------------

  predicate NameStart(c: char) { 'A' <= c <= 'Z' || 'a' <= c <= 'z' || c == '_' }

  predicate NameChar(c: char) { NameStart(c) || '0' <= c <= '9' }

  predicate IsName(s: string) {
    s != "" && NameStart(s[0]) && forall i :: 0 <= i < |s| ==> NameChar(s[i])
  }

  function NameLength(line: string): (k: nat)
    ensures k <= |line| && (forall i :: 0 <= i < k ==> NameChar(line[i])) && (k < |line| ==> !NameChar(line[k]))
  {
    if line == "" || !NameChar(line[0]) then 0 else 1 + NameLength(line[1..])
  }

  datatype Line = Blank | Malformed | Assign(key: string, value: string)

  /** Where " #" first is, if anywhere. */
  function CommentAt(v: string): (k: nat)
    ensures k <= |v| && (k < |v| ==> k + 1 < |v| && v[k] == ' ' && v[k + 1] == '#')
    ensures forall i :: 0 <= i < k && i + 1 < |v| ==> !(v[i] == ' ' && v[i + 1] == '#')
  {
    if |v| < 2 then |v| else if v[0] == ' ' && v[1] == '#' then 0 else 1 + CommentAt(v[1..])
  }

  /** A value as read: an inline comment after a real value is cut off, a value
      that is itself a comment is kept. */
  function ReadValue(text: string): string {
    var v := Text.Strip(text);
    if v != "" && v[0] == '#' then v
    else if CommentAt(v) < |v| then Text.StripRight(v[..CommentAt(v)])
    else v
  }

  function ParseStripped(line: string): Line {
    if line == "" || line[0] == '#' then Blank
    else
      var k := NameLength(line);
      if k == 0 || !NameStart(line[0]) || k == |line| || line[k] != '=' then Malformed
      else Assign(line[..k], ReadValue(line[k + 1..]))
  }

  function ParseLine(raw: string): Line {
    ParseStripped(Text.Strip(raw))
  }

  ghost predicate Word(c: char, first: bool) {
    'A' <= c <= 'Z' || 'a' <= c <= 'z' || c == '_' || (!first && '0' <= c <= '9')
  }

  /** The line is a name of letters, digits and underscores, no digit first, an
      equals sign at `k` and a value. */
  ghost predicate Assignment(line: string, k: int) {
    0 < k < |line| && line[k] == '=' && forall i :: 0 <= i < k ==> Word(line[i], i == 0)
  }

  /** What a line says: nothing if blank or a comment; a value for a name; or it is
      malformed. */
  lemma ParseMeans(raw: string, k: int)
    ensures var line := Text.Strip(raw);
            && (ParseLine(raw) == Blank <==> line == "" || line[0] == '#')
            && (Assignment(line, k) ==> ParseLine(raw) == Assign(line[..k], ReadValue(line[k + 1..])))
            && (ParseLine(raw).Assign? ==> Assignment(line, |ParseLine(raw).key|))
  {
    hide ReadValue;
    var line := Text.Strip(raw);
    if line != "" && line[0] != '#' {
      var n := NameLength(line);
      if Assignment(line, k) {
        assert NameChar(line[0]) && NameStart(line[0]);
        forall i | 0 <= i < k ensures NameChar(line[i]) { assert Word(line[i], i == 0); }
        assert !NameChar(line[k]);
        assert n == k;
      }
    }
  }

  lemma NameMeans(s: string)
    ensures IsName(s) <==> s != "" && forall i :: 0 <= i < |s| ==> Word(s[i], i == 0)
  {
    if s != "" && forall i :: 0 <= i < |s| ==> Word(s[i], i == 0) {
      assert Word(s[0], true);
      forall i | 0 <= i < |s| ensures NameChar(s[i]) { assert Word(s[i], i == 0); }
    }
  }

  predicate Assigns(raw: string, key: string) {
    ParseLine(raw).Assign? && ParseLine(raw).key == key
  }

  // ---- the file -------------------------------------------------------

  type Vars = map<string, string>

  function Read(vars: Vars, raw: string): Vars {
    match ParseLine(raw)
    case Assign(key, value) => vars[key := value]
    case _ => vars
  }

  function ReadLines(vars: Vars, ls: seq<string>): Vars
    decreases ls
  {
    if ls == [] then vars else ReadLines(Read(vars, ls[0]), ls[1..])
  }

  /** The numbers of the malformed lines, the first being numbered `n`. */
  function Warnings(ls: seq<string>, n: nat): seq<nat> {
    if ls == [] then []
    else (if ParseLine(ls[0]).Malformed? then [n] else []) + Warnings(ls[1..], n + 1)
  }

  /** Each malformed line is told once, by its number, in order. */
  lemma {:induction false} WarningsMean(ls: seq<string>, n: nat, m: nat)
    ensures m in Warnings(ls, n) <==> n <= m < n + |ls| && ParseLine(ls[m - n]).Malformed?
    ensures forall i, j :: 0 <= i < j < |Warnings(ls, n)| ==> Warnings(ls, n)[i] < Warnings(ls, n)[j]
    ensures forall i :: 0 <= i < |Warnings(ls, n)| ==> n <= Warnings(ls, n)[i]
  {
    hide ParseLine;
    if ls != [] { WarningsMean(ls[1..], n + 1, m); }
  }

  function Count(ls: seq<string>, key: string): nat {
    if ls == [] then 0 else (if Assigns(ls[0], key) then 1 else 0) + Count(ls[1..], key)
  }

  function Written(key: string, value: string): string { key + "=" + value }

  /** The first assignment replaced, or one added at the end. */
  function SetLines(ls: seq<string>, key: string, value: string): seq<string> {
    if ls == [] then [Written(key, value)]
    else if Assigns(ls[0], key) then [Written(key, value)] + ls[1..]
    else [ls[0]] + SetLines(ls[1..], key, value)
  }

  // ---- a line written -------------------------------------------------

  lemma NameStops(key: string, rest: string)
    requires IsName(key)
    ensures NameLength(key + "=" + rest) == |key|
  {
    var line := key + "=" + rest;
    assert line[|key|] == '=';
    assert forall i :: 0 <= i < |key| ==> line[i] == key[i];
  }

  lemma StripKeepsHead(key: string, value: string)
    requires IsName(key)
    ensures Text.Strip(key + "=" + value) == key + "=" + Text.StripRight(value)
  {
    assert (key + "=" + value)[0] == key[0];
    assert Text.StripLeft(key + "=" + value) == key + "=" + value;
    TrimTail(key, value);
  }

  lemma {:induction false} TrimTail(key: string, value: string)
    ensures Text.StripRight(key + "=" + value) == key + "=" + Text.StripRight(value)
    decreases |value|
  {
    var s := key + "=" + value;
    if value == "" {
      assert s[|s| - 1] == '=';
    } else if Text.IsSpace(value[|value| - 1]) {
      assert s[..|s| - 1] == key + "=" + value[..|value| - 1];
      TrimTail(key, value[..|value| - 1]);
    }
  }

  /** Stripping the right end first changes nothing. */
  lemma {:induction false} StripTwice(value: string)
    ensures Text.Strip(Text.StripRight(value)) == Text.Strip(value)
    decreases |value|
  {
    hide Text.IsSpace, Text.Strip;
    if value != "" && Text.IsSpace(value[|value| - 1]) {
      var front, c := value[..|value| - 1], value[|value| - 1];
      StripTwice(front);
      DropSpace(front, c);
      assert value == front + [c];
      assert Text.StripRight(value) == Text.StripRight(front);
    } else {
      assert Text.StripRight(value) == value;
    }
  }

  lemma {:induction false} DropSpace(s: string, c: char)
    requires Text.IsSpace(c)
    ensures Text.Strip(s + [c]) == Text.Strip(s)
    decreases |s|
  {
    hide Text.IsSpace;
    if s == "" {
      assert s + [c] == [c] && [c][1..] == "";
    } else if Text.IsSpace(s[0]) {
      assert (s + [c])[1..] == s[1..] + [c];
      DropSpace(s[1..], c);
    } else {
      assert (s + [c])[0] == s[0];
      assert Text.StripLeft(s + [c]) == s + [c] && Text.StripLeft(s) == s;
      assert (s + [c])[..|s|] == s;
    }
  }

  /** A line written for a variable is an assignment to it, of the value as read. */
  lemma WrittenReads(key: string, value: string)
    requires IsName(key)
    ensures ParseLine(Written(key, value)) == Assign(key, ReadValue(value))
  {
    hide Text.Strip, Text.StripRight, Text.IsSpace, ParseStripped, CommentAt, IsName;
    StripKeepsHead(key, value);
    StripTwice(value);
    StrippedReads(key, Text.StripRight(value));
    assert ReadValue(Text.StripRight(value)) == ReadValue(value);
  }

  lemma StrippedReads(key: string, tail: string)
    requires IsName(key)
    ensures ParseStripped(key + "=" + tail) == Assign(key, ReadValue(tail))
  {
    NameStops(key, tail);
    Cut(key, tail);
    hide ReadValue, NameLength, IsName, NameStart;
  }

  lemma Cut(key: string, tail: string)
    requires IsName(key)
    ensures var line := key + "=" + tail;
            && line[0] == key[0] && NameStart(line[0]) && line[0] != '#'
            && line[|key|] == '=' && line[..|key|] == key && line[|key| + 1..] == tail
  {
  }

  /** A value reads back as it was exactly if it has no outer white space and,
      unless it begins with one, no comment sign after a space. */
  predicate RoundTrips(value: string) {
    && (value == "" || (!Text.IsSpace(value[0]) && !Text.IsSpace(value[|value| - 1])))
    && ((value != "" && value[0] == '#') || forall i :: 0 <= i < |value| - 1 ==>
        !(value[i] == ' ' && value[i + 1] == '#'))
  }

  lemma ReadValueIff(value: string)
    ensures ReadValue(value) == value <==> RoundTrips(value)
  {
    hide Text.IsSpace;
    var v := Text.Strip(value);
    StripKept(value);
    hide Text.Strip, Text.StripRight;
    if RoundTrips(value) {
      assert v == value;
    } else if v == value {
      assert CommentAt(v) < |v|;
    }
  }

  lemma StripKept(value: string)
    ensures |Text.Strip(value)| <= |value|
    ensures Text.Strip(value) == value <==>
            value == "" || (!Text.IsSpace(value[0]) && !Text.IsSpace(value[|value| - 1]))
    ensures forall k :: 0 <= k <= |value| ==> |Text.StripRight(value[..k])| <= k
  {
    hide Text.IsSpace;
    if value != "" && !Text.IsSpace(value[0]) { assert Text.StripLeft(value) == value; }
  }

  // ---- setting a variable ---------------------------------------------

  lemma {:induction false} ReadOver(vars: Vars, ls: seq<string>, key: string, value: string)
    ensures ReadLines(vars[key := value], ls) == if Count(ls, key) == 0 then ReadLines(vars, ls)[key := value]
            else ReadLines(vars, ls)
    decreases ls
  {
    hide ParseLine;
    if ls != [] {
      var line := ParseLine(ls[0]);
      if Assigns(ls[0], key) {
        assert Read(vars[key := value], ls[0]) == Read(vars, ls[0]);
      } else {
        assert Read(vars[key := value], ls[0]) == Read(vars, ls[0])[key := value];
        ReadOver(Read(vars, ls[0]), ls[1..], key, value);
      }
    }
  }

  lemma {:induction false} CountedIn(vars: Vars, ls: seq<string>, key: string)
    ensures Count(ls, key) > 0 ==> key in ReadLines(vars, ls)
    ensures Count(ls, key) == 0 ==>
      (key in ReadLines(vars, ls) <==> key in vars) && (key in vars ==> ReadLines(vars, ls)[key] == vars[key])
    decreases ls
  {
    if ls != [] { CountedIn(Read(vars, ls[0]), ls[1..], key); ReadKeeps(vars, ls[0], ls[1..], key); }
  }

  lemma {:induction false} ReadKeeps(vars: Vars, line: string, ls: seq<string>, key: string)
    ensures key in Read(vars, line) ==> key in ReadLines(Read(vars, line), ls)
    decreases ls
  {
    if ls != [] { ReadKeeps(Read(vars, line), ls[0], ls[1..], key); }
  }

  /** What the file says once a variable is set: that variable as the value reads
      back if it was assigned at most once, as before if it was assigned again
      further down -- and every other variable as before. */
  lemma {:induction false} SetReads(vars: Vars, ls: seq<string>, key: string, value: string)
    requires IsName(key)
    ensures ReadLines(vars, SetLines(ls, key, value))
         == if Count(ls, key) <= 1 then ReadLines(vars, ls)[key := ReadValue(value)] else ReadLines(vars, ls)
    decreases ls
  {
    hide ParseLine, ReadValue, Written, IsName;
    WrittenReads(key, value);
    var new' := SetLines(ls, key, value);
    if ls == [] {
      assert ReadLines(vars, new') == ReadLines(vars[key := ReadValue(value)], []);
    } else if Assigns(ls[0], key) {
      assert new'[1..] == ls[1..];
      var x := ParseLine(ls[0]).value;
      assert Read(vars, ls[0]) == vars[key := x];
      ReadOver(vars, ls[1..], key, ReadValue(value));
      ReadOver(vars, ls[1..], key, x);
    } else {
      assert new'[1..] == SetLines(ls[1..], key, value);
      SetReads(Read(vars, ls[0]), ls[1..], key, value);
    }
  }

  /** So the file then holds the new value, and nothing else has changed, exactly
      if the variable was assigned at most once and the value reads back, or it
      was assigned more often and its last assignment held that value already. */
  lemma SetIff(ls: seq<string>, key: string, value: string)
    requires IsName(key)
    ensures var was := ReadLines(map[], ls);
            ReadLines(map[], SetLines(ls, key, value)) == was[key := value]
            <==> if Count(ls, key) <= 1 then RoundTrips(value) else key in was && was[key] == value
  {
    var was := ReadLines(map[], ls);
    SetReads(map[], ls, key, value);
    ReadValueIff(value);
    CountedIn(map[], ls, key);
    hide RoundTrips, ReadLines, Count, SetLines, IsName;
    if Count(ls, key) <= 1 {
      var got := was[key := ReadValue(value)];
      assert got[key] == ReadValue(value) && was[key := value][key] == value;
    } else {
      assert was[key := value][key] == value;
      assert was[key] == value ==> was[key := value] == was;
    }
  }

  /** A file that assigns a variable twice: whatever it is set to, the file says
      what it said, which is the second value. */
  lemma SetLost(key: string, first: string, second: string, value: string)
    requires IsName(key) && RoundTrips(second)
    ensures var ls := [Written(key, first), Written(key, second)];
            && SetLines(ls, key, value) == [Written(key, value), Written(key, second)]
            && ReadLines(map[], SetLines(ls, key, value)) == ReadLines(map[], ls) == map[key := second]
  {
    ReadValueIff(second);
    WrittenReads(key, first);
    WrittenReads(key, second);
    WrittenReads(key, value);
    hide *;
    TwoWrites(Written(key, first), Written(key, second), key, ReadValue(first), second);
    TwoWrites(Written(key, value), Written(key, second), key, ReadValue(value), second);
    FirstReplaced(Written(key, first), Written(key, second), key, value);
  }

  lemma TwoWrites(a: string, b: string, key: string, x: string, y: string)
    requires ParseLine(a) == Assign(key, x) && ParseLine(b) == Assign(key, y)
    ensures ReadLines(map[], [a, b]) == map[key := y]
  {
    hide ParseLine;
    TwoLines(map[], a, b);
    assert Read(map[], a) == map[key := x];
    assert map[key := x][key := y] == map[key := y];
  }

  lemma FirstReplaced(a: string, b: string, key: string, value: string)
    requires Assigns(a, key)
    ensures SetLines([a, b], key, value) == [Written(key, value), b]
  {
    hide Assigns, Written;
    assert [a, b][1..] == [b];
  }

  lemma TwoLines(vars: Vars, a: string, b: string)
    ensures ReadLines(vars, [a, b]) == Read(Read(vars, a), b)
  {
    assert [a, b][1..] == [b] && [b][1..] == [];
    assert ReadLines(Read(vars, a), [b]) == Read(Read(vars, a), b);
  }

  /** Setting a variable neither adds nor removes a malformed line, nor moves one. */
  lemma {:induction false} SetWarnings(ls: seq<string>, key: string, value: string, n: nat)
    requires IsName(key)
    ensures Warnings(SetLines(ls, key, value), n) == Warnings(ls, n)
    decreases ls
  {
    hide ParseLine, Written, IsName;
    WrittenReads(key, value);
    var new' := SetLines(ls, key, value);
    if ls != [] {
      if Assigns(ls[0], key) {
        assert new'[1..] == ls[1..];
      } else {
        assert new'[1..] == SetLines(ls[1..], key, value);
        SetWarnings(ls[1..], key, value, n + 1);
      }
    } else {
      assert new'[1..] == [];
    }
  }

  /** Comments, blank lines and the other entries stay, in place. */
  lemma {:induction false} SetKeepsLines(ls: seq<string>, key: string, value: string, i: nat)
    requires i < |ls| && !Assigns(ls[i], key)
    ensures var new' := SetLines(ls, key, value);
            |ls| <= |new'| <= |ls| + 1 && (|new'| == |ls| <==> Count(ls, key) > 0) && new'[i] == ls[i]
    decreases ls
  {
    hide Assigns, Written;
    if Assigns(ls[0], key) {
    } else if |ls| > 1 && i > 0 {
      SetKeepsLines(ls[1..], key, value, i - 1);
    } else {
      SetLength(ls, key, value);
    }
  }

  lemma {:induction false} SetLength(ls: seq<string>, key: string, value: string)
    ensures |SetLines(ls, key, value)| == |ls| + if Count(ls, key) > 0 then 0 else 1
    decreases ls
  {
    if ls != [] && !Assigns(ls[0], key) { SetLength(ls[1..], key, value); }
  }

  /** Setting the same twice is setting it once. */
  lemma {:induction false} SetTwice(ls: seq<string>, key: string, value: string)
    requires IsName(key)
    ensures SetLines(SetLines(ls, key, value), key, value) == SetLines(ls, key, value)
    decreases ls
  {
    hide ParseLine, Written, IsName;
    WrittenReads(key, value);
    var new' := SetLines(ls, key, value);
    if ls != [] && !Assigns(ls[0], key) {
      assert new'[1..] == SetLines(ls[1..], key, value);
      SetTwice(ls[1..], key, value);
    } else {
      assert Assigns(new'[0], key);
      assert new'[1..] == if ls == [] then [] else ls[1..];
    }
  }

  // ---- the file on disk -----------------------------------------------

  datatype Outcome = Done | LineBreakInValue

  function LinesOf(text: Option<string>): seq<string> {
    if text.None? then [] else SplitLines(text.value)
  }

  class CredentialsFile {
    /** The file's text; none if it cannot be read. */
    var text: Option<string>

    constructor ()
      ensures text == None
    {
      text := None;
    }

    method Load() returns (vars: Option<Vars>)
      ensures vars == if text.None? then None else Some(ReadLines(map[], SplitLines(text.value)))
    {
      hide ParseLine, SplitLines, IsBreak;
      if text.None? { return None; }
      var ls := SplitLines(text.value);
      var out: Vars := map[];
      for i := 0 to |ls|
        invariant ReadLines(out, ls[i..]) == ReadLines(map[], ls)
      {
        assert ls[i..][1..] == ls[i + 1..];
        var line := ParseLine(ls[i]);
        if line.Assign? { out := out[line.key := line.value]; }
      }
      return Some(out);
    }

    method LoadWithWarnings() returns (vars: Option<Vars>, warnings: seq<nat>)
      ensures vars == if text.None? then None else Some(ReadLines(map[], SplitLines(text.value)))
      ensures warnings == if text.None? then [] else Warnings(SplitLines(text.value), 1)
    {
      hide ParseLine, SplitLines, IsBreak;
      if text.None? { return None, []; }
      var ls := SplitLines(text.value);
      var out: Vars := map[];
      warnings := [];
      for i := 0 to |ls|
        invariant ReadLines(out, ls[i..]) == ReadLines(map[], ls)
        invariant warnings + Warnings(ls[i..], i + 1) == Warnings(ls, 1)
      {
        assert ls[i..][1..] == ls[i + 1..];
        var line := ParseLine(ls[i]);
        if line.Malformed? {
          warnings := warnings + [i + 1];
        } else if line.Assign? {
          out := out[line.key := line.value];
        }
      }
      return Some(out), warnings;
    }

    method SetValue(key: string, value: string) returns (r: Outcome)
      requires Unbroken(key)
      modifies this
      ensures r == LineBreakInValue <==> !Unbroken(value)
      ensures r == LineBreakInValue ==> text == old(text)
      ensures r == Done ==>
        text.Some? && SplitLines(text.value)
                      == SetLines(if old(text).None? then [] else SplitLines(old(text).value), key, value)
    {
      OneLine(value);
      WrittenUnbroken(key, value);
      if value != "" && SplitLines(value) != [value] { return LineBreakInValue; }
      hide SplitLines, Join, SetLines, Unbroken, Written, ParseLine;
      var lines := LinesOf(text);
      var out := SetIn(lines, key, value);
      SetUnbroken(lines, key, value);
      SplitJoin(out);
      text := Some(Join(out) + "\n");
      return Done;
    }

    static method SetIn(lines: seq<string>, key: string, value: string) returns (out: seq<string>)
      ensures out == SetLines(lines, key, value)
    {
      hide Assigns, Written, SetLines;
      var replaced := false;
      out := [];
      for i := 0 to |lines|
        invariant SetLines(lines, key, value) == out + Remaining(replaced, lines[i..], key, value)
      {
        assert lines[i..] == [lines[i]] + lines[i + 1..];
        RemainingStep(out, replaced, lines[i], lines[i + 1..], key, value);
        if Assigns(lines[i], key) && !replaced {
          out := out + [Written(key, value)];
          replaced := true;
        } else {
          out := out + [lines[i]];
        }
      }
      NoneRemaining(replaced, key, value);
      hide Remaining;
      if !replaced { out := out + [Written(key, value)]; }
    }
  }

  /** What is still to come of the new lines. */
  function Remaining(replaced: bool, ls: seq<string>, key: string, value: string): seq<string> {
    if replaced then ls else SetLines(ls, key, value)
  }

  lemma RemainingStep(out: seq<string>, replaced: bool, line: string, rest: seq<string>, key: string, value: string)
    ensures var here := !replaced && Assigns(line, key);
            out + Remaining(replaced, [line] + rest, key, value)
            == (out + [if here then Written(key, value) else line]) + Remaining(replaced || here, rest, key, value)
  {
    SetStep(line, rest, key, value);
    hide Assigns, Written, SetLines;
  }

  lemma NoneRemaining(replaced: bool, key: string, value: string)
    ensures Remaining(replaced, [], key, value) == if replaced then [] else [Written(key, value)]
  {
  }

  lemma SetStep(line: string, rest: seq<string>, key: string, value: string)
    ensures SetLines([line] + rest, key, value)
         == if Assigns(line, key) then [Written(key, value)] + rest else [line] + SetLines(rest, key, value)
  {
    hide Assigns, Written;
    assert ([line] + rest)[1..] == rest;
  }

  lemma {:induction false} SetUnbroken(ls: seq<string>, key: string, value: string)
    requires Unbroken(Written(key, value)) && forall i :: 0 <= i < |ls| ==> Unbroken(ls[i])
    ensures var new' := SetLines(ls, key, value); new' != [] && forall i :: 0 <= i < |new'| ==> Unbroken(new'[i])
    decreases ls
  {
    hide Unbroken, Written, Assigns;
    if ls != [] && !Assigns(ls[0], key) { SetUnbroken(ls[1..], key, value); }
  }

  lemma WrittenUnbroken(key: string, value: string)
    ensures Unbroken("") && (Unbroken(key) && Unbroken(value) ==> Unbroken(Written(key, value)))
  {
  }

  lemma OneLine(value: string)
    ensures value != "" ==> (SplitLines(value) == [value] <==> Unbroken(value))
  {
    if value != "" {
      var k := LineEnd(value);
      assert value[..|value|] == value;
      if k < |value| { assert SplitLines(value)[0] == value[..k]; }
    }
  }

  /** Over a whole file: after setting a name to a value without a line break, the
      file reads as the old one with that variable set -- for a variable assigned
      at most once and a value that reads back -- with the same warnings. */
  lemma SetFile(before: Option<string>, after: Option<string>, key: string, value: string)
    requires IsName(key) && after.Some? && LinesOf(after) == SetLines(LinesOf(before), key, value)
    requires Count(LinesOf(before), key) <= 1 && RoundTrips(value)
    ensures ReadLines(map[], LinesOf(after)) == ReadLines(map[], LinesOf(before))[key := value]
    ensures Warnings(LinesOf(after), 1) == Warnings(LinesOf(before), 1)
  {
    SetIff(LinesOf(before), key, value);
    SetWarnings(LinesOf(before), key, value, 1);
  }
}
