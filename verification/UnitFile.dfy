/** The program of a systemd unit: reading it, and swapping it for another. */
module UnitFile {
  import opened Wrappers

  // ----- text -----

  predicate IsSpace(c: char) {
    || '\t' <= c <= '\r' || c == ' ' || c == '\U{85}' || c == '\U{A0}' || c == '\U{1680}'
    || '\U{2000}' <= c <= '\U{200A}' || c == '\U{2028}' || c == '\U{2029}' || c == '\U{202F}'
    || c == '\U{205F}' || c == '\U{3000}'
  }

  /** The characters with Unicode's White_Space property. */
  const SPACES: set<char> := {
    '\t', '\n', '\U{0B}', '\U{0C}', '\r', ' ', '\U{85}', '\U{A0}', '\U{1680}',
    '\U{2000}', '\U{2001}', '\U{2002}', '\U{2003}', '\U{2004}', '\U{2005}', '\U{2006}', '\U{2007}', '\U{2008}', '\U{2009}',
    '\U{200A}', '\U{2028}', '\U{2029}', '\U{202F}', '\U{205F}', '\U{3000}'}

  lemma SpacesExact(c: char)
    ensures IsSpace(c) <==> c in SPACES
  {
  }

  predicate SpaceFree(s: string) {
    forall k :: 0 <= k < |s| ==> !IsSpace(s[k])
  }

  function TrimLeft(s: string): string {
    if s != "" && IsSpace(s[0]) then TrimLeft(s[1..]) else s
  }

  function TrimRight(s: string): string {
    if s != "" && IsSpace(s[|s| - 1]) then TrimRight(s[..|s| - 1]) else s
  }

  function TrimSpace(s: string): string {
    TrimRight(TrimLeft(s))
  }

  function Word(s: string): (w: string)
    ensures w <= s && SpaceFree(w)
    ensures w == "" <==> s == "" || IsSpace(s[0])
    ensures |w| < |s| ==> IsSpace(s[|w|])
  {
    if s == "" || IsSpace(s[0]) then "" else [s[0]] + Word(s[1..])
  }

  /** The first field of a line, or nothing when it is blank. */
  function FirstField(s: string): string {
    Word(TrimLeft(s))
  }

  function TrimPrefix(s: string, p: string): string {
    if p <= s then s[|p|..] else s
  }

  function Join(lines: seq<string>): string {
    if lines == [] then ""
    else if |lines| == 1 then lines[0]
    else lines[0] + "\n" + Join(lines[1..])
  }

  function Split(s: string): (lines: seq<string>)
    ensures lines != []
  {
    if s == "" then [""]
    else
      var rest := Split(s[1..]);
      if s[0] == '\n' then [""] + rest else [[s[0]] + rest[0]] + rest[1..]
  }

  predicate OneLine(s: string) {
    '\n' !in s
  }

  lemma {:induction false} SplitJoin(s: string)
    ensures Join(Split(s)) == s
    ensures forall k :: 0 <= k < |Split(s)| ==> OneLine(Split(s)[k])
  {
    if s != "" {
      var rest := Split(s[1..]);
      SplitJoin(s[1..]);
      if s[0] == '\n' {
        assert Split(s)[1..] == rest;
        assert Join(Split(s)) == "" + "\n" + Join(rest);
      } else {
        assert Split(s)[1..] == rest[1..];
        assert Join(Split(s)) == [s[0]] + Join(rest);
      }
    }
  }

  lemma {:induction false} SplitLine(l: string, s: string)
    requires OneLine(l)
    ensures Split(l + "\n" + s) == [l] + Split(s)
  {
    if l == "" {
      assert (l + "\n" + s)[1..] == s;
    } else {
      var t := l + "\n" + s;
      assert t[1..] == l[1..] + "\n" + s;
      SplitLine(l[1..], s);
      assert [l[0]] + l[1..] == l;
    }
  }

  lemma {:induction false} SplitOne(l: string)
    requires OneLine(l)
    ensures Split(l) == [l]
  {
    if l != "" {
      SplitOne(l[1..]);
      assert [l[0]] + l[1..] == l;
    }
  }

  lemma {:induction false} JoinSplit(lines: seq<string>)
    requires lines != [] && forall k :: 0 <= k < |lines| ==> OneLine(lines[k])
    ensures Split(Join(lines)) == lines
  {
    if |lines| == 1 {
      SplitOne(lines[0]);
    } else {
      JoinSplit(lines[1..]);
      SplitLine(lines[0], Join(lines[1..]));
    }
  }

  // ----- fields -----

  lemma {:induction false} TrimRightAfter(a: string, s: string)
    requires a != "" && !IsSpace(a[|a| - 1])
    ensures TrimRight(a + s) == a + TrimRight(s)
  {
    if s != "" && IsSpace(s[|s| - 1]) {
      assert (a + s)[..|a + s| - 1] == a + s[..|s| - 1];
      TrimRightAfter(a, s[..|s| - 1]);
    } else if s == "" {
      assert a + s == a;
    }
  }

  lemma {:induction false} WordSpace(s: string, c: char)
    requires IsSpace(c)
    ensures Word(s + [c]) == Word(s)
  {
    if s != "" && !IsSpace(s[0]) {
      assert (s + [c])[1..] == s[1..] + [c];
      WordSpace(s[1..], c);
    }
  }

  lemma {:induction false} FieldSpace(s: string, c: char)
    requires IsSpace(c)
    ensures FirstField(s + [c]) == FirstField(s)
  {
    if s == "" {
      assert TrimLeft([c][1..]) == "";
      assert TrimLeft("" + [c]) == "";
    } else if IsSpace(s[0]) {
      assert (s + [c])[1..] == s[1..] + [c];
      FieldSpace(s[1..], c);
    } else {
      WordSpace(s, c);
    }
  }

  lemma {:induction false} FieldTrimmed(s: string)
    ensures FirstField(TrimRight(s)) == FirstField(s)
  {
    if s != "" && IsSpace(s[|s| - 1]) {
      var t := s[..|s| - 1];
      FieldTrimmed(t);
      FieldSpace(t, s[|s| - 1]);
      assert t + [s[|s| - 1]] == s;
    }
  }

  /** Nothing, or text set apart from what stands before it. */
  predicate Apart(s: string) {
    s == "" || IsSpace(s[0])
  }

  lemma {:induction false} WordIs(b: string, args: string)
    requires SpaceFree(b) && Apart(args)
    ensures Word(b + args) == b
  {
    if b == "" {
      assert b + args == args;
    } else {
      assert (b + args)[1..] == b[1..] + args;
      WordIs(b[1..], args);
    }
  }

  // ----- one line -----

  const KEY := "ExecStart="

  /** What stands after the program on a line with this value. When the value
      starts with a space the program is no prefix of it, and nothing is cut. */
  function Arguments(rest: string): string {
    TrimPrefix(rest, FirstField(rest))
  }

  lemma ArgumentsApart(rest: string)
    requires FirstField(rest) != ""
    ensures Apart(Arguments(rest))
    ensures !IsSpace(rest[0]) ==> rest == FirstField(rest) + Arguments(rest)
    ensures IsSpace(rest[0]) ==> Arguments(rest) == rest
  {
    var w := FirstField(rest);
    if !IsSpace(rest[0]) {
      assert TrimLeft(rest) == rest;
      assert w <= rest;
    } else {
      assert !(w <= rest);
    }
  }

  /** The program a line launches, or nothing. */
  function Program(line: string): string {
    var t := TrimSpace(line);
    if KEY <= t then FirstField(t[|KEY|..]) else ""
  }

  lemma ProgramOfKey(rest: string)
    ensures Program(KEY + rest) == FirstField(rest)
  {
    assert TrimLeft(KEY + rest) == KEY + rest;
    TrimRightAfter(KEY, rest);
    var t := TrimSpace(KEY + rest);
    assert t == KEY + TrimRight(rest) && KEY <= t && t[|KEY|..] == TrimRight(rest);
    FieldTrimmed(rest);
  }

  /** The line rewritten for a new program launches it. */
  lemma ProgramSwapped(rest: string, b: string)
    requires FirstField(rest) != "" && b != "" && SpaceFree(b)
    ensures FirstField(b + Arguments(rest)) == b && Arguments(b + Arguments(rest)) == Arguments(rest)
  {
    ArgumentsApart(rest);
    var args := Arguments(rest);
    var s := b + args;
    assert s[0] == b[0] && TrimLeft(s) == s;
    WordIs(b, args);
    assert b <= s && s[|b|..] == args;
  }

  // ----- the whole unit -----

  /** The first line from i on that starts with the key, or the number of lines. */
  function KeyLine(lines: seq<string>, i: nat): (k: nat)
    requires i <= |lines|
    ensures i <= k <= |lines| && (k < |lines| ==> KEY <= lines[k])
    ensures forall j :: i <= j < k ==> !(KEY <= lines[j])
    decreases |lines| - i
  {
    if i == |lines| || KEY <= lines[i] then i else KeyLine(lines, i + 1)
  }

  /** The first line from i on that launches something, or the number of lines. */
  function ProgramLine(lines: seq<string>, i: nat): (k: nat)
    requires i <= |lines|
    ensures i <= k <= |lines| && (k < |lines| ==> Program(lines[k]) != "")
    ensures forall j :: i <= j < k ==> Program(lines[j]) == ""
    decreases |lines| - i
  {
    if i == |lines| || Program(lines[i]) != "" then i else ProgramLine(lines, i + 1)
  }

  function Get(unit: string): string {
    var lines := Split(unit);
    var k := ProgramLine(lines, 0);
    if k < |lines| then Program(lines[k]) else ""
  }

  function Value(line: string): string
    requires KEY <= line
  {
    line[|KEY|..]
  }

  function Swapped(line: string, b: string): string
    requires KEY <= line
  {
    KEY + b + Arguments(Value(line))
  }

  function Set(unit: string, b: string): Option<string> {
    var lines := Split(unit);
    var k := KeyLine(lines, 0);
    if k == |lines| || FirstField(Value(lines[k])) == "" then None
    else Some(Join(lines[k := Swapped(lines[k], b)]))
  }

  method UnitExecStart(unit: string) returns (program: string)
    ensures program == Get(unit)
  {
    var lines := Split(unit);
    for i := 0 to |lines|
      invariant ProgramLine(lines, 0) == ProgramLine(lines, i)
    {
      var t := TrimSpace(lines[i]);
      if KEY <= t {
        var f := FirstField(t[|KEY|..]);
        if f != "" {
          return f;
        }
      }
    }
    return "";
  }

  method ReplaceUnitExecStart(unit: string, binary: string) returns (r: Option<string>)
    ensures r == Set(unit, binary)
  {
    var lines := Split(unit);
    for i := 0 to |lines|
      invariant KeyLine(lines, 0) == KeyLine(lines, i)
    {
      if KEY <= lines[i] {
        var rest := lines[i][|KEY|..];
        var f := FirstField(rest);
        if f == "" {
          return None;
        }
        lines := lines[i := KEY + binary + TrimPrefix(rest, f)];
        return Some(Join(lines));
      }
    }
    return None;
  }

  // ----- the laws -----

  function Spot(unit: string): nat {
    KeyLine(Split(unit), 0)
  }

  /** The first line with the key names a program. */
  predicate Settable(unit: string) {
    var lines := Split(unit);
    Spot(unit) < |lines| && FirstField(Value(lines[Spot(unit)])) != ""
  }

  /** The value the setter works on. */
  function Current(unit: string): string
    requires Settable(unit)
  {
    Value(Split(unit)[Spot(unit)])
  }

  lemma SwappedOneLine(line: string, b: string)
    requires KEY <= line && OneLine(line) && OneLine(b)
    ensures OneLine(Swapped(line, b))
  {
    var args := Arguments(Value(line));
    assert forall k :: 0 <= k < |args| ==> args[k] == line[|line| - |args| + k];
  }

  lemma {:induction false} KeyLineAt(lines: seq<string>, i: nat, k: nat)
    requires i <= k < |lines| && KEY <= lines[k] && forall j :: i <= j < k ==> !(KEY <= lines[j])
    ensures KeyLine(lines, i) == k
    decreases k - i
  {
    if i < k {
      KeyLineAt(lines, i + 1, k);
    }
  }

  lemma SettableExactly(u: string, b: string)
    ensures Set(u, b).Some? <==> Settable(u)
    ensures Settable(u) ==>
      var k, lines := Spot(u), Split(u); Set(u, b).value == Join(lines[k := Swapped(lines[k], b)])
  {
  }

  lemma RewrittenLines(u: string, b: string)
    requires Settable(u) && OneLine(b)
    ensures var k, lines := Spot(u), Split(u);
            var after := lines[k := Swapped(lines[k], b)];
            Split(Join(after)) == after
  {
    var k, lines := Spot(u), Split(u);
    SplitJoin(u);
    SwappedOneLine(lines[k], b);
    JoinSplit(lines[k := Swapped(lines[k], b)]);
  }

  /** v is u with the value of the line at its spot replaced. */
  ghost predicate Rewritten(u: string, v: string, value: string) {
    && Settable(u) && Split(v) == Split(u)[Spot(u) := KEY + value]
    && Spot(v) == Spot(u) && Value(Split(v)[Spot(u)]) == value
  }

  lemma RewrittenBy(u: string, v: string, value: string)
    requires Settable(u) && Split(v) == Split(u)[Spot(u) := KEY + value]
    ensures Rewritten(u, v, value)
  {
    KeyLineAt(Split(v), 0, Spot(u));
  }

  /** Setting rewrites one line and leaves every other as it was; on that line the
      new program stands before what followed the old one. */
  lemma SetFrame(u: string, b: string)
    requires OneLine(b)
    ensures Set(u, b).Some? <==> Settable(u)
    ensures Settable(u) ==> Rewritten(u, Set(u, b).value, b + Arguments(Current(u)))
  {
    SettableExactly(u, b);
    if Settable(u) {
      RewrittenLines(u, b);
      assert Swapped(Split(u)[Spot(u)], b) == KEY + (b + Arguments(Current(u)));
      RewrittenBy(u, Set(u, b).value, b + Arguments(Current(u)));
    }
  }

  /** An earlier line, indented, launches something: the getter reads that one,
      the setter passes it by. */
  predicate Shadowed(unit: string) {
    ProgramLine(Split(unit), 0) < Spot(unit)
  }

  lemma {:induction false} ProgramLineAt(lines: seq<string>, i: nat, k: nat)
    requires i <= k < |lines| && Program(lines[k]) != "" && forall j :: i <= j < k ==> Program(lines[j]) == ""
    ensures ProgramLine(lines, i) == k
    decreases k - i
  {
    if i < k {
      ProgramLineAt(lines, i + 1, k);
    }
  }

  lemma ProgramOfLine(line: string)
    requires KEY <= line
    ensures Program(line) == FirstField(Value(line))
  {
    ProgramOfKey(Value(line));
    assert KEY + Value(line) == line;
  }

  /** What the getter reads in a unit the setter accepts. */
  lemma GetIs(u: string)
    requires Settable(u)
    ensures Get(u) != "" && (!Shadowed(u) ==> Get(u) == FirstField(Current(u)))
  {
    var k, lines := Spot(u), Split(u);
    ProgramOfLine(lines[k]);
    if !Shadowed(u) {
      ProgramLineAt(lines, 0, k);
    }
  }

  lemma ShadowStays(u: string, b: string)
    requires b != "" && SpaceFree(b) && Settable(u)
    ensures Set(u, b).Some?
    ensures var v := Set(u, b).value;
            Settable(v) && Current(v) == b + Arguments(Current(u)) && (Shadowed(v) <==> Shadowed(u))
  {
    SetFrame(u, b);
    var v, k := Set(u, b).value, Spot(u);
    ProgramSwapped(Current(u), b);
    if Shadowed(u) {
      ProgramLineAt(Split(v), 0, ProgramLine(Split(u), 0));
    }
  }

  /** Reading after setting: the new program, unless an earlier indented line
      shadows it, which then keeps its own. */
  lemma GetAfterSet(u: string, b: string)
    requires b != "" && SpaceFree(b) && Settable(u)
    ensures Set(u, b).Some? && Get(Set(u, b).value) == if Shadowed(u) then Get(u) else b
  {
    ShadowStays(u, b);
    var v := Set(u, b).value;
    GetIs(v);
    ProgramSwapped(Current(u), b);
    if Shadowed(u) {
      SetFrame(u, b);
      ProgramLineAt(Split(v), 0, ProgramLine(Split(u), 0));
    }
  }

  /** Setting changes nothing exactly when the program is the current one and
      stands right after the key. */
  lemma SetSame(u: string, b: string)
    requires b != "" && OneLine(b)
    ensures Set(u, b) == Some(u) <==> Settable(u) && !IsSpace(Current(u)[0]) && b == FirstField(Current(u))
  {
    SetFrame(u, b);
    if Settable(u) {
      var rest := Current(u);
      ArgumentsApart(rest);
      var v := Set(u, b).value;
      SplitJoin(u);
      SplitJoin(v);
      assert Split(u)[Spot(u)] == KEY + rest;
      SameText(u, v);
      SameProgram(rest, b);
    }
  }

  lemma SameText(u: string, v: string)
    requires Settable(u) && Spot(u) < |Split(v)| && KEY <= Split(v)[Spot(u)]
    requires Split(v) == Split(u)[Spot(u) := KEY + Value(Split(v)[Spot(u)])]
    ensures u == v <==> Value(Split(v)[Spot(u)]) == Current(u)
  {
    var k := Spot(u);
    assert Split(u)[k] == KEY + Current(u);
    if Value(Split(v)[k]) == Current(u) {
      assert Split(u) == Split(v);
      SplitJoin(u);
      SplitJoin(v);
    }
  }

  lemma SameProgram(rest: string, b: string)
    requires FirstField(rest) != "" && b != ""
    ensures b + Arguments(rest) == rest <==> !IsSpace(rest[0]) && b == FirstField(rest)
  {
    ArgumentsApart(rest);
    var s := b + Arguments(rest);
    if s == rest {
      assert |Arguments(rest)| < |rest| && !IsSpace(rest[0]);
      assert b == rest[..|b|] && FirstField(rest) == rest[..|b|];
    }
  }

  lemma GetOneLine(u: string)
    ensures SpaceFree(Get(u)) && OneLine(Get(u))
  {
    assert IsSpace('\n');
  }

  /** Setting what is there already: the unit comes back unchanged exactly when no
      earlier line shows another program and none stands off from the key. */
  lemma SetAfterGet(u: string)
    requires Settable(u)
    ensures Set(u, Get(u)) == Some(u) <==> !IsSpace(Current(u)[0]) && Get(u) == FirstField(Current(u))
  {
    GetIs(u);
    GetOneLine(u);
    SetSame(u, Get(u));
  }

  /** The last setting wins. */
  lemma SetAfterSet(u: string, b: string, c: string)
    requires b != "" && SpaceFree(b) && OneLine(c) && Settable(u)
    ensures Set(u, b).Some? && Set(Set(u, b).value, c) == Set(u, c)
  {
    ShadowStays(u, b);
    var v := Set(u, b).value;
    SetFrame(u, b);
    SetFrame(u, c);
    SetFrame(v, c);
    ProgramSwapped(Current(u), b);
    var x, y := Set(v, c).value, Set(u, c).value;
    assert Split(x) == Split(y);
    SplitJoin(x);
    SplitJoin(y);
  }

  /** A first ExecStart line that starts in the first column with the program
      right after the key: the setter and the getter form a lens. */
  predicate Plain(unit: string) {
    Settable(unit) && !Shadowed(unit) && !IsSpace(Current(unit)[0])
  }

  lemma LensLaws(u: string, b: string, c: string)
    requires Plain(u) && b != "" && SpaceFree(b) && OneLine(c)
    ensures Set(u, Get(u)) == Some(u)
    ensures Set(u, b).Some? && Get(Set(u, b).value) == b && Plain(Set(u, b).value)
    ensures Set(Set(u, b).value, c) == Set(u, c)
    ensures Current(u) == Get(u) + Arguments(Current(u)) && Current(Set(u, b).value) == b + Arguments(Current(u))
  {
    GetIs(u);
    SetAfterGet(u);
    GetAfterSet(u, b);
    SetAfterSet(u, b, c);
    ShadowStays(u, b);
    ArgumentsApart(Current(u));
  }

  /** A space after the key makes the old program the new one's first argument. */
  lemma SpacedKeepsOld(u: string, b: string)
    requires Settable(u) && IsSpace(Current(u)[0]) && b != "" && SpaceFree(b)
    ensures Set(u, b).Some? && Settable(Set(u, b).value) && Current(Set(u, b).value) == b + Current(u)
  {
    ShadowStays(u, b);
    ArgumentsApart(Current(u));
  }

  lemma SingleLine(rest: string)
    requires OneLine(rest) && FirstField(rest) != ""
    ensures var u := KEY + rest; Settable(u) && Current(u) == rest && !Shadowed(u)
  {
    var u := KEY + rest;
    assert OneLine(KEY);
    SplitOne(u);
    KeyLineAt([u], 0, 0);
    assert Value(u) == rest;
  }

  lemma FieldAfterSpace(b: string)
    requires b != "" && SpaceFree(b)
    ensures FirstField(" " + b) == b && FirstField(b) == b
  {
    assert (" " + b)[1..] == b && TrimLeft(b) == b && TrimLeft(" " + b) == b;
    WordIs(b, "");
    assert b + "" == b;
  }

  /** One such unit: setting the program it already has doubles it. */
  lemma SpacedExample()
    ensures KeepsOld("ExecStart= /a", "/a", "/a /a")
  {
    assert KEY + " /a" == "ExecStart= /a";
    SpacedUnit();
  }

  /** The program read is set again, and the unit then starts value. */
  ghost predicate KeepsOld(u: string, program: string, value: string) {
    && Settable(u) && Get(u) == program && Set(u, program).Some?
    && Settable(Set(u, program).value) && Current(Set(u, program).value) == value
  }

  lemma SpacedUnit()
    ensures KeepsOld(KEY + " /a", "/a", "/a /a")
  {
    FieldAfterSpace("/a");
    assert " " + "/a" == " /a";
    SingleLine(" /a");
    GetIs(KEY + " /a");
    SpacedKeepsOld(KEY + " /a", "/a");
  }

  lemma ShadowingLines(a: string, b: string)
    requires a != "" && SpaceFree(a) && b != "" && SpaceFree(b)
    ensures var u := " " + KEY + a + "\n" + (KEY + b); Settable(u) && Shadowed(u) && Get(u) == a
  {
    var first, second := " " + KEY + a, KEY + b;
    var u := first + "\n" + second;
    assert IsSpace('\n') && OneLine(KEY) && OneLine(first) && OneLine(second);
    SplitLine(first, second);
    SplitOne(second);
    assert Split(u) == [first, second];
    FieldAfterSpace(a);
    FieldAfterSpace(b);
    IndentedProgram(a);
    assert Value(second) == b;
    KeyLineAt(Split(u), 0, 1);
    ProgramLineAt(Split(u), 0, 0);
  }

  lemma IndentedProgram(a: string)
    ensures Program(" " + KEY + a) == FirstField(a)
  {
    ProgramOfKey(a);
    assert (" " + KEY + a)[1..] == KEY + a;
    assert TrimLeft(" " + KEY + a) == TrimLeft(KEY + a);
  }

  /** In a shadowed unit the program just set is not the one read. */
  lemma ShadowedExample()
    ensures var u := " " + KEY + "/a" + "\n" + (KEY + "/b");
            Set(u, "/c").Some? && Get(Set(u, "/c").value) == "/a"
  {
    ShadowingLines("/a", "/b");
    GetAfterSet(" " + KEY + "/a" + "\n" + (KEY + "/b"), "/c");
  }
}
