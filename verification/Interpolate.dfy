/** Key templates: `{dotted.path}` holes filled from the payload. */
module Interpolate {
  import opened Wrappers
  import opened Text

  /** The payload reader that fills a hole; None leaves it empty. */
  type Lookup = string -> Option<string>

  // ----- string algebra -----

  lemma Regroup(a: string, text: string, path: string, rest: string, b: string)
    ensures a + (text + "{" + path + "}" + rest) == (a + text) + "{" + path + "}" + rest
    ensures (text + "{" + path + "}" + rest) + b == text + "{" + path + "}" + (rest + b)
    ensures a + (text + "{" + path) == (a + text) + "{" + path
  {
  }

  lemma Assoc(a: string, b: string, c: string, d: string)
    ensures a + (b + c + d) == ((a + b) + c) + d
    ensures (b + c + d) + a == b + c + (d + a)
  {
  }

  // ----- the first hole -----

  datatype Cut =
    | NoBrace
    | Unclosed(text: string, tail: string)
    | First(text: string, path: string, rest: string)

  /** The text before the first '{', the path up to the next '}', and the rest. */
  function CutHole(t: string): (c: Cut)
    ensures c.NoBrace? ==> '{' !in t
    ensures c.Unclosed? ==> t == c.text + "{" + c.tail && '{' !in c.text && '}' !in c.tail
    ensures c.First? ==> t == c.text + "{" + c.path + "}" + c.rest && '{' !in c.text && '}' !in c.path
  {
    CutAt(t, '{');
    var open := Find(t, '{');
    if open < 0 then NoBrace
    else
      var tail := t[open + 1..];
      CutAt(tail, '}');
      var end := Find(tail, '}');
      if end < 0 then Unclosed(t[..open], tail)
      else
        Regroup2(t[..open], tail[..end], tail[end + 1..]);
        First(t[..open], tail[..end], tail[end + 1..])
  }

  lemma Regroup2(text: string, path: string, rest: string)
    ensures text + "{" + (path + "}" + rest) == text + "{" + path + "}" + rest
  {
  }

  lemma CutUnique(text: string, path: string, rest: string)
    requires '{' !in text && '}' !in path
    ensures CutHole(text + "{" + path + "}" + rest) == First(text, path, rest)
  {
    var t, tail := text + "{" + path + "}" + rest, path + "}" + rest;
    assert t == text + ['{'] + tail && tail == path + ['}'] + rest;
    FindFirst(text, '{', tail);
    FindFirst(path, '}', rest);
    assert t[..|text|] == text && t[|text| + 1..] == tail;
    assert tail[..|path|] == path && tail[|path| + 1..] == rest;
  }

  lemma CutUnclosed(a: string, u: string)
    requires '{' !in a && '}' !in u
    ensures CutHole(a + "{" + u) == Unclosed(a, u)
  {
    var t := a + "{" + u;
    assert t == a + ['{'] + u;
    FindFirst(a, '{', u);
    assert t[..|a|] == a && t[|a| + 1..] == u;
  }

  // ----- templates as literals and holes -----

  datatype Token = Literal(text: string) | Hole(path: string)

  /** The template split at its holes; text from an unclosed brace on is literal. */
  function Tokens(t: string): seq<Token>
    decreases |t|
  {
    match CutHole(t)
    case First(text, path, rest) => [Literal(text), Hole(path)] + Tokens(rest)
    case _ => [Literal(t)]
  }

  function Fill(path: string, lookup: Lookup): string {
    match lookup(path)
    case Some(v) => v
    case None => ""
  }

  function Meaning(ts: seq<Token>, lookup: Lookup): string {
    if ts == [] then ""
    else (match ts[0] case Literal(text) => text case Hole(path) => Fill(path, lookup)) + Meaning(ts[1..], lookup)
  }

  function Source(ts: seq<Token>): string {
    if ts == [] then ""
    else (match ts[0] case Literal(text) => text case Hole(path) => "{" + path + "}") + Source(ts[1..])
  }

  lemma TwoTokens(text: string, path: string, rest: seq<Token>, lookup: Lookup)
    ensures Meaning([Literal(text), Hole(path)] + rest, lookup) == text + Fill(path, lookup) + Meaning(rest, lookup)
    ensures Source([Literal(text), Hole(path)] + rest) == text + "{" + path + "}" + Source(rest)
  {
    var ts := [Literal(text), Hole(path)] + rest;
    assert ts[1..] == [Hole(path)] + rest;
    assert ts[1..][1..] == rest;
  }

  lemma OneToken(t: string, lookup: Lookup)
    ensures Meaning([Literal(t)], lookup) == t && Source([Literal(t)]) == t
  {
    assert [Literal(t)][1..] == [];
  }

  /** The meaning of a template. */
  function Interp(t: string, lookup: Lookup): string {
    Meaning(Tokens(t), lookup)
  }

  lemma InterpHole(text: string, path: string, rest: string, lookup: Lookup)
    requires '{' !in text && '}' !in path
    ensures Interp(text + "{" + path + "}" + rest, lookup) == text + Fill(path, lookup) + Interp(rest, lookup)
  {
    CutUnique(text, path, rest);
    TwoTokens(text, path, Tokens(rest), lookup);
  }

  lemma InterpPlain(t: string, lookup: Lookup)
    requires !CutHole(t).First?
    ensures Interp(t, lookup) == t
  {
    OneToken(t, lookup);
  }

  /** The tokens spell the template: nothing is lost or invented. */
  lemma {:induction false} SourceOfTokens(t: string)
    ensures Source(Tokens(t)) == t
    decreases |t|
  {
    match CutHole(t)
    case First(text, path, rest) =>
      SourceOfTokens(rest);
      TwoTokens(text, path, Tokens(rest), _ => None);
    case _ => OneToken(t, _ => None);
  }

  // ----- the scanner -----

  lemma ScanCut(t: string, text: string, tail: string, end: int)
    requires Find(t, '{') >= 0 && text == t[..Find(t, '{')] && tail == t[Find(t, '{') + 1..]
    requires end == Find(tail, '}') >= 0
    ensures CutHole(t) == First(text, tail[..end], tail[end + 1..])
  {
  }

  lemma CutFills(t: string, text: string, path: string, rest: string, lookup: Lookup)
    requires CutHole(t) == First(text, path, rest)
    ensures Interp(t, lookup) == text + Fill(path, lookup) + Interp(rest, lookup)
  {
    InterpHole(text, path, rest, lookup);
  }

  lemma ScanStep(t: string, text: string, tail: string, end: int, lookup: Lookup)
    requires Find(t, '{') >= 0 && text == t[..Find(t, '{')] && tail == t[Find(t, '{') + 1..]
    requires end == Find(tail, '}') >= 0
    ensures Interp(t, lookup) == text + Fill(tail[..end], lookup) + Interp(tail[end + 1..], lookup)
  {
    ScanCut(t, text, tail, end);
    CutFills(t, text, tail[..end], tail[end + 1..], lookup);
  }

  lemma Accumulate(out: string, text: string, fill: string, rest: string, whole: string)
    requires out + (text + fill + rest) == whole
    ensures ((out + text) + fill) + rest == whole && (fill == "" ==> (out + text) + rest == whole)
  {
    Assoc(out, text, fill, rest);
    assert (out + text) + "" == out + text;
  }

  lemma NothingToFill(rest: string, lookup: Lookup)
    requires Find(rest, '{') < 0 || Find(rest[Find(rest, '{') + 1..], '}') < 0
    ensures Interp(rest, lookup) == rest
  {
    InterpPlain(rest, lookup);
  }

  /** One round of the scan: the text before the hole and the hole, filled, move to
      the output. */
  lemma Advance(out: string, rest: string, tail: string, open: int, end: int, whole: string, lookup: Lookup)
    requires out + Interp(rest, lookup) == whole
    requires open == Find(rest, '{') >= 0 && tail == rest[open + 1..] && end == Find(tail, '}') >= 0
    ensures var after, value := out + rest[..open], lookup(tail[..end]);
            (if value.Some? then after + value.value else after) + Interp(tail[end + 1..], lookup) == whole
  {
    ScanStep(rest, rest[..open], tail, end, lookup);
    Accumulate(out, rest[..open], Fill(tail[..end], lookup), Interp(tail[end + 1..], lookup), whole);
  }

  method Interpolate(template: string, lookup: Lookup) returns (out: string)
    ensures out == Interp(template, lookup)
  {
    out := "";
    var rest := template;
    ghost var whole := Interp(template, lookup);
    while true
      invariant out + Interp(rest, lookup) == whole
      decreases |rest|
    {
      var open := Find(rest, '{');
      if open < 0 {
        NothingToFill(rest, lookup);
        return out + rest;
      }
      var tail := rest[open + 1..];
      var end := Find(tail, '}');
      if end < 0 {
        NothingToFill(rest, lookup);
        return out + rest;
      }
      Advance(out, rest, tail, open, end, whole, lookup);
      out := out + rest[..open];
      var value := lookup(tail[..end]);
      if value.Some? {
        out := out + value.value;
      }
      rest := tail[end + 1..];
    }
  }

  // ----- concatenation -----

  /** Every opening brace has a closing one after it. */
  predicate Closed(t: string) {
    forall i :: 0 <= i < |t| && t[i] == '{' ==> '}' in t[i + 1..]
  }

  /** Scanning leaves no unclosed brace. */
  predicate ScansClosed(t: string)
    decreases |t|
  {
    match CutHole(t)
    case NoBrace => true
    case Unclosed(_, _) => false
    case First(_, _, rest) => ScansClosed(rest)
  }

  /** What follows a '}' decides whether the whole is closed. */
  lemma ClosedAfter(a: string, rest: string)
    ensures Closed(a + "}" + rest) <==> Closed(rest)
  {
    var t := a + "}" + rest;
    var k := |a|;
    forall i | 0 <= i < |rest| ensures t[k + 1 + i] == rest[i] && t[k + 1 + i + 1..] == rest[i + 1..] {
    }
    if Closed(t) {
      forall i | 0 <= i < |rest| && rest[i] == '{' ensures '}' in rest[i + 1..] {
        assert t[k + 1 + i] == '{';
      }
    }
    if Closed(rest) {
      forall i | 0 <= i < |t| && t[i] == '{' ensures '}' in t[i + 1..] {
        if i < k {
          assert t[i + 1..][k - i - 1] == '}';
        } else {
          assert rest[i - k - 1] == '{';
        }
      }
    }
  }

  lemma OpenTail(a: string, u: string)
    requires '}' !in u
    ensures !Closed(a + "{" + u)
  {
    var t := a + "{" + u;
    assert t[|a|] == '{' && t[|a| + 1..] == u;
  }

  /** Scanning leaves no unclosed brace exactly when every '{' has a '}' after it. */
  lemma {:induction false} ClosedExactly(t: string)
    ensures Closed(t) <==> ScansClosed(t)
    decreases |t|
  {
    match CutHole(t)
    case NoBrace =>
    case Unclosed(text, tail) => OpenTail(text, tail);
    case First(text, path, rest) =>
      ClosedExactly(rest);
      ClosedAfter(text + "{" + path, rest);
  }

  /** A literal in front of a hole. */
  lemma LiteralThenHole(a: string, text: string, path: string, rest: string, lookup: Lookup)
    requires '{' !in a && '{' !in text && '}' !in path
    ensures Interp(a + (text + "{" + path + "}" + rest), lookup) == a + Interp(text + "{" + path + "}" + rest, lookup)
  {
    Regroup(a, text, path, rest, "");
    InterpHole(text, path, rest, lookup);
    InterpHole(a + text, path, rest, lookup);
    Assoc(a, text, Fill(path, lookup), Interp(rest, lookup));
  }

  lemma LiteralThenOpen(a: string, text: string, tail: string, lookup: Lookup)
    requires '{' !in a && '{' !in text && '}' !in tail
    ensures Interp(a + (text + "{" + tail), lookup) == a + Interp(text + "{" + tail, lookup)
  {
    Regroup(a, text, tail, "", "");
    CutUnclosed(a + text, tail);
    CutUnclosed(text, tail);
    InterpPlain(text + "{" + tail, lookup);
    InterpPlain((a + text) + "{" + tail, lookup);
  }

  lemma LiteralPrefix(a: string, b: string, lookup: Lookup)
    requires '{' !in a
    ensures Interp(a + b, lookup) == a + Interp(b, lookup)
  {
    match CutHole(b)
    case NoBrace =>
      assert '{' !in a + b;
      InterpPlain(b, lookup);
      InterpPlain(a + b, lookup);
    case Unclosed(text, tail) => LiteralThenOpen(a, text, tail, lookup);
    case First(text, path, rest) => LiteralThenHole(a, text, path, rest, lookup);
  }

  lemma HoleThen(text: string, path: string, rest: string, b: string, lookup: Lookup)
    requires '{' !in text && '}' !in path && Interp(rest + b, lookup) == Interp(rest, lookup) + Interp(b, lookup)
    ensures Interp((text + "{" + path + "}" + rest) + b, lookup) ==
            Interp(text + "{" + path + "}" + rest, lookup) + Interp(b, lookup)
  {
    Regroup("", text, path, rest, b);
    InterpHole(text, path, rest, lookup);
    InterpHole(text, path, rest + b, lookup);
    Assoc(Interp(b, lookup), text, Fill(path, lookup), Interp(rest, lookup));
  }

  /** Interpolation distributes over concatenation when the first part leaves no
      brace open. */
  lemma {:induction false} Homomorphic(a: string, b: string, lookup: Lookup)
    requires Closed(a)
    ensures Interp(a + b, lookup) == Interp(a, lookup) + Interp(b, lookup)
    decreases |a|
  {
    ClosedExactly(a);
    match CutHole(a)
    case NoBrace =>
      InterpPlain(a, lookup);
      LiteralPrefix(a, b, lookup);
    case First(text, path, rest) =>
      ClosedExactly(rest);
      Homomorphic(rest, b, lookup);
      HoleThen(text, path, rest, b, lookup);
  }

  /** An unclosed brace and what follows it are copied as they are. */
  lemma UnclosedIsCopied(a: string, u: string, lookup: Lookup)
    requires Closed(a) && '}' !in u
    ensures Interp(a + "{" + u, lookup) == Interp(a, lookup) + "{" + u
  {
    Homomorphic(a, "{" + u, lookup);
    OpenIsPlain(u, lookup);
    Split3(a, u);
  }

  lemma OpenIsPlain(u: string, lookup: Lookup)
    requires '}' !in u
    ensures Interp("{" + u, lookup) == "{" + u
  {
    CutUnclosed("", u);
    assert "" + "{" + u == "{" + u;
    InterpPlain("{" + u, lookup);
  }

  lemma Split3(a: string, u: string)
    ensures forall b: string {:trigger b + "{" + u} :: b + "{" + u == b + ("{" + u)
  {
  }

  /** A template that is not closed is a closed part, an unclosed brace and the
      rest. */
  lemma {:induction false} UnclosedSplits(t: string) returns (a: string, u: string)
    requires !Closed(t)
    ensures t == a + "{" + u && Closed(a) && '}' !in u
    decreases |t|
  {
    ClosedExactly(t);
    match CutHole(t)
    case Unclosed(text, tail) =>
      a, u := text, tail;
    case First(text, path, rest) =>
      ClosedExactly(rest);
      var b;
      b, u := UnclosedSplits(rest);
      a := text + "{" + path + "}" + b;
      ClosedAfter(text + "{" + path, b);
      Rejoin(text, path, b, u);
  }

  lemma Rejoin(text: string, path: string, b: string, u: string)
    ensures text + "{" + path + "}" + (b + "{" + u) == (text + "{" + path + "}" + b) + "{" + u
  {
  }

  /** Every template: a closed one is its holes filled, any other is its closed
      part's meaning followed by an unclosed brace and the rest, as they stand. */
  lemma EveryTemplate(t: string, lookup: Lookup) returns (a: string, u: string)
    ensures Closed(a) && (Closed(t) ==> t == a)
    ensures !Closed(t) ==> t == a + "{" + u && '}' !in u && Interp(t, lookup) == Interp(a, lookup) + "{" + u
  {
    if Closed(t) {
      a, u := t, "";
    } else {
      a, u := UnclosedSplits(t);
      UnclosedIsCopied(a, u, lookup);
    }
  }
}
