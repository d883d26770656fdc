/** Searching text, as Python's find and Go's strings.IndexByte do. */
module Text {

  /** The first place of a character, or -1. */
  function Find(s: string, c: char): (i: int)
    ensures -1 <= i < |s|
    ensures i >= 0 ==> s[i] == c
    ensures forall j :: 0 <= j < (if i < 0 then |s| else i) ==> s[j] != c
  {
    if s == [] then -1
    else if s[0] == c then 0
    else
      var r := Find(s[1..], c);
      if r < 0 then -1 else r + 1
  }

  lemma FindFirst(a: string, c: char, b: string)
    requires c !in a
    ensures Find(a + [c] + b, c) == |a|
  {
    var s := a + [c] + b;
    assert s[|a|] == c;
    assert forall j :: 0 <= j < |a| ==> s[j] == a[j];
  }

  /** A text cut at the first place of a character. */
  lemma CutAt(t: string, c: char)
    ensures var i := Find(t, c);
            if i < 0 then c !in t else t == t[..i] + [c] + t[i + 1..] && c !in t[..i]
  {
  }
}
