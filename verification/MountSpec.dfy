/** Sandbox mount specifications, kind:target[=host:path|=volume:name], and the
    printer the parser inverts. */
module MountSpec {

  datatype Mount = Mount(kind: string, target: string, hostPath: string, volume: string)

  datatype Error =
    | BothSources | MissingKind | UnknownKind(kind: string) | MissingTarget
    | UnknownSource(source: string) | MalformedSource

  datatype Result<+T> = Ok(value: T) | Err(error: Error)

  const HOST_MARK := "=host:"
  const VOLUME_MARK := "=volume:"

  predicate Known(kind: string) {
    kind == "ro" || kind == "rw" || kind == "ephemeral"
  }

  // ----- finding text -----

  predicate OccursAt(s: string, pat: string, i: int) {
    0 <= i && i + |pat| <= |s| && s[i..i + |pat|] == pat
  }

  ghost predicate Occurs(s: string, pat: string) {
    exists i :: OccursAt(s, pat, i)
  }

  function IndexFrom(s: string, pat: string, i: nat): (r: int)
    ensures r >= -1
    ensures r < 0 ==> forall j :: i <= j ==> !OccursAt(s, pat, j)
    ensures r >= 0 ==> i <= r && OccursAt(s, pat, r) && forall j :: i <= j < r ==> !OccursAt(s, pat, j)
    decreases |s| - i
  {
    if OccursAt(s, pat, i) then i
    else if i >= |s| then -1
    else IndexFrom(s, pat, i + 1)
  }

  /** The first occurrence, or -1. */
  function Index(s: string, pat: string): (r: int)
    ensures r >= -1 && (r < 0 <==> !Occurs(s, pat))
    ensures r >= 0 ==> OccursAt(s, pat, r) && forall j :: j < r ==> !OccursAt(s, pat, j)
  {
    IndexFrom(s, pat, 0)
  }

  datatype Cut = Cut(before: string, after: string, found: bool)

  function CutColon(s: string): (r: Cut)
    ensures r.found ==> s == r.before + ":" + r.after && ':' !in r.before
    ensures !r.found ==> ':' !in s
  {
    var i := Index(s, ":");
    if i < 0 then
      assert forall j :: 0 <= j < |s| && s[j] == ':' ==> OccursAt(s, ":", j);
      Cut(s, "", false)
    else
      assert forall j :: 0 <= j < i && s[j] == ':' ==> OccursAt(s, ":", j);
      Cut(s[..i], s[i + 1..], true)
  }

  // ----- the parser -----

  datatype Head = Head(kind: string, target: string)

  function ParseHead(spec: string): Result<Head> {
    var c := CutColon(spec);
    if !c.found then Err(MissingKind)
    else if !Known(c.before) then Err(UnknownKind(c.before))
    else if c.after == "" then Err(MissingTarget)
    else Ok(Head(c.before, c.after))
  }

  /** No marker: any '=' is a malformed source. */
  function ParseBare(value: string, h: Head): Result<Mount> {
    var eq := Index(value, "=");
    if eq < 0 then Ok(Mount(h.kind, h.target, "", ""))
    else
      var c := CutColon(value[eq + 1..]);
      if c.found && c.before != "host" && c.before != "volume" && c.before != "" then Err(UnknownSource(c.before))
      else Err(MalformedSource)
  }

  function ParseSource(source: string, h: Head): Result<Mount> {
    var c := CutColon(source);
    if !c.found || c.after == "" then Err(MalformedSource)
    else if c.before == "host" then Ok(Mount(h.kind, h.target, c.after, ""))
    else if c.before == "volume" then Ok(Mount(h.kind, h.target, "", c.after))
    else Err(UnknownSource(c.before))
  }

  function ParseSourced(value: string, cut: nat): Result<Mount>
    requires cut < |value|
  {
    match ParseHead(value[..cut])
    case Err(e) => Err(e)
    case Ok(h) => ParseSource(value[cut + 1..], h)
  }

  function ParseUnsourced(value: string): Result<Mount> {
    match ParseHead(value)
    case Err(e) => Err(e)
    case Ok(h) => ParseBare(value, h)
  }

  function Parse(value: string): Result<Mount> {
    var host := Index(value, HOST_MARK);
    var volume := Index(value, VOLUME_MARK);
    if host >= 0 && volume >= 0 then Err(BothSources)
    else if host >= 0 then ParseSourced(value, host)
    else if volume >= 0 then ParseSourced(value, volume)
    else ParseUnsourced(value)
  }

  // ----- the printer -----

  function PrintSource(m: Mount): string {
    if m.hostPath != "" then HOST_MARK + m.hostPath
    else if m.volume != "" then VOLUME_MARK + m.volume
    else ""
  }

  function Print(m: Mount): string {
    m.kind + ":" + m.target + PrintSource(m)
  }

  /** The mounts that have a spelling: a known kind, a target, at most one source,
      and no marker but the one that introduces the source. */
  ghost predicate Printable(m: Mount) {
    && m.kind in {"ro", "rw", "ephemeral"} && m.target != ""
    && (m.hostPath == "" || m.volume == "")
    && (if m.hostPath == "" && m.volume == "" then '=' !in m.target
        else NoMark(m.target) && !Occurs(m.hostPath, VOLUME_MARK) && !Occurs(m.volume, HOST_MARK))
  }

  ghost predicate NoMark(s: string) {
    !Occurs(s, HOST_MARK) && !Occurs(s, VOLUME_MARK)
  }

  // ----- one marker -----

  /** '=' at the start and nowhere else: such a text never overlaps itself or
      another of its kind. */
  predicate Mark(pat: string) {
    |pat| > 0 && forall k :: 0 <= k < |pat| ==> (pat[k] == '=' <==> k == 0)
  }

  lemma OccursChar(s: string, pat: string, i: int, k: nat)
    requires OccursAt(s, pat, i) && k < |pat|
    ensures s[i + k] == pat[k]
  {
    assert s[i..i + |pat|][k] == s[i + k];
  }

  /** An occurrence of a marker in a + b, where b is empty or starts with '=',
      lies in one of them. */
  lemma MarkSplits(a: string, b: string, pat: string, i: int)
    requires Mark(pat) && (b == "" || b[0] == '=')
    ensures OccursAt(a + b, pat, i) <==> OccursAt(a, pat, i) || OccursAt(b, pat, i - |a|)
  {
    var s := a + b;
    if OccursAt(a, pat, i) {
      assert s[i..i + |pat|] == a[i..i + |pat|];
    }
    if OccursAt(b, pat, i - |a|) {
      assert s[i..i + |pat|] == b[i - |a|..i - |a| + |pat|];
    }
    if OccursAt(s, pat, i) {
      if i >= |a| {
        assert s[i..i + |pat|] == b[i - |a|..i - |a| + |pat|];
      } else if i + |pat| <= |a| {
        assert s[i..i + |pat|] == a[i..i + |pat|];
      } else {
        OccursChar(s, pat, i, |a| - i);
        assert false;
      }
    }
  }

  lemma MarkOccurs(a: string, b: string, pat: string)
    requires Mark(pat) && (b == "" || b[0] == '=')
    ensures Occurs(a + b, pat) <==> Occurs(a, pat) || Occurs(b, pat)
  {
    forall i ensures OccursAt(a + b, pat, i) <==> OccursAt(a, pat, i) || OccursAt(b, pat, i - |a|) {
      MarkSplits(a, b, pat, i);
    }
    if Occurs(b, pat) {
      var i :| OccursAt(b, pat, i);
      assert OccursAt(b, pat, i + |a| - |a|) && OccursAt(a + b, pat, i + |a|);
    }
  }

  lemma NoEqualsNoMark(s: string, pat: string)
    requires Mark(pat) && '=' !in s
    ensures !Occurs(s, pat)
  {
    forall i ensures !OccursAt(s, pat, i) {
      if OccursAt(s, pat, i) {
        OccursChar(s, pat, i, 0);
      }
    }
  }

  /** A source in the spelling of one marker holds the other exactly when the
      source text does. */
  lemma OtherMark(mark: string, other: string, p: string)
    requires Mark(mark) && Mark(other) && |mark| > 1 && |other| > 1 && mark[1] != other[1]
    ensures Occurs(mark + p, other) <==> Occurs(p, other)
  {
    var s := mark + p;
    if Occurs(p, other) {
      var i :| OccursAt(p, other, i);
      assert s[i + |mark|..i + |mark| + |other|] == p[i..i + |other|];
      assert OccursAt(s, other, i + |mark|);
    }
    if Occurs(s, other) {
      var i :| OccursAt(s, other, i);
      OccursChar(s, other, i, 0);
      OccursChar(s, other, i, 1);
      assert i >= |mark| && s[|mark|..] == p;
      assert s[|mark|..][i - |mark|..i - |mark| + |other|] == s[i..i + |other|];
      assert OccursAt(p, other, i - |mark|);
    }
  }

  // ----- parts of a specification -----

  lemma CutUnique(a: string, b: string)
    requires ':' !in a
    ensures CutColon(a + ":" + b) == Cut(a, b, true)
  {
    var s := a + ":" + b;
    var c := CutColon(s);
    assert s[|a|] == ':' && s[|c.before|] == ':';
    assert forall k :: 0 <= k < |a| ==> s[k] == a[k];
    assert forall k :: 0 <= k < |c.before| ==> s[k] == c.before[k];
    assert |c.before| == |a|;
    assert c.before == s[..|a|] && c.after == s[|a| + 1..];
  }

  lemma HeadExact(spec: string, h: Head)
    ensures ParseHead(spec) == Ok(h) <==> Known(h.kind) && h.target != "" && spec == h.kind + ":" + h.target
  {
    if Known(h.kind) {
      CutUnique(h.kind, h.target);
    }
  }

  /** source, less its '=', is the printed source of m, whose head is h. */
  ghost predicate SourceOf(m: Mount, h: Head, source: string) {
    && h == Head(m.kind, m.target) && (m.hostPath == "" || m.volume == "")
    && PrintSource(m) != "" && "=" + source == PrintSource(m)
  }

  lemma HostExact(p: string, h: Head, m: Mount)
    ensures ParseSource("host:" + p, h) == Ok(m) <==> SourceOf(m, h, "host:" + p)
  {
    assert "host:" + p == "host" + ":" + p;
    CutUnique("host", p);
    SourceText(m, HOST_MARK, p);
  }

  lemma VolumeExact(p: string, h: Head, m: Mount)
    ensures ParseSource("volume:" + p, h) == Ok(m) <==> SourceOf(m, h, "volume:" + p)
  {
    assert "volume:" + p == "volume" + ":" + p;
    CutUnique("volume", p);
    SourceText(m, VOLUME_MARK, p);
  }

  /** The printed source determines the source. */
  lemma SourceText(m: Mount, mark: string, p: string)
    requires mark == HOST_MARK || mark == VOLUME_MARK
    ensures mark == HOST_MARK ==> ("=" + ("host:" + p) == PrintSource(m) <==> m.hostPath == p && p != "")
    ensures mark == VOLUME_MARK ==> ("=" + ("volume:" + p) == PrintSource(m) <==> m.hostPath == "" && m.volume == p && p != "")
  {
    assert "=" + ("host:" + p) == HOST_MARK + p && "=" + ("volume:" + p) == VOLUME_MARK + p;
    var s := PrintSource(m);
    if m.hostPath != "" {
      assert s[1] == 'h' && s[6..] == m.hostPath;
    } else if m.volume != "" {
      assert s[1] == 'v' && s[8..] == m.volume;
    }
    assert (HOST_MARK + p)[6..] == p && (HOST_MARK + p)[1] == 'h';
    assert (VOLUME_MARK + p)[8..] == p && (VOLUME_MARK + p)[1] == 'v';
  }

  // ----- the parser inverts the printer -----

  lemma MarksAre()
    ensures Mark(HOST_MARK) && Mark(VOLUME_MARK) && Mark("=")
  {
  }

  /** Where the first marker of a printed form with a source stands. */
  lemma PrintedMark(spec: string, mark: string, other: string, p: string)
    requires (mark == HOST_MARK && other == VOLUME_MARK) || (mark == VOLUME_MARK && other == HOST_MARK)
    ensures Index(spec + (mark + p), mark) == |spec| <==> !Occurs(spec, mark)
    ensures Occurs(spec + (mark + p), other) <==> Occurs(spec, other) || Occurs(p, other)
  {
    MarksAre();
    var v := spec + (mark + p);
    MarkOccurs(spec, mark + p, other);
    OtherMark(mark, other, p);
    assert OccursAt(mark + p, mark, 0);
    forall i ensures OccursAt(v, mark, i) <==> OccursAt(spec, mark, i) || OccursAt(mark + p, mark, i - |spec|) {
      MarkSplits(spec, mark + p, mark, i);
    }
    if !Occurs(spec, mark) {
      assert OccursAt(v, mark, |spec|);
    } else {
      var i :| OccursAt(spec, mark, i);
      assert OccursAt(v, mark, i) && i < |spec|;
    }
  }

  /** Text without '=' before a target adds no marker. */
  lemma PrefixMark(a: string, t: string, pat: string)
    requires Mark(pat) && '=' !in a
    ensures Occurs(a + t, pat) <==> Occurs(t, pat)
  {
    var s := a + t;
    if Occurs(t, pat) {
      var i :| OccursAt(t, pat, i);
      assert s[|a|..] == t && s[|a|..][i..i + |pat|] == s[i + |a|..i + |a| + |pat|];
      assert OccursAt(s, pat, i + |a|);
    }
    if Occurs(s, pat) {
      var i :| OccursAt(s, pat, i);
      OccursChar(s, pat, i, 0);
      assert i >= |a| && s[|a|..] == t;
      assert s[|a|..][i - |a|..i - |a| + |pat|] == s[i..i + |pat|];
      assert OccursAt(t, pat, i - |a|);
    }
  }

  function Spec(m: Mount): string {
    m.kind + ":" + m.target
  }

  lemma SpecMark(m: Mount, pat: string)
    requires Mark(pat) && Known(m.kind)
    ensures Occurs(Spec(m), pat) <==> Occurs(m.target, pat)
  {
    PrefixMark(m.kind + ":", m.target, pat);
    assert Spec(m) == m.kind + ":" + m.target;
  }

  lemma EqualsOccurs(s: string)
    ensures Occurs(s, "=") <==> '=' in s
  {
    if '=' in s {
      var i :| 0 <= i < |s| && s[i] == '=';
      assert OccursAt(s, "=", i);
    } else {
      NoEqualsNoMark(s, "=");
    }
  }

  lemma UnsourcedExact(v: string, m: Mount)
    ensures ParseUnsourced(v) == Ok(m) <==>
      (&& m.hostPath == "" && m.volume == "" && Known(m.kind) && m.target != ""
       && v == Spec(m) && '=' !in v)
  {
    HeadExact(v, Head(m.kind, m.target));
    EqualsOccurs(v);
  }

  lemma {:induction false} MarkedRest(v: string, cut: nat, mark: string)
    requires OccursAt(v, mark, cut) && (mark == HOST_MARK || mark == VOLUME_MARK)
    ensures v[cut..] == mark + v[cut + |mark|..]
    ensures mark == HOST_MARK ==> v[cut + 1..] == "host:" + v[cut + 6..]
    ensures mark == VOLUME_MARK ==> v[cut + 1..] == "volume:" + v[cut + 8..]
  {
    assert v[cut..] == v[cut..cut + |mark|] + v[cut + |mark|..];
    assert v[cut + 1..] == v[cut..][1..];
    assert mark == HOST_MARK ==> mark[1..] == "host:";
    assert mark == VOLUME_MARK ==> mark[1..] == "volume:";
  }

  /** What both parses with a source come to. */
  ghost predicate SpelledAt(m: Mount, v: string, cut: nat) {
    && Known(m.kind) && m.target != "" && (m.hostPath == "" || m.volume == "") && PrintSource(m) != ""
    && cut <= |v| && v[..cut] == Spec(m) && v[cut..] == PrintSource(m)
  }

  lemma SourceExact(v: string, cut: nat, mark: string, h: Head, m: Mount)
    requires OccursAt(v, mark, cut) && (mark == HOST_MARK || mark == VOLUME_MARK)
    ensures ParseSource(v[cut + 1..], h) == Ok(m) <==> SourceOf(m, h, v[cut + 1..])
  {
    MarkedRest(v, cut, mark);
    if mark == HOST_MARK {
      HostExact(v[cut + 6..], h, m);
    } else {
      VolumeExact(v[cut + 8..], h, m);
    }
  }

  lemma EqualsRest(v: string, cut: nat, mark: string)
    requires OccursAt(v, mark, cut) && (mark == HOST_MARK || mark == VOLUME_MARK)
    ensures "=" + v[cut + 1..] == v[cut..]
  {
    OccursChar(v, mark, cut, 0);
  }

  lemma SourcedExact(v: string, cut: nat, mark: string, m: Mount)
    requires OccursAt(v, mark, cut) && (mark == HOST_MARK || mark == VOLUME_MARK)
    ensures ParseSourced(v, cut) == Ok(m) <==> SpelledAt(m, v, cut)
  {
    var h := Head(m.kind, m.target);
    EqualsRest(v, cut, mark);
    HeadExact(v[..cut], h);
    SourceExact(v, cut, mark, h, m);
    SourcedHead(v, cut, m);
  }

  lemma SourcedHead(v: string, cut: nat, m: Mount)
    requires cut < |v|
    ensures ParseSourced(v, cut) == Ok(m) <==>
      var h := Head(m.kind, m.target); ParseHead(v[..cut]) == Ok(h) && ParseSource(v[cut + 1..], h) == Ok(m)
  {
  }

  lemma PrintParts(m: Mount)
    ensures Print(m) == Spec(m) + PrintSource(m)
    ensures Print(m)[..|Spec(m)|] == Spec(m) && Print(m)[|Spec(m)|..] == PrintSource(m)
  {
  }

  lemma NothingOccurs(pat: string)
    requires pat != ""
    ensures !Occurs("", pat)
  {
  }

  /** A printed form holds exactly the marker of its source, right after the
      target. */
  lemma PrintedMarks(m: Mount)
    requires Printable(m)
    ensures Index(Print(m), HOST_MARK) == if m.hostPath != "" then |Spec(m)| else -1
    ensures Index(Print(m), VOLUME_MARK) == if m.volume != "" then |Spec(m)| else -1
  {
    MarksAre();
    PrintParts(m);
    SpecMark(m, HOST_MARK);
    SpecMark(m, VOLUME_MARK);
    if m.hostPath != "" {
      PrintedMark(Spec(m), HOST_MARK, VOLUME_MARK, m.hostPath);
    } else if m.volume != "" {
      PrintedMark(Spec(m), VOLUME_MARK, HOST_MARK, m.volume);
    } else {
      assert Print(m) == Spec(m);
      NoEqualsNoMark(m.target, HOST_MARK);
      NoEqualsNoMark(m.target, VOLUME_MARK);
    }
  }

  lemma MarkStarts(m: Mount)
    requires PrintSource(m) != ""
    ensures OccursAt(Print(m), if m.hostPath != "" then HOST_MARK else VOLUME_MARK, |Spec(m)|)
  {
    PrintParts(m);
    var mark := if m.hostPath != "" then HOST_MARK else VOLUME_MARK;
    assert Print(m)[|Spec(m)|..][..|mark|] == PrintSource(m)[..|mark|];
  }

  lemma BarePrint(m: Mount)
    requires Printable(m) && PrintSource(m) == ""
    ensures Print(m) == Spec(m) && '=' !in Spec(m)
  {
    assert Print(m) == Spec(m);
  }

  lemma PrintParseBare(m: Mount)
    requires Printable(m) && PrintSource(m) == ""
    ensures Parse(Print(m)) == Ok(m)
  {
    PrintedMarks(m);
    BarePrint(m);
    UnsourcedExact(Spec(m), m);
  }

  /** Printing then parsing gives the mount back. */
  lemma PrintParse(m: Mount)
    requires Printable(m)
    ensures Parse(Print(m)) == Ok(m)
  {
    if PrintSource(m) == "" {
      PrintParseBare(m);
    } else {
      PrintedMarks(m);
      PrintParts(m);
      MarkStarts(m);
      SourcedExact(Print(m), |Spec(m)|, if m.hostPath != "" then HOST_MARK else VOLUME_MARK, m);
    }
  }

  lemma SpelledIsPrinted(m: Mount, v: string, cut: nat)
    requires SpelledAt(m, v, cut)
    ensures v == Print(m) && cut == |Spec(m)|
  {
    assert v == v[..cut] + v[cut..];
    PrintParts(m);
  }

  /** A spelling whose only marker stands at cut, and is the first of its kind. */
  lemma SpelledPrintable(m: Mount, v: string, cut: nat, mark: string, other: string)
    requires (mark == HOST_MARK && other == VOLUME_MARK) || (mark == VOLUME_MARK && other == HOST_MARK)
    requires SpelledAt(m, v, cut) && Index(v, mark) == cut && !Occurs(v, other)
    ensures Printable(m)
  {
    MarksAre();
    SpelledIsPrinted(m, v, cut);
    PrintParts(m);
    OccursChar(v, mark, cut, 1);
    assert PrintSource(m)[1] == mark[1];
    var p := if mark == HOST_MARK then m.hostPath else m.volume;
    assert PrintSource(m) == mark + p;
    PrintedMark(Spec(m), mark, other, p);
    SpecMark(m, mark);
    SpecMark(m, other);
    NothingOccurs(mark);
    NothingOccurs(other);
  }

  lemma UnsourcedPrintable(m: Mount, v: string)
    requires ParseUnsourced(v) == Ok(m)
    ensures Printable(m) && v == Print(m)
  {
    UnsourcedExact(v, m);
    PrintParts(m);
    assert forall k :: 0 <= k < |m.target| ==> m.target[k] == v[|m.kind| + 1 + k];
  }

  /** What parses is the printed form of its result. */
  lemma ParsePrint(v: string, m: Mount)
    requires Parse(v) == Ok(m)
    ensures Printable(m) && v == Print(m)
  {
    var host := Index(v, HOST_MARK);
    var volume := Index(v, VOLUME_MARK);
    if host >= 0 {
      SourcedExact(v, host, HOST_MARK, m);
      SpelledIsPrinted(m, v, host);
      SpelledPrintable(m, v, host, HOST_MARK, VOLUME_MARK);
    } else if volume >= 0 {
      SourcedExact(v, volume, VOLUME_MARK, m);
      SpelledIsPrinted(m, v, volume);
      SpelledPrintable(m, v, volume, VOLUME_MARK, HOST_MARK);
    } else {
      UnsourcedPrintable(m, v);
    }
  }

  // ----- every other value has its one error -----

  /** value is spec, then the first marker in it and all that follows, if any. */
  ghost predicate Cuts(value: string, spec: string, rest: string) {
    && value == spec + rest
    && (if Occurs(value, HOST_MARK) then FirstMark(value, HOST_MARK, |spec|)
        else if Occurs(value, VOLUME_MARK) then FirstMark(value, VOLUME_MARK, |spec|)
        else rest == "")
  }

  ghost predicate FirstMark(value: string, mark: string, at: int) {
    OccursAt(value, mark, at) && forall j :: j < at ==> !OccursAt(value, mark, j)
  }

  /** What is wrong with a kind and a target. */
  ghost predicate HeadFault(spec: string, e: Error) {
    match e
    case MissingKind => ':' !in spec
    case UnknownKind(kind) => ':' !in kind && kind + ":" <= spec && kind !in {"ro", "rw", "ephemeral"}
    case MissingTarget => spec in {"ro:", "rw:", "ephemeral:"}
    case _ => false
  }

  /** The text after the first '=' names a source that is none. */
  ghost predicate NamesSource(value: string, source: string) {
    exists a, b :: Sources(value, source, a, b)
  }

  ghost predicate Sources(value: string, source: string, a: string, b: string) {
    '=' !in a && ':' !in source && value == a + "=" + source + ":" + b && source !in {"", "host", "volume"}
  }

  /** What is wrong with a source: nothing after its marker, or an '=' and no
      marker. */
  ghost predicate SourceFault(value: string, rest: string, e: Error) {
    match e
    case MalformedSource => if rest == "" then '=' in value && forall s :: !NamesSource(value, s) else rest in {HOST_MARK, VOLUME_MARK}
    case UnknownSource(source) => rest == "" && NamesSource(value, source)
    case _ => false
  }

  /** e is what is wrong with the value: two markers, or else the head, or else the
      source. */
  ghost predicate Fault(value: string, e: Error) {
    if Occurs(value, HOST_MARK) && Occurs(value, VOLUME_MARK) then e == BothSources
    else exists spec, rest :: Cuts(value, spec, rest) && FaultAt(value, spec, rest, e)
  }

  ghost predicate FaultAt(value: string, spec: string, rest: string, e: Error) {
    HeadFault(spec, e) || ((forall h :: !HeadFault(spec, h)) && SourceFault(value, rest, e))
  }

  /** The kind is what stands before the first ':'. */
  lemma KindIs(spec: string, kind: string)
    ensures ':' !in kind && kind + ":" <= spec <==> CutColon(spec).found && CutColon(spec).before == kind
  {
    var c := CutColon(spec);
    if ':' !in kind && kind + ":" <= spec {
      assert spec == kind + ":" + spec[|kind| + 1..];
      CutUnique(kind, spec[|kind| + 1..]);
    }
    if c.found && c.before == kind {
      assert spec == kind + ":" + c.after;
    }
  }

  lemma KindAlone(spec: string, kind: string)
    requires ':' !in kind
    ensures spec == kind + ":" <==> CutColon(spec).found && CutColon(spec).before == kind && CutColon(spec).after == ""
  {
    if spec == kind + ":" {
      assert spec == kind + ":" + "";
      CutUnique(kind, "");
    }
  }

  lemma KindsAlone()
    ensures "ro" + ":" == "ro:" && "rw" + ":" == "rw:" && "ephemeral" + ":" == "ephemeral:"
  {
  }

  lemma HeadEnds(spec: string)
    ensures spec in {"ro:", "rw:", "ephemeral:"} <==> CutColon(spec).found && Known(CutColon(spec).before) && CutColon(spec).after == ""
  {
    KindsAlone();
    KindAlone(spec, "ro");
    KindAlone(spec, "rw");
    KindAlone(spec, "ephemeral");
  }

  lemma NoColon(spec: string)
    ensures ':' !in spec <==> !CutColon(spec).found
  {
    var c := CutColon(spec);
    if c.found {
      assert spec[|c.before|] == ':';
    }
  }

  lemma HeadFaultExact(spec: string, e: Error)
    ensures ParseHead(spec) == Err(e) <==> HeadFault(spec, e)
  {
    NoColon(spec);
    HeadEnds(spec);
    if e.UnknownKind? {
      KindIs(spec, e.kind);
    }
  }

  lemma NoHeadFault(spec: string)
    ensures (forall e :: !HeadFault(spec, e)) <==> ParseHead(spec).Ok?
  {
    forall e ensures ParseHead(spec) == Err(e) <==> HeadFault(spec, e) {
      HeadFaultExact(spec, e);
    }
    if ParseHead(spec).Err? {
      assert HeadFault(spec, ParseHead(spec).error);
    }
  }

  /** What the parser cuts out after the first '='. */
  ghost predicate CutSource(value: string, source: string) {
    var eq := Index(value, "=");
    eq >= 0 && CutColon(value[eq + 1..]).found && CutColon(value[eq + 1..]).before == source && source !in {"", "host", "volume"}
  }

  /** The first '=' of a value, and what it names. */
  lemma NamesExact(value: string, source: string)
    ensures NamesSource(value, source) <==> CutSource(value, source)
  {
    if a, b :| Sources(value, source, a, b) {
      SourcesCut(value, source, a, b);
    }
    if CutSource(value, source) {
      CutSources(value, source);
    }
  }

  lemma SourcesCut(value: string, source: string, a: string, b: string)
    requires Sources(value, source, a, b)
    ensures CutSource(value, source)
  {
    assert value == a + "=" + (source + ":" + b);
    FirstEquals(value, a, source + ":" + b);
    CutUnique(source, b);
  }

  lemma CutSources(value: string, source: string)
    requires CutSource(value, source)
    ensures NamesSource(value, source)
  {
    var eq := Index(value, "=");
    var a, rest := value[..eq], value[eq + 1..];
    var after := CutColon(rest).after;
    BeforeEquals(value, eq);
    assert value == a + "=" + rest && rest == source + ":" + after;
    Regroup(a, source, after);
    assert Sources(value, source, a, after);
  }

  lemma Regroup(a: string, source: string, b: string)
    ensures a + "=" + (source + ":" + b) == a + "=" + source + ":" + b
  {
  }

  lemma BeforeEquals(value: string, eq: int)
    requires eq == Index(value, "=") && eq >= 0
    ensures value[eq] == '=' && '=' !in value[..eq]
  {
    if '=' in value[..eq] {
      var j :| 0 <= j < eq && value[j] == '=';
      assert OccursAt(value, "=", j);
    }
  }

  lemma FirstEquals(value: string, a: string, b: string)
    requires '=' !in a && value == a + "=" + b
    ensures Index(value, "=") == |a| && value[|a| + 1..] == b
  {
    assert OccursAt(value, "=", |a|);
    forall j | 0 <= j < |a| ensures !OccursAt(value, "=", j) {
      assert value[j] == a[j];
    }
  }

  /** What the parser makes of a value without a marker. */
  ghost predicate BareSays(value: string, r: Result<Mount>) {
    var eq := Index(value, "=");
    && (eq < 0 ==> r.Ok? && forall s :: !CutSource(value, s))
    && (forall s :: CutSource(value, s) ==> r == Err(UnknownSource(s)))
    && (eq >= 0 && (forall s :: !CutSource(value, s)) ==> r == Err(MalformedSource))
    && (r.Err? && r.error.UnknownSource? ==> CutSource(value, r.error.source))
  }

  lemma NoSource(value: string)
    requires Index(value, "=") < 0 || !CutColon(value[Index(value, "=") + 1..]).found ||
             CutColon(value[Index(value, "=") + 1..]).before in {"", "host", "volume"}
    ensures forall s :: !CutSource(value, s)
  {
  }

  /** What an '=' without a marker is refused for. */
  lemma BareErrors(value: string, h: Head)
    ensures BareSays(value, ParseBare(value, h))
  {
    var eq := Index(value, "=");
    if eq < 0 {
      NoSource(value);
    } else {
      var c := CutColon(value[eq + 1..]);
      if c.found && c.before !in {"", "host", "volume"} {
        assert CutSource(value, c.before) && forall s :: CutSource(value, s) ==> s == c.before;
      } else {
        NoSource(value);
      }
    }
  }

  lemma BareFault(value: string, h: Head, e: Error)
    ensures ParseBare(value, h) == Err(e) <==> SourceFault(value, "", e)
  {
    EqualsOccurs(value);
    BareErrors(value, h);
    forall s ensures NamesSource(value, s) <==> CutSource(value, s) {
      NamesExact(value, s);
    }
    BareCases(value, ParseBare(value, h), e);
  }

  lemma BareCases(value: string, r: Result<Mount>, e: Error)
    requires forall s :: NamesSource(value, s) <==> CutSource(value, s)
    requires '=' in value <==> Index(value, "=") >= 0
    requires BareSays(value, r)
    ensures r == Err(e) <==> SourceFault(value, "", e)
  {
  }

  lemma UnsourcedFault(value: string, e: Error)
    requires Cuts(value, value, "")
    ensures ParseUnsourced(value) == Err(e) <==> FaultAt(value, value, "", e)
  {
    HeadFaultExact(value, e);
    NoHeadFault(value);
    if ParseHead(value).Ok? {
      BareFault(value, ParseHead(value).value, e);
    }
  }

  lemma MarkedFault(value: string, cut: nat, mark: string, h: Head, e: Error)
    requires OccursAt(value, mark, cut) && (mark == HOST_MARK || mark == VOLUME_MARK)
    ensures ParseSource(value[cut + 1..], h) == Err(e) <==> SourceFault(value, value[cut..], e)
  {
    MarkedRest(value, cut, mark);
    var p := value[cut + |mark|..];
    if mark == HOST_MARK {
      assert "host:" + p == "host" + ":" + p;
      CutUnique("host", p);
      assert value[cut..] == HOST_MARK <==> p == "";
      assert value[cut..][1] == 'h';
    } else {
      assert "volume:" + p == "volume" + ":" + p;
      CutUnique("volume", p);
      assert value[cut..] == VOLUME_MARK <==> p == "";
      assert value[cut..][1] == 'v';
    }
  }

  lemma SourcedFault(value: string, cut: nat, mark: string, e: Error)
    requires OccursAt(value, mark, cut) && (mark == HOST_MARK || mark == VOLUME_MARK)
    ensures ParseSourced(value, cut) == Err(e) <==> FaultAt(value, value[..cut], value[cut..], e)
  {
    HeadFaultExact(value[..cut], e);
    NoHeadFault(value[..cut]);
    if ParseHead(value[..cut]).Ok? {
      MarkedFault(value, cut, mark, ParseHead(value[..cut]).value, e);
    }
  }

  /** There is one way to cut a value. */
  lemma CutsAt(value: string, cut: nat)
    requires cut <= |value|
    requires if Occurs(value, HOST_MARK) then FirstMark(value, HOST_MARK, cut)
             else if Occurs(value, VOLUME_MARK) then FirstMark(value, VOLUME_MARK, cut)
             else cut == |value|
    ensures forall spec, rest :: Cuts(value, spec, rest) <==> spec == value[..cut] && rest == value[cut..]
  {
    forall spec, rest ensures Cuts(value, spec, rest) <==> spec == value[..cut] && rest == value[cut..] {
      if Cuts(value, spec, rest) {
        assert |spec| == cut;
      }
      assert value[..cut] + value[cut..] == value;
    }
  }

  lemma FaultCut(value: string, cut: nat, e: Error)
    requires cut <= |value| && !(Occurs(value, HOST_MARK) && Occurs(value, VOLUME_MARK))
    requires forall spec, rest :: Cuts(value, spec, rest) <==> spec == value[..cut] && rest == value[cut..]
    ensures Fault(value, e) <==> FaultAt(value, value[..cut], value[cut..], e)
  {
    assert Cuts(value, value[..cut], value[cut..]);
  }

  /** Every value the parser refuses has exactly one fault, and the error names it. */
  lemma ErrorExact(value: string, e: Error)
    ensures Parse(value) == Err(e) <==> Fault(value, e)
  {
    var host, volume := Index(value, HOST_MARK), Index(value, VOLUME_MARK);
    if host >= 0 && volume >= 0 {
      return;
    }
    var cut := if host >= 0 then host else if volume >= 0 then volume else |value|;
    CutsAt(value, cut);
    FaultCut(value, cut, e);
    if host >= 0 {
      SourcedFault(value, host, HOST_MARK, e);
    } else if volume >= 0 {
      SourcedFault(value, volume, VOLUME_MARK, e);
    } else {
      assert value[..cut] == value && value[cut..] == "";
      assert Cuts(value, value, "");
      UnsourcedFault(value, e);
    }
  }

  /** The parser accepts a value, with result m, exactly when the value is the
      printed form of m and m is printable. */
  lemma ParseExact(v: string, m: Mount)
    ensures Parse(v) == Ok(m) <==> Printable(m) && v == Print(m)
  {
    if Parse(v) == Ok(m) {
      ParsePrint(v, m);
    }
    if Printable(m) {
      PrintParse(m);
    }
  }

  /** After a marker the source kind is known. */
  lemma KnownSource(kind: string, p: string, h: Head)
    requires kind == "host" || kind == "volume"
    ensures var r := ParseSource(kind + ":" + p, h); r.Err? ==> r.error == MalformedSource
  {
    CutUnique(kind, p);
  }

  lemma MarkedKind(v: string, cut: nat, mark: string) returns (kind: string, p: string)
    requires OccursAt(v, mark, cut) && (mark == HOST_MARK || mark == VOLUME_MARK)
    ensures (kind == "host" || kind == "volume") && v[cut + 1..] == kind + ":" + p
  {
    MarkedRest(v, cut, mark);
    if mark == HOST_MARK {
      kind, p := "host", v[cut + 6..];
      assert "host:" + p == kind + ":" + p;
    } else {
      kind, p := "volume", v[cut + 8..];
      assert "volume:" + p == kind + ":" + p;
    }
  }

  lemma HeadErrors(spec: string)
    ensures var r := ParseHead(spec); r.Err? ==> !r.error.UnknownSource? && r.error != BothSources
  {
  }

  lemma MarkedSourceKnown(v: string, cut: nat, mark: string)
    requires OccursAt(v, mark, cut) && (mark == HOST_MARK || mark == VOLUME_MARK)
    ensures var r := ParseSourced(v, cut); r.Err? ==> !r.error.UnknownSource? && r.error != BothSources
  {
    var kind, p := MarkedKind(v, cut, mark);
    var h := ParseHead(v[..cut]);
    HeadErrors(v[..cut]);
    if h.Ok? {
      KnownSource(kind, p, h.value);
    }
  }

  /** Two markers are refused as two sources and nothing else is; an unknown
      source is only ever reported where there is no marker, so the parser's last
      default branch is dead. */
  lemma SourceErrors(v: string)
    ensures Parse(v) == Err(BothSources) <==> Occurs(v, HOST_MARK) && Occurs(v, VOLUME_MARK)
    ensures Parse(v).Err? && Parse(v).error.UnknownSource? ==> NoMark(v) && '=' in v
  {
    var host := Index(v, HOST_MARK);
    var volume := Index(v, VOLUME_MARK);
    if host >= 0 {
      MarkedSourceKnown(v, host, HOST_MARK);
    } else if volume >= 0 {
      MarkedSourceKnown(v, volume, VOLUME_MARK);
    } else {
      EqualsOccurs(v);
    }
  }

  // ----- a list of mounts -----

  /** Every value parses, or the error is the first failing value's. */
  method ParseAll(values: seq<string>) returns (r: Result<seq<Mount>>)
    ensures r.Ok? ==> |r.value| == |values| && forall i :: 0 <= i < |values| ==> Printable(r.value[i]) && values[i] == Print(r.value[i])
    ensures r.Err? ==> exists i :: FirstFailure(values, i, r.error)
  {
    var out: seq<Mount> := [];
    for i := 0 to |values|
      invariant |out| == i
      invariant forall j :: 0 <= j < i ==> Parse(values[j]) == Ok(out[j])
    {
      var p := Parse(values[i]);
      if p.Err? {
        assert FirstFailure(values, i, p.error);
        return Err(p.error);
      }
      out := out + [p.value];
    }
    forall i | 0 <= i < |values| ensures Printable(out[i]) && values[i] == Print(out[i]) {
      ParsePrint(values[i], out[i]);
    }
    return Ok(out);
  }

  ghost predicate FirstFailure(values: seq<string>, i: int, e: Error) {
    && 0 <= i < |values| && Parse(values[i]) == Err(e)
    && forall j :: 0 <= j < i ==> Parse(values[j]).Ok?
  }
}
