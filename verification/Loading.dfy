/** When the text of a generated module parses and its class bodies run: exactly
    when no class is called like a keyword and nothing hides what a body uses. */
module Loading {
  import opened Wrappers
  import opened Proto
  import opened Registry
  import opened Py
  import opened Render
  import opened Schema
  import opened ObjectCodec
  import opened Names
  import opened Links
  import opened RoundTrip
  import opened Safety

  // ----- names -----

  /** An identifier of the protobuf language, with an underscore where Python needs
      one, can be an attribute. */
  lemma AttrIsName(name: string)
    requires IsIdent(name)
    ensures IsName(PyAttr(name))
  {
    var a := PyAttr(name);
    if name in RESERVED {
      assert a[|a| - 1] == '_';
      KeywordsEndOtherwise(a);
      assert forall i :: 0 <= i < |name| ==> a[i] == name[i];
    }
  }

  lemma KeywordsEndOtherwise(s: string)
    requires s != "" && s[|s| - 1] == '_'
    ensures s !in KEYWORDS
  {
  }

  ghost predicate Idents(names: seq<string>) {
    forall i :: 0 <= i < |names| ==> IsIdent(names[i])
  }

  ghost predicate NoKeywords(names: seq<string>) {
    forall i :: 0 <= i < |names| ==> names[i] !in KEYWORDS
  }

  /** Every message below ms is well-formed and its nested classes have
      identifiers for names. */
  ghost predicate WellNamed(ms: seq<Message>, reg: Registry) {
    forall path, x :: DeclaredAt(ms, path, x) ==> GoodMessage(x, reg) && Idents(Scope(x))
  }

  ghost predicate KeywordFree(ms: seq<Message>) {
    forall path, x :: DeclaredAt(ms, path, x) ==> NoKeywords(Scope(x))
  }

  lemma WellNamedInside(ms: seq<Message>, reg: Registry, n: Message)
    requires WellNamed(ms, reg) && n in ms
    ensures GoodMessage(n, reg) && Idents(Scope(n)) && WellNamed(Children(n.nested), reg)
  {
    TopDeclares(ms, n);
    forall q, x | DeclaredAt(Children(n.nested), q, x) ensures GoodMessage(x, reg) && Idents(Scope(x)) {
      DeclaredInside(ms, n, q, x);
    }
  }

  lemma KeywordFreeSplits(ms: seq<Message>)
    ensures KeywordFree(ms) <==> forall n :: n in ms ==> NoKeywords(Scope(n)) && KeywordFree(Children(n.nested))
  {
    if KeywordFree(ms) {
      forall n | n in ms ensures NoKeywords(Scope(n)) && KeywordFree(Children(n.nested)) {
        TopDeclares(ms, n);
        forall q, x | DeclaredAt(Children(n.nested), q, x) ensures NoKeywords(Scope(x)) {
          DeclaredInside(ms, n, q, x);
        }
      }
    }
    if forall n :: n in ms ==> NoKeywords(Scope(n)) && KeywordFree(Children(n.nested)) {
      forall path, x | DeclaredAt(ms, path, x) ensures NoKeywords(Scope(x)) {
        var n := Descend(ms, path, x);
      }
    }
  }

  // ----- parsing -----

  ghost predicate ClassParses(c: PyClass) {
    && IsName(c.name)
    && (c.Dataclass? ==> (forall d :: d in c.fields ==> IsName(d.attr)) && Parses(c.inner))
  }

  lemma AttrsParse(m: Message, reg: Registry, current: string, c: PyClass)
    requires GoodMessage(m, reg) && RenderMessage(m, reg, current) == Some(c)
    ensures forall d :: d in c.fields ==> IsName(d.attr)
  {
    var gs := FieldsUpTo(m, |m.fields|, reg, current).value;
    forall d | d in c.fields ensures IsName(d.attr) {
      var i :| 0 <= i < |gs| && d == DefsOf(gs)[i];
      assert GoodField(m, m.fields[i], reg);
      AttrIsName(m.fields[i].name);
    }
  }

  lemma {:induction false} MessageParses(m: Message, reg: Registry, current: string, c: PyClass)
    requires GoodMessage(m, reg) && IsIdent(m.name) && Idents(Scope(m)) && WellNamed(Children(m.nested), reg)
    requires RenderMessage(m, reg, current) == Some(c)
    ensures ClassParses(c) <==> m.name !in KEYWORDS && NoKeywords(Scope(m)) && KeywordFree(Children(m.nested))
    decreases Depth(m), 1
  {
    var inner := InnerScope(m, reg, current);
    AttrsParse(m, reg, current, c);
    DepthInside(m);
    ScopeParses(Children(m.nested), m.enums, reg, current, inner, Depth(m));
  }

  lemma DepthInside(m: Message)
    ensures forall n :: n in Children(m.nested) ==> Depth(n) < Depth(m)
  {
    forall n | n in Children(m.nested) ensures Depth(n) < Depth(m) {
      ChildIsShallower(m, n);
    }
  }

  /** A scope parses exactly when no class in it, at any depth, is called like a
      keyword. */
  lemma {:induction false} ScopeParses(ms: seq<Message>, es: seq<EnumDecl>, reg: Registry, current: string,
                                       cs: seq<PyClass>, bound: nat)
    requires WellNamed(ms, reg) && Idents(ScopeNames(ms, es)) && RenderTop(ms, reg, current) == Some(cs)
    requires forall n :: n in ms ==> Depth(n) < bound
    ensures Parses(EnumClasses(es) + cs) <==> NoKeywords(ScopeNames(ms, es)) && KeywordFree(ms)
    decreases bound, 0
  {
    var all, names := EnumClasses(es) + cs, ScopeNames(ms, es);
    ScopeClasses(ms, es, reg, current, cs);
    RenderedMessages(ms, reg, current, cs);
    KeywordFreeSplits(ms);
    forall i | 0 <= i < |all|
      ensures ClassParses(all[i]) <==>
                names[i] !in KEYWORDS &&
                (i >= |es| ==> NoKeywords(Scope(ms[i - |es|])) && KeywordFree(Children(ms[i - |es|].nested)))
    {
      assert IsIdent(names[i]) && all[i].name == names[i];
      if i >= |es| {
        var n := ms[i - |es|];
        assert all[i] == cs[i - |es|] && names[i] == n.name;
        WellNamedInside(ms, reg, n);
        MessageParses(n, reg, current, cs[i - |es|]);
      }
    }
    ParsesEach(all);
    AllNames(ms, es, all);
  }

  lemma ParsesEach(all: seq<PyClass>)
    ensures Parses(all) <==> forall i :: 0 <= i < |all| ==> ClassParses(all[i])
  {
    if Parses(all) {
      forall i | 0 <= i < |all| ensures ClassParses(all[i]) {
        assert all[i] in all;
      }
    }
  }

  lemma AllNames(ms: seq<Message>, es: seq<EnumDecl>, all: seq<PyClass>)
    requires |all| == |ScopeNames(ms, es)|
    requires forall i :: 0 <= i < |all| ==>
               (ClassParses(all[i]) <==>
                  ScopeNames(ms, es)[i] !in KEYWORDS &&
                  (i >= |es| ==> NoKeywords(Scope(ms[i - |es|])) && KeywordFree(Children(ms[i - |es|].nested))))
    requires KeywordFree(ms) <==> forall n :: n in ms ==> NoKeywords(Scope(n)) && KeywordFree(Children(n.nested))
    ensures (forall i :: 0 <= i < |all| ==> ClassParses(all[i])) <==> NoKeywords(ScopeNames(ms, es)) && KeywordFree(ms)
  {
    if forall i :: 0 <= i < |all| ==> ClassParses(all[i]) {
      forall n | n in ms ensures NoKeywords(Scope(n)) && KeywordFree(Children(n.nested)) {
        var k :| 0 <= k < |ms| && ms[k] == n;
        assert ClassParses(all[|es| + k]);
      }
    }
    if NoKeywords(ScopeNames(ms, es)) && KeywordFree(ms) {
      forall i | 0 <= i < |all| ensures ClassParses(all[i]) {
        assert i >= |es| ==> ms[i - |es|] in ms;
      }
    }
  }

  // ----- class bodies -----

  ghost predicate AllGood(ms: seq<Message>, reg: Registry) {
    forall path, x :: DeclaredAt(ms, path, x) ==> GoodMessage(x, reg)
  }

  ghost predicate BodiesLoad(ms: seq<Message>, reg: Registry) {
    forall path, x :: DeclaredAt(ms, path, x) ==> BodyLoads(x, reg)
  }

  lemma AllGoodInside(ms: seq<Message>, reg: Registry, n: Message)
    requires AllGood(ms, reg) && n in ms
    ensures GoodMessage(n, reg) && AllGood(Children(n.nested), reg)
  {
    TopDeclares(ms, n);
    forall q, x | DeclaredAt(Children(n.nested), q, x) ensures GoodMessage(x, reg) {
      DeclaredInside(ms, n, q, x);
    }
  }

  lemma BodiesLoadSplits(ms: seq<Message>, reg: Registry)
    ensures BodiesLoad(ms, reg) <==> forall n :: n in ms ==> BodyLoads(n, reg) && BodiesLoad(Children(n.nested), reg)
  {
    if BodiesLoad(ms, reg) {
      forall n | n in ms ensures BodyLoads(n, reg) && BodiesLoad(Children(n.nested), reg) {
        TopDeclares(ms, n);
        forall q, x | DeclaredAt(Children(n.nested), q, x) ensures BodyLoads(x, reg) {
          DeclaredInside(ms, n, q, x);
        }
      }
    }
    if forall n :: n in ms ==> BodyLoads(n, reg) && BodiesLoad(Children(n.nested), reg) {
      forall path, x | DeclaredAt(ms, path, x) ensures BodyLoads(x, reg) {
        var n := Descend(ms, path, x);
      }
    }
  }

  lemma FieldsRendered(m: Message, reg: Registry, current: string, c: PyClass) returns (gs: seq<GenField>)
    requires GoodMessage(m, reg) && RenderMessage(m, reg, current) == Some(c)
    ensures FieldsUpTo(m, |m.fields|, reg, current) == Some(gs)
    ensures AllRendered(m, reg, current, gs) && c.Dataclass? && c.fields == DefsOf(gs)
  {
    gs := FieldsUpTo(m, |m.fields|, reg, current).value;
  }

  ghost predicate Runs(c: PyClass) {
    BodyNames(c).Ok?
  }

  /** The bodies of a scope run exactly when no message in it, at any depth, hides
      what its class body uses. */
  lemma {:induction false} ScopeRuns(ms: seq<Message>, es: seq<EnumDecl>, reg: Registry, current: string,
                                     cs: seq<PyClass>, bound: nat)
    requires AllGood(ms, reg) && RenderTop(ms, reg, current) == Some(cs)
    requires forall n :: n in ms ==> Depth(n) < bound
    ensures InnerRun(EnumClasses(es) + cs) <==> BodiesLoad(ms, reg)
    decreases bound
  {
    RenderedMessages(ms, reg, current, cs);
    forall k | 0 <= k < |cs|
      ensures Runs(cs[k]) <==> BodyLoads(ms[k], reg) && BodiesLoad(Children(ms[k].nested), reg)
    {
      var n, c := ms[k], cs[k];
      AllGoodInside(ms, reg, n);
      var gs := FieldsRendered(n, reg, current, c);
      var inner := InnerScope(n, reg, current);
      DepthInside(n);
      ScopeRuns(Children(n.nested), n.enums, reg, current, inner, Depth(n));
      BodyExact(n, reg, current, gs, c);
    }
    BodiesLoadSplits(ms, reg);
    EnumsRun(es, cs);
    AllRunOrNone(ms, reg, cs);
  }

  lemma AllRunOrNone(ms: seq<Message>, reg: Registry, cs: seq<PyClass>)
    requires |cs| == |ms|
    requires forall k :: 0 <= k < |cs| ==>
               (Runs(cs[k]) <==> BodyLoads(ms[k], reg) && BodiesLoad(Children(ms[k].nested), reg))
    ensures InnerRun(cs) <==> forall n :: n in ms ==> BodyLoads(n, reg) && BodiesLoad(Children(n.nested), reg)
  {
    if InnerRun(cs) {
      forall n | n in ms ensures BodyLoads(n, reg) && BodiesLoad(Children(n.nested), reg) {
        var k :| 0 <= k < |ms| && ms[k] == n;
        assert Runs(cs[k]);
      }
    }
    if forall n :: n in ms ==> BodyLoads(n, reg) && BodiesLoad(Children(n.nested), reg) {
      forall k | 0 <= k < |cs| ensures BodyNames(cs[k]).Ok? {
        assert ms[k] in ms && Runs(cs[k]);
      }
    }
  }

  /** An enum's class body always runs. */
  lemma EnumsRun(es: seq<EnumDecl>, cs: seq<PyClass>)
    ensures InnerRun(EnumClasses(es) + cs) <==> InnerRun(cs)
  {
    var all := EnumClasses(es) + cs;
    forall j | 0 <= j < |es| ensures BodyNames(all[j]).Ok? {
      assert all[j] == EnumClass(es[j].name);
    }
    forall k | 0 <= k < |cs| ensures all[|es| + k] == cs[k] {
    }
  }

  /** A declared message's class means what it should once every body in its file
      runs and its own names are safe. */
  lemma MessageMeans(m: Message, reg: Registry, current: string, c: PyClass, gs: seq<GenField>)
    requires AllRendered(m, reg, current, gs) && RenderMessage(m, reg, current) == Some(c) && c.fields == DefsOf(gs)
    requires SafeNames(m, reg) && AllGood(Children(m.nested), reg) && BodiesLoad(Children(m.nested), reg)
    ensures BodyMeans(c, gs)
  {
    var inner := InnerScope(m, reg, current);
    DepthInside(m);
    ScopeRuns(Children(m.nested), m.enums, reg, current, inner, Depth(m));
    BodyMeansExactly(m, reg, current, gs, c);
  }

  /** A class of that name exists in the module. */
  lemma {:induction false} NamedSome(classes: seq<PyClass>, name: string)
    ensures Named(classes, name).Some? <==> exists i :: 0 <= i < |classes| && classes[i].name == name
  {
    if classes != [] {
      NamedSome(classes[1..], name);
      if i :| 0 <= i < |classes| && classes[i].name == name && i > 0 {
        assert classes[1..][i - 1].name == name;
      }
    }
  }
}
