/** The generated modules link: every class a generated module names is the
    class renderMessage emits at that path, in that module or in one it imports. */
module Links {
  import opened Wrappers
  import opened Proto
  import opened Registry
  import opened Py
  import opened Render
  import opened Names

  // ----- the nested walks skip the map entries -----

  lemma ChildrenLast(ns: seq<Message>)
    requires ns != []
    ensures var k := |ns| - 1;
            if ns[k].mapEntry then Children(ns) == Children(ns[..k])
            else Children(ns) != [] && Children(ns)[|Children(ns)| - 1] == ns[k] &&
                 Children(ns)[..|Children(ns)| - 1] == Children(ns[..k])
  {
  }

  lemma {:induction false} NestedRendersChildren(ns: seq<Message>, reg: Registry, current: string)
    ensures RenderNested(ns, reg, current) == RenderTop(Children(ns), reg, current)
  {
    if ns != [] {
      ChildrenLast(ns);
      NestedRendersChildren(ns[..|ns| - 1], reg, current);
    }
  }

  lemma {:induction false} NestedDepsChildren(ns: seq<Message>, reg: Registry, current: string)
    ensures DepsOfAll(ns, reg, current) == TopDeps(Children(ns), reg, current)
  {
    if ns != [] {
      ChildrenLast(ns);
      NestedDepsChildren(ns[..|ns| - 1], reg, current);
    }
  }

  lemma {:induction false} NestedChecksChildren(ns: seq<Message>, fq: string, reg: Registry)
    ensures CheckNested(ns, fq, reg) == CheckTop(Children(ns), fq, reg)
  {
    if ns != [] {
      ChildrenLast(ns);
      NestedChecksChildren(ns[..|ns| - 1], fq, reg);
    }
  }

  // ----- checkFile -----

  lemma {:induction false} CheckFieldsAll(fs: seq<Field>, fq: string, reg: Registry)
    ensures CheckFields(fs, fq, reg).None? <==> forall f :: f in fs ==> FieldResolves(f, reg)
  {
    if fs != [] {
      CheckFieldsAll(fs[1..], fq, reg);
      assert forall f :: f in fs <==> f == fs[0] || f in fs[1..];
    }
  }

  predicate Passes(m: Message, pkg: string, reg: Registry) {
    CheckMessage(m, pkg, reg).None?
  }

  lemma {:induction false} CheckTopEach(ms: seq<Message>, pkg: string, reg: Registry, m: Message)
    requires CheckTop(ms, pkg, reg).None? && m in ms
    ensures Passes(m, pkg, reg)
  {
    var k := |ms| - 1;
    if m != ms[k] {
      assert m in ms[..k];
      CheckTopEach(ms[..k], pkg, reg, m);
    }
  }

  lemma {:induction false} CheckedField(ms: seq<Message>, pkg: string, reg: Registry, path: seq<string>, m: Message, f: Field)
    requires CheckTop(ms, pkg, reg).None? && DeclaredAt(ms, path, m) && f in m.fields
    ensures FieldResolves(f, reg)
    decreases |path|
  {
    var n :| n in ms && n.name == path[0] &&
      (if |path| == 1 then m == n else DeclaredAt(Children(n.nested), path[1..], m));
    CheckTopEach(ms, pkg, reg, n);
    var fq := FqJoin(pkg, n.name);
    NestedChecksChildren(n.nested, fq, reg);
    if |path| == 1 {
      CheckFieldsAll(m.fields, fq, reg);
    } else {
      CheckedField(Children(n.nested), fq, reg, path[1..], m, f);
    }
  }

  /** Every field of every message declared below ms resolves. */
  ghost predicate AllResolve(ms: seq<Message>, reg: Registry) {
    forall path, m, f :: DeclaredAt(ms, path, m) && f in m.fields ==> FieldResolves(f, reg)
  }

  lemma AllResolveInner(ms: seq<Message>, n: Message, reg: Registry)
    requires AllResolve(ms, reg) && n in ms
    ensures AllResolve(Children(n.nested), reg)
    ensures forall f :: f in n.fields ==> FieldResolves(f, reg)
  {
    assert DeclaredAt(ms, [n.name], n);
    forall path, m, f | DeclaredAt(Children(n.nested), path, m) && f in m.fields ensures FieldResolves(f, reg) {
      assert ([n.name] + path)[1..] == path;
      assert DeclaredAt(ms, [n.name] + path, m);
    }
  }

  lemma AllResolvePart(ms: seq<Message>, part: seq<Message>, reg: Registry)
    requires AllResolve(ms, reg) && forall n :: n in part ==> n in ms
    ensures AllResolve(part, reg)
  {
    forall path, m, f | DeclaredAt(part, path, m) && f in m.fields ensures FieldResolves(f, reg) {
      assert DeclaredAt(ms, path, m);
    }
  }

  lemma {:induction false} ResolvedPasses(ms: seq<Message>, n: Message, pkg: string, reg: Registry)
    requires AllResolve(ms, reg) && n in ms
    ensures Passes(n, pkg, reg)
    decreases n, 1
  {
    var fq := FqJoin(pkg, n.name);
    AllResolveInner(ms, n, reg);
    CheckFieldsAll(n.fields, fq, reg);
    ResolvedNested(n.nested, fq, reg);
  }

  lemma {:induction false} ResolvedNested(ns: seq<Message>, fq: string, reg: Registry)
    requires AllResolve(Children(ns), reg)
    ensures CheckNested(ns, fq, reg).None?
    decreases ns, 0
  {
    if ns != [] {
      var k := |ns| - 1;
      ChildrenLast(ns);
      AllResolvePart(Children(ns), Children(ns[..k]), reg);
      ResolvedNested(ns[..k], fq, reg);
      if !ns[k].mapEntry {
        ResolvedPasses(Children(ns), ns[k], fq, reg);
      }
    }
  }

  lemma {:induction false} ResolvedTop(ms: seq<Message>, pkg: string, reg: Registry)
    requires AllResolve(ms, reg)
    ensures CheckTop(ms, pkg, reg).None?
  {
    if ms != [] {
      var k := |ms| - 1;
      AllResolvePart(ms, ms[..k], reg);
      ResolvedTop(ms[..k], pkg, reg);
      ResolvedPasses(ms, ms[k], pkg, reg);
    }
  }

  /** The error names a field of a declared message that does not resolve. */
  ghost predicate Blames(ms: seq<Message>, pkg: string, reg: Registry, u: Unresolved) {
    exists path, m, f :: BlamesField(ms, pkg, reg, u, path, m, f)
  }

  ghost predicate BlamesField(ms: seq<Message>, pkg: string, reg: Registry, u: Unresolved, path: seq<string>, m: Message, f: Field) {
    && DeclaredAt(ms, path, m) && path != [] && f in m.fields && !FieldResolves(f, reg)
    && u == Unresolved(FqOf(pkg, path), f.name, f.typeName)
  }

  lemma {:induction false} UnresolvedField(fs: seq<Field>, fq: string, reg: Registry) returns (f: Field)
    requires CheckFields(fs, fq, reg).Some?
    ensures f in fs && !FieldResolves(f, reg) && CheckFields(fs, fq, reg) == Some(Unresolved(fq, f.name, f.typeName))
  {
    if !FieldResolves(fs[0], reg) {
      f := fs[0];
    } else {
      f := UnresolvedField(fs[1..], fq, reg);
    }
  }

  lemma {:induction false} FailingTop(ms: seq<Message>, pkg: string, reg: Registry) returns (n: Message)
    requires CheckTop(ms, pkg, reg).Some?
    ensures n in ms && CheckMessage(n, pkg, reg) == CheckTop(ms, pkg, reg)
  {
    var k := |ms| - 1;
    if CheckTop(ms[..k], pkg, reg).Some? {
      n := FailingTop(ms[..k], pkg, reg);
    } else {
      n := ms[k];
    }
  }

  lemma {:induction false} TopNames(ms: seq<Message>, pkg: string, reg: Registry, bound: nat)
    requires CheckTop(ms, pkg, reg).Some? && forall n :: n in ms ==> Depth(n) < bound
    ensures Blames(ms, pkg, reg, CheckTop(ms, pkg, reg).value)
    decreases bound
  {
    var n := FailingTop(ms, pkg, reg);
    var fq := FqJoin(pkg, n.name);
    TopDeclares(ms, n);
    if CheckFields(n.fields, fq, reg).Some? {
      var f := UnresolvedField(n.fields, fq, reg);
      assert BlamesField(ms, pkg, reg, CheckTop(ms, pkg, reg).value, [n.name], n, f);
    } else {
      NestedChecksChildren(n.nested, fq, reg);
      forall c | c in Children(n.nested) ensures Depth(c) < Depth(n) {
        ChildIsShallower(n, c);
      }
      TopNames(Children(n.nested), fq, reg, Depth(n));
      NamedInside(ms, pkg, reg, n, CheckTop(ms, pkg, reg).value);
    }
  }

  lemma NamedInside(ms: seq<Message>, pkg: string, reg: Registry, n: Message, u: Unresolved)
    requires n in ms && Blames(Children(n.nested), FqJoin(pkg, n.name), reg, u)
    ensures Blames(ms, pkg, reg, u)
  {
    var q, m, f :| BlamesField(Children(n.nested), FqJoin(pkg, n.name), reg, u, q, m, f);
    var path := [n.name] + q;
    assert path[1..] == q;
    DeclaredInside(ms, n, q, m);
    assert BlamesField(ms, pkg, reg, u, path, m, f);
  }

  /** A refusal names a message, a field and a type of the file that resolve to
      nothing. */
  lemma UnresolvedIsNamed(fd: File, reg: Registry)
    requires CheckFile(fd, reg).Some?
    ensures Blames(fd.messages, fd.pkg, reg, CheckFile(fd, reg).value)
  {
    forall n | n in fd.messages ensures Depth(n) < DepthOfAll(fd.messages) + 1 {
      DepthOfEach(fd.messages, n);
    }
    TopNames(fd.messages, fd.pkg, reg, DepthOfAll(fd.messages) + 1);
  }

  /** checkFile accepts a file exactly when every message or enum a field of one
      of its classes names is a map entry, a registered class or a time type. */
  lemma CheckFileExact(fd: File, reg: Registry)
    ensures CheckFile(fd, reg).None? <==> AllResolve(fd.messages, reg)
  {
    if CheckFile(fd, reg).None? {
      forall path, m, f | DeclaredAt(fd.messages, path, m) && f in m.fields ensures FieldResolves(f, reg) {
        CheckedField(fd.messages, fd.pkg, reg, path, m, f);
      }
    }
    if AllResolve(fd.messages, reg) {
      ResolvedTop(fd.messages, fd.pkg, reg);
    }
  }

  // ----- imports -----

  lemma {:induction false} FieldDepsCover(fs: seq<Field>, reg: Registry, current: string, f: Field)
    requires f in fs
    ensures FieldDep(f, reg, current) <= FieldDeps(fs, reg, current)
  {
    var k := |fs| - 1;
    if f != fs[k] {
      assert f in fs[..k];
      FieldDepsCover(fs[..k], reg, current, f);
    }
  }

  lemma {:induction false} TopDepsCover(ms: seq<Message>, reg: Registry, current: string, m: Message)
    requires m in ms
    ensures Deps(m, reg, current) <= TopDeps(ms, reg, current)
  {
    var k := |ms| - 1;
    if m != ms[k] {
      assert m in ms[..k];
      TopDepsCover(ms[..k], reg, current, m);
    }
  }

  /** collectDeps records the module of every field of every rendered message. */
  lemma {:induction false} ImportsCover(ms: seq<Message>, reg: Registry, current: string, path: seq<string>, m: Message, f: Field)
    requires DeclaredAt(ms, path, m) && f in m.fields
    ensures FieldDep(f, reg, current) <= TopDeps(ms, reg, current)
    decreases |path|
  {
    var n :| n in ms && n.name == path[0] &&
      (if |path| == 1 then m == n else DeclaredAt(Children(n.nested), path[1..], m));
    TopDepsCover(ms, reg, current, n);
    NestedDepsChildren(n.nested, reg, current);
    if |path| == 1 {
      FieldDepsCover(m.fields, reg, current, f);
    } else {
      ImportsCover(Children(n.nested), reg, current, path[1..], m, f);
    }
  }

  lemma DeclaredInside(ms: seq<Message>, n: Message, q: seq<string>, x: Message)
    requires n in ms && DeclaredAt(Children(n.nested), q, x)
    ensures DeclaredAt(ms, [n.name] + q, x)
  {
    var path := [n.name] + q;
    assert path[1..] == q;
    Ascend(ms, path, x, n);
  }

  /** A field of some message declared below ms needs the sibling module d. */
  ghost predicate Refers(ms: seq<Message>, reg: Registry, current: string, d: string) {
    exists path, m, f :: DeclaredAt(ms, path, m) && f in m.fields && d in FieldDep(f, reg, current)
  }

  lemma {:induction false} FieldDepsFrom(fs: seq<Field>, reg: Registry, current: string, d: string) returns (f: Field)
    requires d in FieldDeps(fs, reg, current)
    ensures f in fs && d in FieldDep(f, reg, current)
  {
    var last := fs[|fs| - 1];
    if d in FieldDep(last, reg, current) {
      f := last;
    } else {
      f := FieldDepsFrom(fs[..|fs| - 1], reg, current, d);
    }
  }

  lemma {:induction false} TopDepsFrom(ms: seq<Message>, reg: Registry, current: string, d: string) returns (n: Message)
    requires d in TopDeps(ms, reg, current)
    ensures n in ms && d in Deps(n, reg, current)
  {
    var last := ms[|ms| - 1];
    if d in Deps(last, reg, current) {
      n := last;
    } else {
      n := TopDepsFrom(ms[..|ms| - 1], reg, current, d);
    }
  }

  /** How deep the nesting of the messages goes. */
  function Depth(m: Message): nat
    decreases m, 1
  {
    1 + DepthOfAll(m.nested)
  }

  function DepthOfAll(ns: seq<Message>): nat
    decreases ns, 0
  {
    if ns == [] then 0
    else
      var a, b := DepthOfAll(ns[..|ns| - 1]), Depth(ns[|ns| - 1]);
      if a < b then b else a
  }

  lemma {:induction false} DepthOfEach(ns: seq<Message>, n: Message)
    requires n in ns
    ensures Depth(n) <= DepthOfAll(ns)
  {
    if ns[|ns| - 1] != n {
      assert n in ns[..|ns| - 1];
      DepthOfEach(ns[..|ns| - 1], n);
    }
  }

  lemma ChildIsShallower(m: Message, n: Message)
    requires n in Children(m.nested)
    ensures Depth(n) < Depth(m)
  {
    DepthOfEach(m.nested, n);
  }

  lemma {:induction false} DepsRefer(ms: seq<Message>, reg: Registry, current: string, n: Message, d: string)
    requires n in ms && d in Deps(n, reg, current)
    ensures Refers(ms, reg, current, d)
    decreases Depth(n)
  {
    NestedDepsChildren(n.nested, reg, current);
    if d in FieldDeps(n.fields, reg, current) {
      var f := FieldDepsFrom(n.fields, reg, current, d);
      TopDeclares(ms, n);
    } else {
      var k := TopDepsFrom(Children(n.nested), reg, current, d);
      ChildIsShallower(n, k);
      DepsRefer(Children(n.nested), reg, current, k, d);
      var q, x, f :| DeclaredAt(Children(n.nested), q, x) && f in x.fields && d in FieldDep(f, reg, current);
      DeclaredInside(ms, n, q, x);
    }
  }

  /** The imports are exactly the sibling modules that fields refer to. */
  lemma ImportsExact(ms: seq<Message>, reg: Registry, current: string, d: string)
    ensures d in TopDeps(ms, reg, current) <==> Refers(ms, reg, current, d)
  {
    if d in TopDeps(ms, reg, current) {
      var n := TopDepsFrom(ms, reg, current, d);
      DepsRefer(ms, reg, current, n, d);
    }
    if path, m, f :| DeclaredAt(ms, path, m) && f in m.fields && d in FieldDep(f, reg, current) {
      ImportsCover(ms, reg, current, path, m, f);
    }
  }

  // ----- time helpers -----

  lemma {:induction false} NestedTimeChildren(ns: seq<Message>, reg: Registry, current: string)
    ensures NestedUsesTime(ns, reg, current) <==> TopUsesTime(Children(ns), reg, current)
  {
    if ns != [] {
      var k := |ns| - 1;
      NestedTimeChildren(ns[..k], reg, current);
      ChildrenLast(ns);
      if !ns[k].mapEntry {
        assert ns[k] in Children(ns);
        assert forall m :: m in Children(ns) ==> m == ns[k] || m in Children(ns[..k]);
        assert forall m :: m in Children(ns[..k]) ==> m in Children(ns);
      }
    }
  }

  ghost predicate NeedsTime(ms: seq<Message>, reg: Registry, current: string) {
    exists path, m, f :: DeclaredAt(ms, path, m) && f in m.fields && FieldUsesTime(f, reg, current)
  }

  lemma {:induction false} TimeFrom(ms: seq<Message>, reg: Registry, current: string, n: Message)
    requires n in ms && MessageUsesTime(n, reg, current)
    ensures NeedsTime(ms, reg, current)
    decreases Depth(n)
  {
    NestedTimeChildren(n.nested, reg, current);
    if f :| f in n.fields && FieldUsesTime(f, reg, current) {
      TopDeclares(ms, n);
    } else {
      var k :| k in Children(n.nested) && MessageUsesTime(k, reg, current);
      ChildIsShallower(n, k);
      TimeFrom(Children(n.nested), reg, current, k);
      var q, x, f :| DeclaredAt(Children(n.nested), q, x) && f in x.fields && FieldUsesTime(f, reg, current);
      DeclaredInside(ms, n, q, x);
    }
  }

  lemma {:induction false} TimeReaches(ms: seq<Message>, reg: Registry, current: string, path: seq<string>, m: Message, f: Field)
    requires DeclaredAt(ms, path, m) && f in m.fields && FieldUsesTime(f, reg, current)
    ensures TopUsesTime(ms, reg, current)
    decreases |path|
  {
    var n := Descend(ms, path, m);
    NestedTimeChildren(n.nested, reg, current);
    if |path| > 1 {
      TimeReaches(Children(n.nested), reg, current, path[1..], m, f);
    }
    assert MessageUsesTime(n, reg, current);
  }

  /** The time helpers are emitted exactly when a field of some rendered message
      uses a time type, alone or in a list or map. */
  lemma TimeExact(ms: seq<Message>, reg: Registry, current: string)
    ensures TopUsesTime(ms, reg, current) <==> NeedsTime(ms, reg, current)
  {
    if n :| n in ms && MessageUsesTime(n, reg, current) {
      TimeFrom(ms, reg, current, n);
    }
    if path, m, f :| DeclaredAt(ms, path, m) && f in m.fields && FieldUsesTime(f, reg, current) {
      TimeReaches(ms, reg, current, path, m, f);
    }
  }

  // ----- emitted classes -----

  ghost predicate Distinct(names: seq<string>) {
    forall i, j :: 0 <= i < j < |names| ==> names[i] != names[j]
  }

  lemma TopLast(ms: seq<Message>, reg: Registry, current: string, cs: seq<PyClass>)
    requires ms != [] && RenderTop(ms, reg, current) == Some(cs)
    ensures cs != [] && RenderTop(ms[..|ms| - 1], reg, current) == Some(cs[..|cs| - 1])
    ensures RenderMessage(ms[|ms| - 1], reg, current) == Some(cs[|cs| - 1])
  {
    var before := RenderTop(ms[..|ms| - 1], reg, current).value;
    var c := RenderMessage(ms[|ms| - 1], reg, current).value;
    assert cs == before + [c] && cs[..|cs| - 1] == before;
  }

  lemma {:induction false} RenderedAt(ms: seq<Message>, reg: Registry, current: string, cs: seq<PyClass>, i: nat)
    requires RenderTop(ms, reg, current) == Some(cs) && i < |ms|
    ensures i < |cs| && RenderMessage(ms[i], reg, current) == Some(cs[i])
  {
    var n := |ms| - 1;
    var before := cs[..|cs| - 1];
    TopLast(ms, reg, current, cs);
    RenderedCount(ms[..n], reg, current, before);
    if i < n {
      RenderedAt(ms[..n], reg, current, before, i);
      assert ms[..n][i] == ms[i] && before[i] == cs[i];
    }
  }

  lemma {:induction false} RenderedCount(ms: seq<Message>, reg: Registry, current: string, cs: seq<PyClass>)
    requires RenderTop(ms, reg, current) == Some(cs)
    ensures |cs| == |ms|
  {
    if ms != [] {
      TopLast(ms, reg, current, cs);
      RenderedCount(ms[..|ms| - 1], reg, current, cs[..|cs| - 1]);
    }
  }

  lemma RenderedMessages(ms: seq<Message>, reg: Registry, current: string, cs: seq<PyClass>)
    requires RenderTop(ms, reg, current) == Some(cs)
    ensures |cs| == |ms|
    ensures forall i :: 0 <= i < |ms| ==> RenderMessage(ms[i], reg, current) == Some(cs[i])
  {
    RenderedCount(ms, reg, current, cs);
    forall i | 0 <= i < |ms| ensures RenderMessage(ms[i], reg, current) == Some(cs[i]) {
      RenderedAt(ms, reg, current, cs, i);
    }
  }

  lemma {:induction false} NamedUnique(classes: seq<PyClass>, i: nat)
    requires i < |classes|
    requires forall a, b :: 0 <= a < b < |classes| ==> classes[a].name != classes[b].name
    ensures Named(classes, classes[i].name) == Some(classes[i])
  {
    if i > 0 {
      NamedUnique(classes[1..], i - 1);
    } else {
      NamedNone(classes[1..], classes[0].name);
    }
  }

  lemma {:induction false} NamedNone(classes: seq<PyClass>, name: string)
    requires forall a :: 0 <= a < |classes| ==> classes[a].name != name
    ensures Named(classes, name) == None
  {
    if classes != [] {
      NamedNone(classes[1..], name);
    }
  }

  lemma ClassIsNamed(m: Message, reg: Registry, current: string, c: PyClass)
    requires RenderMessage(m, reg, current) == Some(c)
    ensures c.Dataclass? && c.name == m.name
  {
  }

  lemma ScopeClasses(ms: seq<Message>, es: seq<EnumDecl>, reg: Registry, current: string, cs: seq<PyClass>)
    requires RenderTop(ms, reg, current) == Some(cs)
    ensures |EnumClasses(es) + cs| == |ScopeNames(ms, es)|
    ensures forall i :: 0 <= i < |EnumClasses(es) + cs| ==>
              (EnumClasses(es) + cs)[i].name == ScopeNames(ms, es)[i] && ((EnumClasses(es) + cs)[i].Dataclass? <==> i >= |es|)
  {
    RenderedMessages(ms, reg, current, cs);
    var all := EnumClasses(es) + cs;
    forall i | 0 <= i < |all| ensures all[i].name == ScopeNames(ms, es)[i] && (all[i].Dataclass? <==> i >= |es|) {
      if i >= |es| {
        ClassIsNamed(ms[i - |es|], reg, current, cs[i - |es|]);
      }
    }
  }

  /** In a scope with distinct names, a message's name is bound to its class. */
  lemma ScopeBinds(ms: seq<Message>, es: seq<EnumDecl>, reg: Registry, current: string, cs: seq<PyClass>, n: Message)
    requires RenderTop(ms, reg, current) == Some(cs) && Distinct(ScopeNames(ms, es)) && n in ms
    ensures Named(EnumClasses(es) + cs, n.name) == RenderMessage(n, reg, current) != None
  {
    RenderedMessages(ms, reg, current, cs);
    ScopeClasses(ms, es, reg, current, cs);
    var k :| 0 <= k < |ms| && ms[k] == n;
    NamedUnique(EnumClasses(es) + cs, |es| + k);
  }

  /** The class found at the path is the one rendered for m. */
  predicate Emitted(classes: seq<PyClass>, path: seq<string>, m: Message, reg: Registry, current: string) {
    AtPath(classes, path).Some? && AtPath(classes, path) == RenderMessage(m, reg, current)
  }

  /** Sibling class names differ in the scope of every declared message. */
  ghost predicate DistinctBelow(ms: seq<Message>) {
    forall q, n :: DeclaredAt(ms, q, n) ==> Distinct(ScopeNames(Children(n.nested), n.enums))
  }

  lemma DistinctInner(ms: seq<Message>, n: Message)
    requires DistinctBelow(ms) && n in ms
    ensures Distinct(ScopeNames(Children(n.nested), n.enums)) && DistinctBelow(Children(n.nested))
  {
    assert DeclaredAt(ms, [n.name], n);
    forall q, d | DeclaredAt(Children(n.nested), q, d) ensures Distinct(ScopeNames(Children(d.nested), d.enums)) {
      assert ([n.name] + q)[1..] == q;
      assert DeclaredAt(ms, [n.name] + q, d);
    }
  }

  /** The scope inside a rendered message. */
  lemma InnerScope(n: Message, reg: Registry, current: string) returns (inner: seq<PyClass>)
    requires RenderMessage(n, reg, current).Some?
    ensures RenderTop(Children(n.nested), reg, current) == Some(inner)
    ensures RenderMessage(n, reg, current).value.inner == EnumClasses(n.enums) + inner
  {
    NestedRendersChildren(n.nested, reg, current);
    inner := RenderNested(n.nested, reg, current).value;
  }

  lemma EmittedStep(classes: seq<PyClass>, path: seq<string>, c: PyClass, m: Message, reg: Registry, current: string)
    requires path != [] && Named(classes, path[0]) == Some(c) && c.Dataclass?
    requires if |path| == 1 then RenderMessage(m, reg, current) == Some(c)
             else Emitted(c.inner, path[1..], m, reg, current)
    ensures Emitted(classes, path, m, reg, current)
  {
  }

  /** Every declared message is emitted at exactly its path. */
  lemma {:induction false} EmittedAt(ms: seq<Message>, es: seq<EnumDecl>, reg: Registry, current: string,
                                     cs: seq<PyClass>, path: seq<string>, m: Message)
    requires RenderTop(ms, reg, current) == Some(cs) && DeclaredAt(ms, path, m)
    requires Distinct(ScopeNames(ms, es)) && DistinctBelow(ms)
    ensures Emitted(EnumClasses(es) + cs, path, m, reg, current)
    decreases |path|
  {
    var n :| n in ms && n.name == path[0] &&
      (if |path| == 1 then m == n else DeclaredAt(Children(n.nested), path[1..], m));
    ScopeBinds(ms, es, reg, current, cs, n);
    var c := RenderMessage(n, reg, current).value;
    if |path| > 1 {
      DistinctInner(ms, n);
      var inner := InnerScope(n, reg, current);
      EmittedAt(Children(n.nested), n.enums, reg, current, inner, path[1..], m);
    }
    EmittedStep(EnumClasses(es) + cs, path, c, m, reg, current);
  }
}
