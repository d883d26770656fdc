/** When the names a schema declares leave the generated classes meaning what the
    generator meant: exactly, message by message. */
module Safety {
  import opened Wrappers
  import opened Proto
  import opened Registry
  import opened Py
  import opened Render
  import opened Schema
  import opened Statements
  import opened ObjectCodec
  import opened Bodies
  import opened Links
  import opened RoundTrip

  // ----- the fields of a rendered class -----

  /** The field as the class body assigns it. */
  lemma DefAt(m: Message, reg: Registry, current: string, gs: seq<GenField>, i: nat)
    requires AllRendered(m, reg, current, gs) && i < |gs|
    ensures DefsOf(gs)[i].attr == AttrAt(m, i) == gs[i].attr
    ensures DefsOf(gs)[i].rhs.Factory? <==> FactoryOf(m.fields[i], reg) != ""
    ensures DefsOf(gs)[i].rhs.Factory? ==> DefsOf(gs)[i].rhs.factory == FactoryOf(m.fields[i], reg)
  {
    var f, g := m.fields[i], gs[i];
    assert Rendered(m, f, reg, current, g);
    if IsMap(f, reg) {
      MapKind(m, f, reg, current, g);
    } else if f.repeated {
      ListKind(m, f, reg, current, g);
    } else {
      SingleKind(m, f, reg, current, g);
    }
  }

  /** A default is data, and the constant assigned is the default. */
  lemma DefaultIs(g: GenField)
    ensures FieldDefault(g) != VOpaque
    ensures DefOf(g).rhs.Constant? ==> DefOf(g).rhs.v == FieldDefault(g)
    ensures DefOf(g).rhs.Factory? ==> FieldDefault(g) == if DefOf(g).rhs.factory == "list" then VList([]) else VDict(map[])
  {
  }

  ghost predicate HasAttr(m: Message, k: string) {
    exists i :: 0 <= i < |m.fields| && AttrAt(m, i) == k
  }

  ghost predicate HasDef(defs: seq<FieldDef>, k: string) {
    exists i :: 0 <= i < |defs| && defs[i].attr == k
  }

  lemma DefsDistinct(m: Message, reg: Registry, current: string, gs: seq<GenField>)
    requires AllRendered(m, reg, current, gs)
    ensures DistinctFields(DefsOf(gs))
    ensures forall k :: HasDef(DefsOf(gs), k) <==> HasAttr(m, k)
  {
    forall i | 0 <= i < |gs| ensures DefsOf(gs)[i].attr == AttrAt(m, i) {
      DefAt(m, reg, current, gs, i);
    }
    forall k ensures HasDef(DefsOf(gs), k) <==> HasAttr(m, k) {
      if i :| 0 <= i < |gs| && DefsOf(gs)[i].attr == k {
        assert AttrAt(m, i) == k;
      }
      if i :| 0 <= i < |m.fields| && AttrAt(m, i) == k {
        assert DefsOf(gs)[i].attr == k;
      }
    }
  }

  lemma FieldsReachExactly(m: Message, reg: Registry, current: string, gs: seq<GenField>)
    requires AllRendered(m, reg, current, gs)
    ensures FactoriesReach(DefsOf(gs)) <==> FieldsKeepDataclasses(m, reg)
  {
    forall i | 0 <= i < |gs|
      ensures DefsOf(gs)[i].attr == AttrAt(m, i)
      ensures DefsOf(gs)[i].rhs.Factory? <==> FactoryOf(m.fields[i], reg) != ""
    {
      DefAt(m, reg, current, gs, i);
    }
  }

  // ----- the nested classes of a rendered class -----

  /** The nested classes are those of the scope, enums first. */
  ghost predicate InnerOf(m: Message, inner: seq<PyClass>) {
    && |inner| == |Scope(m)|
    && forall i :: 0 <= i < |inner| ==> inner[i].name == Scope(m)[i] && (inner[i].Dataclass? <==> i >= |m.enums|)
  }

  lemma InnerIs(m: Message, reg: Registry, current: string)
    requires RenderMessage(m, reg, current).Some?
    ensures InnerOf(m, RenderMessage(m, reg, current).value.inner)
  {
    var inner := InnerScope(m, reg, current);
    ScopeClasses(Children(m.nested), m.enums, reg, current, inner);
  }

  /** Every nested message finds dataclasses to be decorated with. */
  ghost predicate Decorated(ns: Namespace, inner: seq<PyClass>) {
    forall j :: 0 <= j < |inner| && inner[j].Dataclass? ==>
      "dataclasses" !in ns && forall i :: 0 <= i < j ==> inner[i].name != "dataclasses"
  }

  lemma DecoratedExactly(m: Message, ns: Namespace, inner: seq<PyClass>)
    requires InnerOf(m, inner)
    requires "dataclasses" in ns <==> HasAttr(m, "dataclasses")
    ensures Decorated(ns, inner) <==> NestedKeepDataclasses(m)
  {
    var n := |inner| - 1;
    assert Children(m.nested) == [] <==> |inner| == |m.enums|;
    if Decorated(ns, inner) && Children(m.nested) != [] {
      assert inner[n].Dataclass?;
      assert forall i :: 0 <= i < n ==> inner[i].name == Scope(m)[i];
    }
    if NestedKeepDataclasses(m) {
      forall j | 0 <= j < |inner| && inner[j].Dataclass?
        ensures "dataclasses" !in ns && forall i :: 0 <= i < j ==> inner[i].name != "dataclasses"
      {
        assert Children(m.nested) != [];
        assert forall i :: 0 <= i < j ==> inner[i].name == Scope(m)[i];
      }
    }
  }

  // ----- the class body -----

  ghost predicate InnerRun(inner: seq<PyClass>) {
    forall j :: 0 <= j < |inner| ==> BodyNames(inner[j]).Ok?
  }

  /** What the class body binds: fields, then methods, then nested classes. */
  ghost predicate Binds(m: Message, defs: seq<FieldDef>, ns: Namespace, r: Namespace) {
    && FieldNames(defs) == Ok(ns)
    && (forall k :: k in r <==> k in ns || k in METHODS || k in Scope(m))
    && forall k :: k in r ==> r[k] == if k in Scope(m) then Nested else if k in METHODS then Method else ns[k]
  }

  lemma MethodsLast(ns: Namespace)
    ensures forall k :: k in WithMethods(ns) <==> k in ns || k in METHODS
    ensures forall k :: k in WithMethods(ns) ==> WithMethods(ns)[k] == if k in METHODS then Method else ns[k]
  {
  }

  lemma InnerKeys(m: Message, inner: seq<PyClass>, k: string)
    requires InnerOf(m, inner)
    ensures k in Scope(m) <==> NamedIn(inner, k)
  {
    if k in Scope(m) {
      var i :| 0 <= i < |Scope(m)| && Scope(m)[i] == k;
      assert inner[i].name == k;
    }
  }

  lemma InnerBinds(m: Message, defs: seq<FieldDef>, ns: Namespace, inner: seq<PyClass>, r: Namespace)
    requires InnerOf(m, inner) && FieldNames(defs) == Ok(ns) && InnerBound(WithMethods(ns), inner, r)
    ensures Binds(m, defs, ns, r)
  {
    MethodsLast(ns);
    forall k
      ensures k in r <==> k in ns || k in METHODS || k in Scope(m)
      ensures k in r ==> r[k] == if k in Scope(m) then Nested else if k in METHODS then Method else ns[k]
    {
      InnerKeys(m, inner, k);
    }
  }

  /** The body of a rendered class runs, with the real decorators and factories,
      exactly when its names leave dataclasses and classmethod alone and every
      nested body does. */
  lemma BodyExact(m: Message, reg: Registry, current: string, gs: seq<GenField>, c: PyClass)
    requires AllRendered(m, reg, current, gs) && RenderMessage(m, reg, current) == Some(c) && c.fields == DefsOf(gs)
    ensures BodyNames(c).Ok? <==> BodyLoads(m, reg) && InnerRun(c.inner)
    ensures BodyNames(c).Ok? ==> exists ns :: Binds(m, c.fields, ns, BodyNames(c).value)
  {
    FieldsReachExactly(m, reg, current, gs);
    FieldNamesExact(c.fields);
    if FieldNames(c.fields).Ok? {
      BodyFromFields(m, reg, current, gs, c, FieldNames(c.fields).value);
    }
  }

  lemma BodyFromFields(m: Message, reg: Registry, current: string, gs: seq<GenField>, c: PyClass, ns: Namespace)
    requires AllRendered(m, reg, current, gs) && RenderMessage(m, reg, current) == Some(c) && c.fields == DefsOf(gs)
    requires FieldNames(c.fields) == Ok(ns) && OnlyFields(c.fields, ns) && FieldsKeepDataclasses(m, reg)
    ensures BodyNames(c).Ok? <==> BodyLoads(m, reg) && InnerRun(c.inner)
    ensures BodyNames(c).Ok? ==> Binds(m, c.fields, ns, BodyNames(c).value)
  {
    AttrsAssigned(m, reg, current, gs, ns);
    InnerIs(m, reg, current);
    MethodsLast(ns);
    assert Look(ns["to_dict" := Method], "classmethod") == Outer <==> "classmethod" !in ns;
    var all := WithMethods(ns);
    InnerNamesExact(all, c.inner);
    DecoratedExactly(m, all, c.inner);
    InnerReachIs(all, c.inner);
    if BodyNames(c).Ok? {
      InnerBinds(m, c.fields, ns, c.inner, BodyNames(c).value);
    }
  }

  lemma InnerReachIs(ns: Namespace, inner: seq<PyClass>)
    ensures InnerReach(ns, inner) <==> Decorated(ns, inner) && InnerRun(inner)
  {
  }

  lemma NamesAreDefs(defs: seq<FieldDef>, ns: Namespace, k: string)
    requires OnlyFields(defs, ns)
    ensures k in ns <==> HasDef(defs, k)
  {
  }

  lemma AttrsAssigned(m: Message, reg: Registry, current: string, gs: seq<GenField>, ns: Namespace)
    requires AllRendered(m, reg, current, gs) && OnlyFields(DefsOf(gs), ns)
    ensures forall k :: k in ns <==> HasAttr(m, k)
    ensures NoOuter(ns) && NoOuter(WithMethods(ns))
  {
    DefsDistinct(m, reg, current, gs);
    forall k ensures k in ns <==> HasAttr(m, k) {
      NamesAreDefs(DefsOf(gs), ns, k);
    }
  }

  // ----- a call of the class -----

  /** The i-th attribute starts at its default. */
  ghost predicate StartsRight(defs: seq<FieldDef>, r: Namespace, gs: seq<GenField>, i: nat)
    requires i < |defs| == |gs|
  {
    Fresh(r, defs[i]) == Ok(FieldDefault(gs[i]))
  }

  /** The i-th attribute has a name of its own, and its factory is the built-in. */
  ghost predicate SafeStart(m: Message, reg: Registry, i: int)
    requires 0 <= i < |m.fields|
  {
    && AttrAt(m, i) !in METHODS && AttrAt(m, i) !in Scope(m)
    && (FactoryOf(m.fields[i], reg) != "" ==> forall j :: 0 <= j < i ==> AttrAt(m, j) != FactoryOf(m.fields[i], reg))
  }

  lemma SafeStarts(m: Message, reg: Registry)
    ensures (forall i :: 0 <= i < |m.fields| ==> SafeStart(m, reg, i)) <==> FactoriesBuiltIn(m, reg) && AttrsOwn(m)
  {
    if forall i :: 0 <= i < |m.fields| ==> SafeStart(m, reg, i) {
      forall i, j | 0 <= i < j < |m.fields| && FactoryOf(m.fields[j], reg) != ""
        ensures AttrAt(m, i) != FactoryOf(m.fields[j], reg)
      {
        assert SafeStart(m, reg, j);
      }
      forall i | 0 <= i < |m.fields| ensures AttrAt(m, i) !in METHODS && AttrAt(m, i) !in Scope(m) {
        assert SafeStart(m, reg, i);
      }
    }
    if FactoriesBuiltIn(m, reg) && AttrsOwn(m) {
      forall i | 0 <= i < |m.fields| ensures SafeStart(m, reg, i) {
        assert AttrAt(m, i) == AttrAt(m, i);
      }
    }
  }

  lemma StartExactly(m: Message, reg: Registry, current: string, gs: seq<GenField>, ns: Namespace, r: Namespace, i: nat)
    requires AllRendered(m, reg, current, gs) && Binds(m, DefsOf(gs), ns, r) && i < |gs|
    ensures StartsRight(DefsOf(gs), r, gs, i) <==> SafeStart(m, reg, i)
  {
    var defs := DefsOf(gs);
    DefAt(m, reg, current, gs, i);
    DefaultIs(gs[i]);
    DefsDistinct(m, reg, current, gs);
    FieldNameAt(defs, i);
    forall j | 0 <= j < i ensures defs[j].attr == AttrAt(m, j) {
      DefAt(m, reg, current, gs, j);
    }
    StartOf(defs, ns, r, gs, i, m);
  }

  lemma StartOf(defs: seq<FieldDef>, ns: Namespace, r: Namespace, gs: seq<GenField>, i: nat, m: Message)
    requires i < |defs| == |gs| && Binds(m, defs, ns, r) && AssignedAt(defs, ns, i) && defs[i] == DefOf(gs[i])
    ensures StartsRight(defs, r, gs, i) <==>
              && defs[i].attr !in METHODS && defs[i].attr !in Scope(m)
              && (defs[i].rhs.Factory? ==> forall j :: 0 <= j < i ==> defs[j].attr != defs[i].rhs.factory)
  {
    DefaultIs(gs[i]);
    assert defs[i].attr in ns && defs[i].attr in r;
  }

  lemma WantAt(m: Message, reg: Registry, current: string, gs: seq<GenField>)
    requires AllRendered(m, reg, current, gs)
    ensures DefaultsOf(gs).Keys == set i | 0 <= i < |DefsOf(gs)| :: DefsOf(gs)[i].attr
    ensures forall i :: 0 <= i < |gs| ==>
              DefsOf(gs)[i].attr in DefaultsOf(gs) && DefaultsOf(gs)[DefsOf(gs)[i].attr] == FieldDefault(gs[i])
  {
    DistinctWires(m, reg, current, gs);
    SameAttrSet(DefsOf(gs), gs);
    forall i | 0 <= i < |gs|
      ensures DefsOf(gs)[i].attr in DefaultsOf(gs) && DefaultsOf(gs)[DefsOf(gs)[i].attr] == FieldDefault(gs[i])
    {
      DefaultAt(gs, i);
    }
  }

  lemma SameAttrSet(defs: seq<FieldDef>, gs: seq<GenField>)
    requires |defs| == |gs| && forall i :: 0 <= i < |gs| ==> defs[i].attr == gs[i].attr
    ensures (set i | 0 <= i < |gs| :: gs[i].attr) == set i | 0 <= i < |defs| :: defs[i].attr
  {
  }

  lemma DefaultsStart(m: Message, reg: Registry, current: string, gs: seq<GenField>, r: Namespace)
    requires AllRendered(m, reg, current, gs)
    ensures Construct(DefsOf(gs), r) == Ok(DefaultsOf(gs)) <==> forall i :: 0 <= i < |gs| ==> StartsRight(DefsOf(gs), r, gs, i)
  {
    DefsDistinct(m, reg, current, gs);
    WantAt(m, reg, current, gs);
    StartEach(DefsOf(gs), gs, r, DefaultsOf(gs));
  }

  lemma StartEach(defs: seq<FieldDef>, gs: seq<GenField>, r: Namespace, want: map<string, Val>)
    requires DistinctFields(defs) && |defs| == |gs| && want.Keys == set i | 0 <= i < |defs| :: defs[i].attr
    requires forall i :: 0 <= i < |defs| ==> defs[i].attr in want && want[defs[i].attr] == FieldDefault(gs[i])
    ensures Construct(defs, r) == Ok(want) <==> forall i :: 0 <= i < |gs| ==> StartsRight(defs, r, gs, i)
  {
    ConstructEach(defs, r, want);
    forall i | 0 <= i < |gs| ensures StartsRight(defs, r, gs, i) <==> Fresh(r, defs[i]) == Ok(want[defs[i].attr]) {
    }
  }

  /** A call of the class makes every attribute its default exactly when no name
      hides a factory and no attribute is called like a method or nested class. */
  lemma CallExact(m: Message, reg: Registry, current: string, gs: seq<GenField>, ns: Namespace, r: Namespace)
    requires AllRendered(m, reg, current, gs) && Binds(m, DefsOf(gs), ns, r)
    ensures Construct(DefsOf(gs), r) == Ok(DefaultsOf(gs)) <==> FactoriesBuiltIn(m, reg) && AttrsOwn(m)
  {
    DefaultsStart(m, reg, current, gs, r);
    forall i | 0 <= i < |gs| ensures StartsRight(DefsOf(gs), r, gs, i) <==> SafeStart(m, reg, i) {
      StartExactly(m, reg, current, gs, ns, r, i);
    }
    SafeStarts(m, reg);
  }

  /** The class means what the generator meant exactly when its names are safe and
      the nested bodies run. */
  lemma BodyMeansExactly(m: Message, reg: Registry, current: string, gs: seq<GenField>, c: PyClass)
    requires AllRendered(m, reg, current, gs) && RenderMessage(m, reg, current) == Some(c) && c.fields == DefsOf(gs)
    ensures BodyMeans(c, gs) <==> SafeNames(m, reg) && InnerRun(c.inner)
  {
    BodyExact(m, reg, current, gs, c);
    if BodyNames(c).Ok? {
      var r := BodyNames(c).value;
      var ns :| Binds(m, c.fields, ns, r);
      CallExact(m, reg, current, gs, ns, r);
      MethodsExact(m, reg, current, gs, ns, r);
    }
  }

  lemma MethodsExact(m: Message, reg: Registry, current: string, gs: seq<GenField>, ns: Namespace, r: Namespace)
    requires AllRendered(m, reg, current, gs) && Binds(m, DefsOf(gs), ns, r)
    ensures Look(r, "to_dict") == Method && Look(r, "from_dict") == Method <==> MethodsOwn(m)
    ensures AttrsOwn(m) ==> forall i :: 0 <= i < |gs| ==> gs[i].attr != "to_dict"
  {
    assert "to_dict" in METHODS && "from_dict" in METHODS;
    forall i | 0 <= i < |gs| ensures gs[i].attr == AttrAt(m, i) {
      DefAt(m, reg, current, gs, i);
    }
  }
}
