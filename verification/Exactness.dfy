/** The safety conditions are exact: on any schema that breaks one, some module
    cannot be imported or some value does not round-trip. */
module Exactness {
  import opened Wrappers
  import opened Proto
  import opened Registry
  import opened Py
  import opened Render
  import opened Schema
  import opened Codec
  import opened Statements
  import opened ObjectCodec
  import opened Bodies
  import opened Names
  import opened Links
  import opened RoundTrip
  import opened Safety
  import opened Loading
  import opened Generator

  // ----- the object with every field at its default -----

  function DefaultObject(id: ClassId, gs: seq<GenField>): Val {
    VObj(id, DefaultsOf(gs))
  }

  lemma DefaultStored(m: Message, reg: Registry, current: string, gs: seq<GenField>, i: nat)
    requires AllRendered(m, reg, current, gs) && i < |gs|
    ensures gs[i].attr in DefaultsOf(gs) && DefaultsOf(gs)[gs[i].attr] == FieldDefault(gs[i])
  {
    DistinctWires(m, reg, current, gs);
    DefaultAt(gs, i);
  }

  lemma DefaultFieldTyped(t: Table, m: Message, reg: Registry, current: string, f: Field, g: GenField)
    requires Rendered(m, f, reg, current, g)
    ensures FieldTyped(t, reg, f, FieldDefault(g)) && !Present(f, reg, FieldDefault(g))
    ensures Canonical(t, FieldDefault(g)) && !Conflict(t, FieldDefault(g)) && FieldDefault(g) != VFloat(NegZero)
    ensures TimesFit(FieldDefault(g))
    ensures IsArm(f) || (Fixed(f) && !f.repeated) ==> FieldDefault(g) == VNone
  {
    if IsMap(f, reg) {
      MapKind(m, f, reg, current, g);
    } else if f.repeated {
      ListKind(m, f, reg, current, g);
    } else {
      DefaultSingle(t, m, reg, current, f, g);
    }
  }

  lemma DefaultSingle(t: Table, m: Message, reg: Registry, current: string, f: Field, g: GenField)
    requires Rendered(m, f, reg, current, g) && !IsMap(f, reg) && !f.repeated
    ensures FieldTyped(t, reg, f, FieldDefault(g)) && !Present(f, reg, FieldDefault(g))
    ensures Canonical(t, FieldDefault(g)) && !Conflict(t, FieldDefault(g)) && FieldDefault(g) != VFloat(NegZero)
    ensures TimesFit(FieldDefault(g))
    ensures IsArm(f) || Fixed(f) ==> FieldDefault(g) == VNone
  {
    SingleKind(m, f, reg, current, g);
    if !TracksPresence(f) {
      PlainKind(m, f, reg, current, g);
      ZeroTyped(f, reg);
    }
  }

  /** The zero of a plain field is a leaf of its type. */
  lemma ZeroTyped(f: Field, reg: Registry)
    requires GoodElem(f) && !TracksPresence(f)
    ensures ScalarTyped(f.typ, Zero(f, reg)) && Leaf(Zero(f, reg)) && !Zero(f, reg).VTime?
    ensures Zero(f, reg) != VFloat(NegZero)
  {
  }

  lemma DefaultKeys(m: Message, reg: Registry, current: string, gs: seq<GenField>)
    requires AllRendered(m, reg, current, gs)
    ensures DefaultsOf(gs).Keys == set i | 0 <= i < |m.fields| :: PyAttr(m.fields[i].name)
  {
    assert forall i :: 0 <= i < |gs| ==> gs[i].attr == PyAttr(m.fields[i].name);
  }

  lemma DefaultTyped(t: Table, reg: Registry, id: ClassId, gs: seq<GenField>)
    requires id in t && AllRendered(t[id], reg, id.mod, gs)
    ensures ObjTyped(t, reg, id, DefaultObject(id, gs))
  {
    var m := t[id];
    DefaultKeys(m, reg, id.mod, gs);
    forall i | 0 <= i < |m.fields| ensures FieldTyped(t, reg, m.fields[i], DefaultsOf(gs)[PyAttr(m.fields[i].name)]) {
      DefaultStored(m, reg, id.mod, gs, i);
      DefaultFieldTyped(t, m, reg, id.mod, m.fields[i], gs[i]);
    }
  }

  /** Every attribute of the default object is the default of some field. */
  lemma DefaultFrom(m: Message, reg: Registry, current: string, gs: seq<GenField>, a: string) returns (i: nat)
    requires AllRendered(m, reg, current, gs) && a in DefaultsOf(gs)
    ensures i < |gs| && gs[i].attr == a && DefaultsOf(gs)[a] == FieldDefault(gs[i])
  {
    i :| 0 <= i < |gs| && gs[i].attr == a;
    DefaultStored(m, reg, current, gs, i);
  }

  lemma DefaultClean(t: Table, reg: Registry, id: ClassId, gs: seq<GenField>)
    requires id in t && AllRendered(t[id], reg, id.mod, gs)
    ensures !Conflict(t, DefaultObject(id, gs)) && Canonical(t, DefaultObject(id, gs)) && TimesFit(DefaultObject(id, gs))
  {
    var m, attrs := t[id], DefaultsOf(gs);
    forall a | a in attrs
      ensures Canonical(t, attrs[a]) && !Conflict(t, attrs[a]) && attrs[a] != VFloat(NegZero) && TimesFit(attrs[a])
    {
      var i := DefaultFrom(m, reg, id.mod, gs, a);
      DefaultFieldTyped(t, m, reg, id.mod, m.fields[i], gs[i]);
    }
    forall i | 0 <= i < |m.fields| && IsArm(m.fields[i]) ensures !IsSet(attrs, PyAttr(m.fields[i].name)) {
      DefaultStored(m, reg, id.mod, gs, i);
      DefaultFieldTyped(t, m, reg, id.mod, m.fields[i], gs[i]);
    }
    assert !NodeConflict(m, attrs);
  }

  // ----- the default object needs safe names -----

  lemma {:induction false} EmptyLoads(p: Program, current: string, loads: seq<Load>, attrs: map<string, Val>)
    ensures RunLoads(p, current, loads, VDict(map[]), attrs) == Ok(attrs)
    decreases |loads|
  {
    if loads != [] {
      EmptyLoads(p, current, loads[1..], attrs);
    }
  }

  /** Only present fields have keys: the default object's wire form is empty. */
  lemma DefaultWire(t: Table, reg: Registry, id: ClassId, gs: seq<GenField>, d: map<MapKey, Val>)
    requires id in t && AllRendered(t[id], reg, id.mod, gs) && WireKeys(t[id], reg, DefaultsOf(gs), d)
    ensures d == map[]
  {
    var m := t[id];
    forall k | k in d ensures false {
      var i :| 0 <= i < |m.fields| && Str(m.fields[i].jsonName) == k;
      DefaultStored(m, reg, id.mod, gs, i);
      DefaultFieldTyped(t, m, reg, id.mod, m.fields[i], gs[i]);
    }
  }

  /** What a successful to_dict says of the class. */
  lemma EncodedBody(p: Program, v: Val, c: PyClass)
    requires v.VObj? && ClassOf(p, v.cls) == Some(c) && c.Dataclass? && RunToDict(p, v).Ok?
    ensures BodyNames(c).Ok? && Look(BodyNames(c).value, "to_dict") == Method && "to_dict" !in v.attrs
    ensures RunStmts(p, v.cls.mod, c.toDict, v, map[]).Ok?
  {
  }

  /** What a successful from_dict of an empty object says of it. */
  lemma DecodedBody(p: Program, id: ClassId, c: PyClass)
    requires ClassOf(p, id) == Some(c) && c.Dataclass? && RunFromDict(p, id, VDict(map[])).Ok?
    ensures BodyNames(c).Ok? && Look(BodyNames(c).value, "from_dict") == Method
    ensures Construct(c.fields, BodyNames(c).value).Ok?
    ensures RunFromDict(p, id, VDict(map[])) == Ok(VObj(id, Construct(c.fields, BodyNames(c).value).value))
  {
    var ns := BodyNames(c).value;
    if Construct(c.fields, ns).Ok? {
      EmptyLoads(p, id.mod, c.fromDict, Construct(c.fields, ns).value);
    }
  }

  /** A message whose default object round-trips has safe names. */
  lemma NamesAreSafe(p: Program, reg: Registry, t: Table, id: ClassId, gs: seq<GenField>, c: PyClass)
    requires id in t && AllRendered(t[id], reg, id.mod, gs) && ClassOf(p, id) == Some(c) && c.Dataclass?
    requires RenderMessage(t[id], reg, id.mod) == Some(c) && c.fields == DefsOf(gs)
    requires RoundTrips(p, reg, t, id, DefaultObject(id, gs))
    ensures SafeNames(t[id], reg)
  {
    var v := DefaultObject(id, gs);
    DefaultClean(t, reg, id, gs);
    var d := RunToDict(p, v).value.m;
    DefaultWire(t, reg, id, gs, d);
    assert RunToDict(p, v).value == VDict(map[]);
    NormFixes(t, v);
    EncodedBody(p, v, c);
    DecodedBody(p, id, c);
    assert Construct(c.fields, BodyNames(c).value) == Ok(DefaultsOf(gs));
    NamesMean(t[id], reg, id.mod, gs, c);
  }

  lemma NamesMean(m: Message, reg: Registry, current: string, gs: seq<GenField>, c: PyClass)
    requires AllRendered(m, reg, current, gs) && RenderMessage(m, reg, current) == Some(c) && c.fields == DefsOf(gs)
    requires c.Dataclass? && BodyNames(c).Ok?
    requires Look(BodyNames(c).value, "to_dict") == Method && Look(BodyNames(c).value, "from_dict") == Method
    requires "to_dict" !in DefaultsOf(gs) && Construct(c.fields, BodyNames(c).value) == Ok(DefaultsOf(gs))
    ensures SafeNames(m, reg)
  {
    NotStored(gs, "to_dict");
    BodyMeansExactly(m, reg, current, gs, c);
  }

  lemma NotStored(gs: seq<GenField>, a: string)
    requires a !in DefaultsOf(gs)
    ensures forall i :: 0 <= i < |gs| ==> gs[i].attr != a
  {
  }

  /** An attribute that cannot be made makes the call fail, always with a
      TypeError. */
  lemma {:induction false} ConstructFails(defs: seq<FieldDef>, ns: Namespace, j: nat)
    requires j < |defs| && Fresh(ns, defs[j]).Raise?
    ensures Construct(defs, ns) == Raise(TypeError)
  {
    var n := |defs| - 1;
    ConstructErrors(defs[..n], ns);
    if j < n {
      ConstructFails(defs[..n], ns, j);
    }
  }

  lemma {:induction false} ConstructErrors(defs: seq<FieldDef>, ns: Namespace)
    ensures Construct(defs, ns).Ok? || Construct(defs, ns) == Raise(TypeError)
  {
    if defs != [] {
      ConstructErrors(defs[..|defs| - 1], ns);
    }
  }

  /** The factory of field j is the data another attribute holds. */
  lemma HiddenFactory(m: Message, reg: Registry, current: string, gs: seq<GenField>, ns: Namespace, r: Namespace, i: nat, j: nat)
    requires AllRendered(m, reg, current, gs) && Binds(m, DefsOf(gs), ns, r) && AttrsOwn(m)
    requires i < j < |gs| && FactoryOf(m.fields[j], reg) != "" && AttrAt(m, i) == FactoryOf(m.fields[j], reg)
    ensures Fresh(r, DefsOf(gs)[j]) == Raise(TypeError)
  {
    var defs := DefsOf(gs);
    DefAt(m, reg, current, gs, i);
    DefAt(m, reg, current, gs, j);
    DefsDistinct(m, reg, current, gs);
    FieldNameAt(defs, j);
    assert defs[i].attr == defs[j].rhs.factory;
    assert defs[j].attr in ns && defs[j].attr in r && r[defs[j].attr] == ns[defs[j].attr];
  }

  /** A repeated or map field after an attribute called `list` or `dict`: every
      from_dict of the message raises TypeError. */
  lemma HiddenFactoryRaises(p: Program, reg: Registry, t: Table, id: ClassId, i: nat, j: nat, w: Val)
    requires Linked(p, reg, t) && id in t && i < j < |t[id].fields|
    requires FactoryOf(t[id].fields[j], reg) != "" && AttrAt(t[id], i) == FactoryOf(t[id].fields[j], reg)
    requires AttrsOwn(t[id]) && MethodsOwn(t[id]) && BodyLoads(t[id], reg) && Scope(t[id]) == []
    ensures RunFromDict(p, id, w) == Raise(TypeError)
  {
    var m := t[id];
    var gs := FieldsOf(p, reg, t, id);
    var c := ClassOf(p, id).value;
    InnerIs(m, reg, id.mod);
    BodyExact(m, reg, id.mod, gs, c);
    var r := BodyNames(c).value;
    var ns :| Binds(m, c.fields, ns, r);
    MethodsExact(m, reg, id.mod, gs, ns, r);
    HiddenFactory(m, reg, id.mod, gs, ns, r, i, j);
    ConstructFails(c.fields, r, j);
    CallFails(p, id, c, w);
  }

  lemma CallFails(p: Program, id: ClassId, c: PyClass, w: Val)
    requires ClassOf(p, id) == Some(c) && c.Dataclass? && BodyNames(c).Ok?
    requires Look(BodyNames(c).value, "from_dict") == Method && Construct(c.fields, BodyNames(c).value) == Raise(TypeError)
    ensures RunFromDict(p, id, w) == Raise(TypeError)
  {
  }

  // ----- single arms -----

  lemma {:induction false} LoneArm(fields: seq<GenField>, i: nat, group: string)
    requires i < |fields| && fields[i].oneof == group
    requires forall j :: 0 <= j < |fields| && fields[j].oneof == group ==> j == i
    ensures ArmsOf(fields, group) == [fields[i]]
  {
    var n := |fields| - 1;
    if i < n {
      LoneArm(fields[..n], i, group);
    } else {
      NoArms(fields[..n], group);
    }
  }

  lemma {:induction false} NoArms(fields: seq<GenField>, group: string)
    requires forall j :: 0 <= j < |fields| ==> fields[j].oneof != group
    ensures ArmsOf(fields, group) == []
  {
    if fields != [] {
      NoArms(fields[..|fields| - 1], group);
    }
  }

  /** The value of a single arm is iterated: unless it is text or bytes of at most
      one element, to_dict raises; unset, it always does. */
  lemma SingleArmExact(p: Program, current: string, a: string, self: Val, rest: seq<Stmt>, out: map<MapKey, Val>)
    requires self.VObj? && a in self.attrs
    ensures var v := self.attrs[a];
            var passes := (v.VStr? && |v.s| <= 1) || (v.VBytes? && |v.bs| <= 1);
            RunStmts(p, current, [OneofCheck([a])] + rest, self, out) ==
              if passes then RunStmts(p, current, rest, self, out)
              else Raise(if v.VStr? || v.VBytes? then ErrorOf(p, current) else TypeError)
  {
    var stmts := [OneofCheck([a])] + rest;
    assert stmts[1..] == rest && stmts[0] == OneofCheck([a]);
  }

  lemma PartnerOf(m: Message, reg: Registry, current: string, gs: seq<GenField>, i: nat)
    requires AllRendered(m, reg, current, gs) && i < |gs| && IsArm(m.fields[i])
    requires forall j :: 0 <= j < |m.fields| && j != i ==> !SameOneof(m.fields[i], m.fields[j])
    ensures gs[i].oneof != "" && ArmsOf(gs, gs[i].oneof) == [gs[i]]
  {
    ArmIs(m, reg, current, m.fields[i], gs[i]);
    forall j | 0 <= j < |gs| && gs[j].oneof == gs[i].oneof ensures j == i {
      SameGroup(m, reg, current, m.fields[i], m.fields[j], gs[i], gs[j]);
    }
    LoneArm(gs, i, gs[i].oneof);
  }

  /** A body that runs on the default object checks no single arm. */
  lemma ArmsArePaired(p: Program, m: Message, reg: Registry, t: Table, id: ClassId, gs: seq<GenField>)
    requires AllRendered(m, reg, id.mod, gs)
    requires RunStmts(p, id.mod, ToDictStmts(gs), DefaultObject(id, gs), map[]).Ok?
    ensures ArmsPaired(m)
  {
    forall i | 0 <= i < |m.fields| && IsArm(m.fields[i])
      ensures exists j :: 0 <= j < |m.fields| && j != i && SameOneof(m.fields[i], m.fields[j])
    {
      if forall j :: 0 <= j < |m.fields| && j != i ==> !SameOneof(m.fields[i], m.fields[j]) {
        PartnerOf(m, reg, id.mod, gs, i);
        CheckIsRendered(gs, i);
        DefaultStored(m, reg, id.mod, gs, i);
        DefaultFieldTyped(t, m, reg, id.mod, m.fields[i], gs[i]);
        LoneBreaks(p, id, gs, i);
        RunStuck(p, id.mod, ToDictStmts(gs), DefaultObject(id, gs), map[], CheckOf(gs, gs[i].oneof));
      }
    }
  }

  lemma LoneBreaks(p: Program, id: ClassId, gs: seq<GenField>, i: nat)
    requires i < |gs| && ArmsOf(gs, gs[i].oneof) == [gs[i]]
    requires gs[i].attr in DefaultsOf(gs) && DefaultsOf(gs)[gs[i].attr] == VNone
    ensures Breaks(p, id.mod, CheckOf(gs, gs[i].oneof), DefaultObject(id, gs))
  {
    assert AttrsOf([gs[i]]) == [gs[i].attr];
  }

  /** A message whose oneof has a single arm, in any object that leaves it unset:
      to_dict raises, with no oneof set twice. */
  lemma SingleArmUnset(p: Program, reg: Registry, t: Table, id: ClassId, v: Val, i: nat)
    requires Linked(p, reg, t) && ObjTyped(t, reg, id, v) && i < |t[id].fields| && IsArm(t[id].fields[i])
    requires forall j :: 0 <= j < |t[id].fields| && j != i ==> !SameOneof(t[id].fields[i], t[id].fields[j])
    requires v.attrs[AttrAt(t[id], i)] == VNone
    ensures RunToDict(p, v).Raise?
  {
    var gs := FieldsOf(p, reg, t, id);
    PartnerOf(t[id], reg, id.mod, gs, i);
    TypedStores(t, reg, id, v, i);
    LoneCheck(p, id.mod, gs, v, i);
    NeverEncodes(p, v, ClassOf(p, id).value);
  }

  lemma TypedStores(t: Table, reg: Registry, id: ClassId, v: Val, i: nat)
    requires ObjTyped(t, reg, id, v) && i < |t[id].fields|
    ensures AttrAt(t[id], i) in v.attrs && v.cls == id
  {
  }

  lemma LoneCheck(p: Program, current: string, gs: seq<GenField>, v: Val, i: nat)
    requires v.VObj? && i < |gs| && gs[i].oneof != "" && ArmsOf(gs, gs[i].oneof) == [gs[i]]
    requires gs[i].attr in v.attrs && v.attrs[gs[i].attr] == VNone
    ensures RunStmts(p, current, ToDictStmts(gs), v, map[]).Raise?
  {
    CheckIsRendered(gs, i);
    assert AttrsOf([gs[i]]) == [gs[i].attr];
    RunStuck(p, current, ToDictStmts(gs), v, map[], CheckOf(gs, gs[i].oneof));
  }

  // ----- values to put in a field -----

  /** The fields rendered for a class of the table. */
  lemma FieldsOf(p: Program, reg: Registry, t: Table, id: ClassId) returns (gs: seq<GenField>)
    requires Linked(p, reg, t) && id in t
    ensures FieldsUpTo(t[id], |t[id].fields|, reg, id.mod) == Some(gs) && AllRendered(t[id], reg, id.mod, gs)
    ensures ClassOf(p, id).Some? && ClassOf(p, id) == RenderMessage(t[id], reg, id.mod)
    ensures ClassOf(p, id).value.Dataclass?
    ensures var c := ClassOf(p, id).value;
            c.fields == DefsOf(gs) && c.toDict == ToDictStmts(gs) && c.fromDict == LoadsOf(gs)
  {
    assert ClassRendered(p, reg, t, id, t[id]);
    gs := ClassBody(p, reg, t, id);
  }

  /** Every field type has a value that is not None. */
  lemma SomeValue(p: Program, reg: Registry, t: Table, current: string, f: Field) returns (v: Val)
    requires Linked(p, reg, t) && GoodElem(f) && !IsMap(f, reg) && FieldLinks(p, reg, t, current, f)
    ensures ElemTyped(t, reg, f, v) && v != VNone && TimesFit(v) && (Fixed(f) ==> v == VInt(0))
  {
    if f.typ.TMessage? && !WellKnown(f.typeName) {
      var id := reg.byFQ[f.typeName];
      var gs := FieldsOf(p, reg, t, id);
      DefaultTyped(t, reg, id, gs);
      DefaultClean(t, reg, id, gs);
      v := DefaultObject(id, gs);
    } else {
      v := SomeScalar(t, reg, f);
    }
  }

  lemma SomeScalar(t: Table, reg: Registry, f: Field) returns (v: Val)
    requires GoodElem(f) && (f.typ.TMessage? ==> WellKnown(f.typeName))
    ensures ElemTyped(t, reg, f, v) && v != VNone && TimesFit(v) && (Fixed(f) ==> v == VInt(0))
  {
    match f.typ
    case TString | TEnum => v := VStr("");
    case TBytes => v := VBytes([]);
    case TBool => v := VBool(false);
    case TFloat | TDouble => v := VFloat(NaN);
    case TMessage => v := if f.typeName == TIMESTAMP then VTime(0, Utc) else VDelta(0);
    case _ => v := VInt(0);
  }

  /** The default object with one attribute set. */
  function WithAttr(v: Val, a: string, x: Val): Val
    requires v.VObj?
  {
    VObj(v.cls, v.attrs[a := x])
  }

  lemma WithAttrFits(v: Val, a: string, x: Val)
    requires v.VObj? && TimesFit(v) && TimesFit(x)
    ensures TimesFit(WithAttr(v, a, x))
  {
  }

  lemma WithAttrAt(t: Table, reg: Registry, m: Message, attrs: map<string, Val>, i: nat, x: Val, j: nat)
    requires GoodMessage(m, reg) && i < |m.fields| && j < |m.fields| && PyAttr(m.fields[j].name) in attrs
    requires FieldTyped(t, reg, m.fields[i], x) && FieldTyped(t, reg, m.fields[j], attrs[PyAttr(m.fields[j].name)])
    ensures FieldTyped(t, reg, m.fields[j], attrs[PyAttr(m.fields[i].name) := x][PyAttr(m.fields[j].name)])
  {
    assert i != j ==> PyAttr(m.fields[i].name) != PyAttr(m.fields[j].name);
  }

  lemma WithAttrTyped(t: Table, reg: Registry, id: ClassId, v: Val, i: nat, x: Val)
    requires ObjTyped(t, reg, id, v) && GoodMessage(t[id], reg) && i < |t[id].fields| && FieldTyped(t, reg, t[id].fields[i], x)
    ensures ObjTyped(t, reg, id, WithAttr(v, PyAttr(t[id].fields[i].name), x))
  {
    var m, a := t[id], PyAttr(t[id].fields[i].name);
    assert a in v.attrs;
    forall j | 0 <= j < |m.fields| ensures FieldTyped(t, reg, m.fields[j], v.attrs[a := x][PyAttr(m.fields[j].name)]) {
      WithAttrAt(t, reg, m, v.attrs, i, x, j);
    }
  }

  // ----- fixed-width fields -----

  /** A value of the field that the generated code cannot encode. */
  function FixedValue(f: Field): Val {
    if f.repeated then VList([VInt(0)]) else VInt(0)
  }

  lemma FixedValueTyped(t: Table, reg: Registry, f: Field)
    requires Fixed(f) && !IsMap(f, reg)
    ensures FieldTyped(t, reg, f, FixedValue(f)) && Present(f, reg, FixedValue(f)) && TimesFit(FixedValue(f))
  {
    if f.repeated {
      assert forall x :: x in [VInt(0)] ==> x == VInt(0);
    }
  }

  lemma FixedValueBreaks(p: Program, reg: Registry, t: Table, current: string, m: Message, f: Field, g: GenField, self: Val)
    requires Rendered(m, f, reg, current, g) && Fixed(f) && self.VObj? && g.attr in self.attrs
    requires self.attrs[g.attr] == FixedValue(f)
    ensures Breaks(p, current, EmitOf(g), self)
  {
    var v := FixedValue(f);
    NoFixedMaps(m, reg, current, f, g);
    FixedValueTyped(t, reg, f);
    if f.repeated {
      FixedListOk(p, reg, t, current, m, f, g, v);
    } else {
      FixedFieldOk(p, reg, t, current, m, f, g, v);
    }
    FieldBreaks(p, reg, t, current, f, g, self);
  }

  lemma OthersClean(t: Table, reg: Registry, id: ClassId, gs: seq<GenField>, a: string)
    requires id in t && AllRendered(t[id], reg, id.mod, gs) && a in DefaultsOf(gs)
    ensures !Conflict(t, DefaultsOf(gs)[a])
  {
    var j := DefaultFrom(t[id], reg, id.mod, gs, a);
    DefaultFieldTyped(t, t[id], reg, id.mod, t[id].fields[j], gs[j]);
  }

  lemma OthersUnset(t: Table, reg: Registry, id: ClassId, gs: seq<GenField>, j: nat)
    requires id in t && AllRendered(t[id], reg, id.mod, gs) && j < |gs| && IsArm(t[id].fields[j])
    ensures !IsSet(DefaultsOf(gs), gs[j].attr)
  {
    DefaultStored(t[id], reg, id.mod, gs, j);
    DefaultFieldTyped(t, t[id], reg, id.mod, t[id].fields[j], gs[j]);
  }

  /** One set arm is no conflict. */
  lemma OneSetIsClean(t: Table, reg: Registry, id: ClassId, gs: seq<GenField>, i: nat)
    requires id in t && AllRendered(t[id], reg, id.mod, gs) && i < |gs| && Fixed(t[id].fields[i])
    ensures !Conflict(t, WithAttr(DefaultObject(id, gs), gs[i].attr, FixedValue(t[id].fields[i])))
  {
    var m := t[id];
    var attrs := DefaultsOf(gs)[gs[i].attr := FixedValue(m.fields[i])];
    forall a | a in attrs ensures !Conflict(t, attrs[a]) {
      if a != gs[i].attr {
        OthersClean(t, reg, id, gs, a);
      }
    }
    OneSetNode(t, reg, id, gs, i, FixedValue(m.fields[i]));
  }

  lemma OneSetNode(t: Table, reg: Registry, id: ClassId, gs: seq<GenField>, i: nat, x: Val)
    requires id in t && AllRendered(t[id], reg, id.mod, gs) && i < |gs|
    ensures !NodeConflict(t[id], DefaultsOf(gs)[gs[i].attr := x])
  {
    forall j | 0 <= j < |t[id].fields| && j != i && IsArm(t[id].fields[j])
      ensures !IsSet(DefaultsOf(gs)[gs[i].attr := x], PyAttr(t[id].fields[j].name))
    {
      OtherUnset(t, reg, id, gs, i, x, j);
    }
    OneArmNoConflict(t[id], DefaultsOf(gs)[gs[i].attr := x], i);
  }

  lemma OneArmNoConflict(m: Message, attrs: map<string, Val>, i: nat)
    requires forall j :: 0 <= j < |m.fields| && j != i && IsArm(m.fields[j]) ==> !IsSet(attrs, PyAttr(m.fields[j].name))
    ensures !NodeConflict(m, attrs)
  {
  }

  lemma OtherUnset(t: Table, reg: Registry, id: ClassId, gs: seq<GenField>, i: nat, x: Val, j: nat)
    requires id in t && AllRendered(t[id], reg, id.mod, gs) && i < |gs| && j < |gs| && j != i && IsArm(t[id].fields[j])
    ensures !IsSet(DefaultsOf(gs)[gs[i].attr := x], PyAttr(t[id].fields[j].name))
  {
    OthersUnset(t, reg, id, gs, j);
    AttrsDiffer(t[id], reg, id.mod, gs, i, j);
  }

  /** A message with a fixed32 or fixed64 field has a value that does not encode. */
  lemma FixedNeverWorks(p: Program, reg: Registry, t: Table, id: ClassId, i: nat) returns (v: Val)
    requires Linked(p, reg, t) && id in t && i < |t[id].fields| && Fixed(t[id].fields[i])
    ensures ObjTyped(t, reg, id, v) && TimesFit(v) && !Conflict(t, v) && RunToDict(p, v).Raise?
  {
    var m := t[id];
    var gs := FieldsOf(p, reg, t, id);
    var f, g := m.fields[i], gs[i];
    assert Rendered(m, f, reg, id.mod, g);
    NoFixedMaps(m, reg, id.mod, f, g);
    DefaultTyped(t, reg, id, gs);
    FixedValueTyped(t, reg, f);
    WithAttrTyped(t, reg, id, DefaultObject(id, gs), i, FixedValue(f));
    v := WithAttr(DefaultObject(id, gs), g.attr, FixedValue(f));
    DefaultClean(t, reg, id, gs);
    WithAttrFits(DefaultObject(id, gs), g.attr, FixedValue(f));
    OneSetIsClean(t, reg, id, gs, i);
    FixedValueBreaks(p, reg, t, id.mod, m, f, g, v);
    EmitIsRendered(gs, i);
    RunStuck(p, id.mod, ToDictStmts(gs), v, map[], EmitOf(g));
    NeverEncodes(p, v, ClassOf(p, id).value);
  }

  lemma NeverEncodes(p: Program, v: Val, c: PyClass)
    requires v.VObj? && ClassOf(p, v.cls) == Some(c) && c.Dataclass?
    requires RunStmts(p, v.cls.mod, c.toDict, v, map[]).Raise?
    ensures RunToDict(p, v).Raise?
  {
  }

  // ----- a hidden error -----

  /** The statement does nothing for this object. */
  ghost predicate Quiet(p: Program, s: Stmt, self: Val)
    requires self.VObj?
  {
    match s
    case Emit(test, attr, _, _) => attr in self.attrs && !Holds(test, self.attrs[attr])
    case OneofCheck(arms) => (forall a :: a in arms ==> a in self.attrs) && ArmCount(self.attrs, arms) == Ok(0)
  }

  lemma {:induction false} QuietRuns(p: Program, current: string, pre: seq<Stmt>, rest: seq<Stmt>, self: Val, out: map<MapKey, Val>)
    requires self.VObj? && forall s :: s in pre ==> Quiet(p, s, self)
    ensures RunStmts(p, current, pre + rest, self, out) == RunStmts(p, current, rest, self, out)
    decreases |pre|
  {
    if pre == [] {
      assert pre + rest == rest;
    } else {
      assert (pre + rest)[1..] == pre[1..] + rest && (pre + rest)[0] == pre[0];
      assert Quiet(p, pre[0], self);
      QuietRuns(p, current, pre[1..], rest, self, out);
    }
  }

  /** Field k is the first of group g. */
  ghost predicate FirstOf(fields: seq<GenField>, k: nat, g: string) {
    k < |fields| && fields[k].oneof == g && g != "" && forall i :: 0 <= i < k ==> fields[i].oneof != g
  }

  lemma FirstPart(fields: seq<GenField>, k: nat, g: string)
    requires FirstOf(fields, k, g)
    ensures PassPart(fields, k + 1) == [CheckOf(fields, g)] + EmitsOf(ArmsOf(fields, g))
  {
    GroupsMembers(fields, k, g);
  }

  /** The second pass up to n: whole other groups, then the check of g, then post. */
  ghost predicate SplitsAt(fields: seq<GenField>, n: nat, k: nat, g: string, post: seq<Stmt>) {
    k <= |fields| && n <= |fields| && OneofPass(fields, n) == OneofPass(fields, k) + ([CheckOf(fields, g)] + post)
  }

  lemma SplitStarts(fields: seq<GenField>, k: nat, g: string)
    requires FirstOf(fields, k, g)
    ensures Splits(fields, k + 1, k, g)
  {
    PassGrows(fields, k + 1);
    FirstPart(fields, k, g);
    assert SplitsAt(fields, k + 1, k, g, EmitsOf(ArmsOf(fields, g)));
  }

  lemma SplitGrows(fields: seq<GenField>, n: nat, k: nat, g: string, before: seq<Stmt>)
    requires 0 < n <= |fields| && SplitsAt(fields, n - 1, k, g, before)
    ensures SplitsAt(fields, n, k, g, before + PassPart(fields, n))
  {
    PassGrows(fields, n);
    Reassociate(OneofPass(fields, k), [CheckOf(fields, g)], before, PassPart(fields, n));
  }

  /** The check of a group comes before its arms and after whole other groups. */
  lemma {:induction false} PassSplits(fields: seq<GenField>, n: nat, k: nat, g: string)
    requires k < n <= |fields| && FirstOf(fields, k, g)
    ensures Splits(fields, n, k, g)
  {
    if n == k + 1 {
      SplitStarts(fields, k, g);
    } else {
      PassSplits(fields, n - 1, k, g);
      SplitMore(fields, n, k, g);
    }
  }

  ghost predicate Splits(fields: seq<GenField>, n: nat, k: nat, g: string) {
    exists post :: SplitsAt(fields, n, k, g, post)
  }

  lemma SplitMore(fields: seq<GenField>, n: nat, k: nat, g: string)
    requires 0 < n <= |fields| && Splits(fields, n - 1, k, g)
    ensures Splits(fields, n, k, g)
  {
    var before :| SplitsAt(fields, n - 1, k, g, before);
    SplitGrows(fields, n, k, g, before);
  }

  lemma Reassociate(a: seq<Stmt>, b: seq<Stmt>, c: seq<Stmt>, d: seq<Stmt>)
    ensures (a + (b + c)) + d == a + (b + (c + d))
  {
  }

  /** Only arms of group g are set, and every oneof has two arms. */
  ghost predicate OnlyGroup(m: Message, reg: Registry, current: string, gs: seq<GenField>, attrs: map<string, Val>, g: string) {
    && Stored(m, reg, current, gs, attrs)
    && forall i :: 0 <= i < |gs| && gs[i].oneof != g ==> attrs[gs[i].attr] == FieldDefault(gs[i])
  }

  lemma OtherIsQuiet(p: Program, t: Table, m: Message, reg: Registry, current: string, gs: seq<GenField>, self: Val, g: string, i: nat)
    requires self.VObj? && OnlyGroup(m, reg, current, gs, self.attrs, g) && i < |gs| && gs[i].oneof != g
    ensures Quiet(p, EmitOf(gs[i]), self)
  {
    assert Rendered(m, m.fields[i], reg, current, gs[i]);
    DefaultQuiet(p, t, m, reg, current, m.fields[i], gs[i]);
  }

  lemma DefaultQuiet(p: Program, t: Table, m: Message, reg: Registry, current: string, f: Field, g: GenField)
    requires Rendered(m, f, reg, current, g)
    ensures !Holds(EmitOf(g).test, FieldDefault(g))
  {
    if IsMap(f, reg) {
      MapKind(m, f, reg, current, g);
    } else if f.repeated {
      ListKind(m, f, reg, current, g);
    } else {
      SingleKind(m, f, reg, current, g);
    }
    ArmIs(m, reg, current, f, g);
  }

  lemma NoneSet(t: Table, m: Message, reg: Registry, current: string, gs: seq<GenField>, attrs: map<string, Val>, g: string, h: string)
    requires OnlyGroup(m, reg, current, gs, attrs, g) && h != g && h != ""
    ensures forall j :: 0 <= j < |gs| ==> !SetArm(attrs, gs[j], h)
  {
    forall j | 0 <= j < |gs| ensures !SetArm(attrs, gs[j], h) {
      if gs[j].oneof == h {
        assert Rendered(m, m.fields[j], reg, current, gs[j]);
        ArmIs(m, reg, current, m.fields[j], gs[j]);
        DefaultFieldTyped(t, m, reg, current, m.fields[j], gs[j]);
      }
    }
  }

  lemma UnsetIsQuiet(p: Program, gs: seq<GenField>, self: Val, h: string)
    requires self.VObj? && |ArmsOf(gs, h)| > 1 && (forall i :: 0 <= i < |gs| ==> gs[i].attr in self.attrs)
    requires forall j :: 0 <= j < |gs| ==> !SetArm(self.attrs, gs[j], h)
    ensures Quiet(p, CheckOf(gs, h), self)
  {
    CountArms(self.attrs, gs, h);
  }

  lemma OtherCheckIsQuiet(p: Program, t: Table, m: Message, reg: Registry, current: string, gs: seq<GenField>, self: Val, g: string, i: nat)
    requires self.VObj? && OnlyGroup(m, reg, current, gs, self.attrs, g) && i < |gs| && gs[i].oneof != g && gs[i].oneof != ""
    ensures Quiet(p, CheckOf(gs, gs[i].oneof), self)
  {
    GroupIsPaired(m, reg, current, gs, self.attrs, i);
    NoneSet(t, m, reg, current, gs, self.attrs, g, gs[i].oneof);
    UnsetIsQuiet(p, gs, self, gs[i].oneof);
  }

  /** Everything before the group's check is quiet. */
  lemma BeforeIsQuiet(p: Program, t: Table, m: Message, reg: Registry, current: string, gs: seq<GenField>,
                      self: Val, g: string, k: nat, s: Stmt)
    requires self.VObj? && OnlyGroup(m, reg, current, gs, self.attrs, g)
    requires FirstOf(gs, k, g) && s in PlainPass(gs) + OneofPass(gs, k)
    ensures Quiet(p, s, self)
  {
    if s in PlainPass(gs) {
      PlainMembers(gs, s);
      var i :| 0 <= i < |gs| && gs[i].oneof == "" && s == EmitOf(gs[i]);
      OtherIsQuiet(p, t, m, reg, current, gs, self, g, i);
    } else {
      var h := OneofFrom(gs, k, s);
      GroupsMembers(gs, k, h);
      GroupMembers(gs, h, s);
      if s == CheckOf(gs, h) {
        var i :| 0 <= i < k && gs[i].oneof == h;
        OtherCheckIsQuiet(p, t, m, reg, current, gs, self, g, i);
      } else {
        var f :| f in gs && f.oneof == h && s == EmitOf(f);
        var i :| 0 <= i < |gs| && gs[i] == f;
        OtherIsQuiet(p, t, m, reg, current, gs, self, g, i);
      }
    }
  }

  /** With two arms of one group set and all else at its default, the first thing
      to_dict does is to raise the oneof error, whatever that name means. */
  lemma CheckIsFirst(p: Program, t: Table, m: Message, reg: Registry, current: string, gs: seq<GenField>, self: Val, i: nat, j: nat)
    requires self.VObj? && i < j < |gs| && gs[i].oneof == gs[j].oneof != ""
    requires OnlyGroup(m, reg, current, gs, self.attrs, gs[i].oneof)
    requires self.attrs[gs[i].attr] != VNone && self.attrs[gs[j].attr] != VNone
    ensures RunStmts(p, current, ToDictStmts(gs), self, map[]) == Raise(ErrorOf(p, current))
  {
    var g := gs[i].oneof;
    var k := FirstArm(gs, i);
    PassSplits(gs, |gs|, k, g);
    var post :| SplitsAt(gs, |gs|, k, g, post);
    AllBeforeQuiet(p, t, m, reg, current, gs, self, g, k);
    StmtsSplit(gs, k, g, post);
    QuietRuns(p, current, PlainPass(gs) + OneofPass(gs, k), [CheckOf(gs, g)] + post, self, map[]);
    GroupIsPaired(m, reg, current, gs, self.attrs, i);
    TwoSet(gs, self.attrs, i, j);
    CheckRaises(p, current, gs, g, post, self);
  }

  lemma {:induction false} FirstArm(gs: seq<GenField>, i: nat) returns (k: nat)
    requires i < |gs| && gs[i].oneof != ""
    ensures FirstOf(gs, k, gs[i].oneof)
    decreases i
  {
    if j :| 0 <= j < i && gs[j].oneof == gs[i].oneof {
      k := FirstArm(gs, j);
    } else {
      k := i;
    }
  }

  lemma StmtsSplit(gs: seq<GenField>, k: nat, g: string, post: seq<Stmt>)
    requires k <= |gs| && SplitsAt(gs, |gs|, k, g, post)
    ensures ToDictStmts(gs) == (PlainPass(gs) + OneofPass(gs, k)) + ([CheckOf(gs, g)] + post)
  {
  }

  lemma AllBeforeQuiet(p: Program, t: Table, m: Message, reg: Registry, current: string, gs: seq<GenField>, self: Val, g: string, k: nat)
    requires self.VObj? && OnlyGroup(m, reg, current, gs, self.attrs, g) && FirstOf(gs, k, g)
    ensures forall s :: s in PlainPass(gs) + OneofPass(gs, k) ==> Quiet(p, s, self)
  {
    forall s | s in PlainPass(gs) + OneofPass(gs, k) ensures Quiet(p, s, self) {
      BeforeIsQuiet(p, t, m, reg, current, gs, self, g, k, s);
    }
  }

  lemma TwoSet(gs: seq<GenField>, attrs: map<string, Val>, i: nat, j: nat)
    requires i < j < |gs| && gs[i].oneof == gs[j].oneof && forall k :: 0 <= k < |gs| ==> gs[k].attr in attrs
    requires attrs[gs[i].attr] != VNone && attrs[gs[j].attr] != VNone
    ensures forall a :: a in AttrsOf(ArmsOf(gs, gs[i].oneof)) ==> a in attrs
    ensures SetArms(attrs, AttrsOf(ArmsOf(gs, gs[i].oneof))) > 1
  {
    CountArms(attrs, gs, gs[i].oneof);
    assert SetArm(attrs, gs[i], gs[i].oneof) && SetArm(attrs, gs[j], gs[i].oneof);
  }

  lemma CheckRaises(p: Program, current: string, gs: seq<GenField>, g: string, post: seq<Stmt>, self: Val)
    requires self.VObj? && forall a :: a in AttrsOf(ArmsOf(gs, g)) ==> a in self.attrs
    requires |ArmsOf(gs, g)| > 1 && SetArms(self.attrs, AttrsOf(ArmsOf(gs, g))) > 1
    ensures RunStmts(p, current, [CheckOf(gs, g)] + post, self, map[]) == Raise(ErrorOf(p, current))
  {
    assert ([CheckOf(gs, g)] + post)[0] == CheckOf(gs, g);
  }

  /** The default object with the two arms i and j set. */
  function TwoArmed(id: ClassId, gs: seq<GenField>, i: nat, j: nat, x: Val, y: Val): Val
    requires i < |gs| && j < |gs|
  {
    WithAttr(WithAttr(DefaultObject(id, gs), gs[i].attr, x), gs[j].attr, y)
  }

  lemma TwoArmedTyped(t: Table, reg: Registry, id: ClassId, gs: seq<GenField>, i: nat, j: nat, x: Val, y: Val)
    requires id in t && AllRendered(t[id], reg, id.mod, gs) && i < |gs| && j < |gs|
    requires FieldTyped(t, reg, t[id].fields[i], x) && FieldTyped(t, reg, t[id].fields[j], y) && TimesFit(x) && TimesFit(y)
    ensures ObjTyped(t, reg, id, TwoArmed(id, gs, i, j, x, y)) && TimesFit(TwoArmed(id, gs, i, j, x, y))
  {
    DefaultTyped(t, reg, id, gs);
    DefaultClean(t, reg, id, gs);
    WithAttrFits(DefaultObject(id, gs), gs[i].attr, x);
    WithAttrFits(WithAttr(DefaultObject(id, gs), gs[i].attr, x), gs[j].attr, y);
    WithAttrTyped(t, reg, id, DefaultObject(id, gs), i, x);
    WithAttrTyped(t, reg, id, WithAttr(DefaultObject(id, gs), gs[i].attr, x), j, y);
  }

  lemma TwoArmedAt(m: Message, reg: Registry, id: ClassId, gs: seq<GenField>, i: nat, j: nat, x: Val, y: Val, k: nat)
    requires AllRendered(m, reg, id.mod, gs) && i < |gs| && j < |gs| && i != j && k < |gs|
    ensures var attrs := TwoArmed(id, gs, i, j, x, y).attrs;
            gs[k].attr in attrs && attrs[gs[k].attr] == if k == j then y else if k == i then x else FieldDefault(gs[k])
  {
    AttrsDiffer(m, reg, id.mod, gs, k, i);
    AttrsDiffer(m, reg, id.mod, gs, k, j);
    DefaultStored(m, reg, id.mod, gs, k);
    LastSet(DefaultsOf(gs), gs[i].attr, x, gs[j].attr, y, gs[k].attr);
  }

  lemma AttrsDiffer(m: Message, reg: Registry, current: string, gs: seq<GenField>, i: nat, j: nat)
    requires AllRendered(m, reg, current, gs) && i < |gs| && j < |gs|
    ensures gs[i].attr == gs[j].attr <==> i == j
  {
    assert gs[i].attr == PyAttr(m.fields[i].name) && gs[j].attr == PyAttr(m.fields[j].name);
  }

  lemma LastSet(attrs: map<string, Val>, a: string, x: Val, b: string, y: Val, k: string)
    requires k in attrs
    ensures attrs[a := x][b := y][k] == if k == b then y else if k == a then x else attrs[k]
  {
  }

  lemma TwoArmedKeys(m: Message, reg: Registry, id: ClassId, gs: seq<GenField>, i: nat, j: nat, x: Val, y: Val)
    requires AllRendered(m, reg, id.mod, gs) && i < |gs| && j < |gs|
    ensures TwoArmed(id, gs, i, j, x, y).attrs.Keys == set i | 0 <= i < |gs| :: gs[i].attr
  {
    DefaultStored(m, reg, id.mod, gs, i);
    DefaultStored(m, reg, id.mod, gs, j);
  }

  lemma TwoArmedGroup(m: Message, reg: Registry, id: ClassId, gs: seq<GenField>, i: nat, j: nat, x: Val, y: Val)
    requires AllRendered(m, reg, id.mod, gs) && ArmsPaired(m)
    requires i < |gs| && j < |gs| && i != j && gs[i].oneof == gs[j].oneof
    ensures OnlyGroup(m, reg, id.mod, gs, TwoArmed(id, gs, i, j, x, y).attrs, gs[i].oneof)
    ensures var attrs := TwoArmed(id, gs, i, j, x, y).attrs; attrs[gs[i].attr] == x && attrs[gs[j].attr] == y
  {
    TwoArmedKeys(m, reg, id, gs, i, j, x, y);
    TwoArmedAt(m, reg, id, gs, i, j, x, y, i);
    TwoArmedAt(m, reg, id, gs, i, j, x, y, j);
    var attrs := TwoArmed(id, gs, i, j, x, y).attrs;
    forall k | 0 <= k < |gs|
      ensures gs[k].attr in attrs && (gs[k].oneof != gs[i].oneof ==> attrs[gs[k].attr] == FieldDefault(gs[k]))
    {
      TwoArmedAt(m, reg, id, gs, i, j, x, y, k);
    }
  }

  /** In a module with a class called ValueError, a oneof set twice makes to_dict
      raise another error. */
  lemma HiddenErrorFails(p: Program, reg: Registry, t: Table, id: ClassId) returns (v: Val)
    requires Linked(p, reg, t) && id in t && ArmsPaired(t[id]) && HasArms(t[id]) && HidesErrors(p, id.mod)
    ensures ObjTyped(t, reg, id, v) && TimesFit(v) && Conflict(t, v) && RunToDict(p, v) != Raise(ValueError)
  {
    var gs := FieldsOf(p, reg, t, id);
    var i, j := TwoArmsOf(t[id], reg, id.mod, gs);
    var x := ArmValue(p, reg, t, id, i);
    var y := ArmValue(p, reg, t, id, j);
    v := TwoArmed(id, gs, i, j, x, y);
    TwoArmedTyped(t, reg, id, gs, i, j, x, y);
    TwoArmedGroup(t[id], reg, id, gs, i, j, x, y);
    TwoArmedConflict(t, t[id], v, i, j);
    CheckIsFirst(p, t, t[id], reg, id.mod, gs, v, i, j);
    RaisesOther(p, v, ClassOf(p, id).value);
  }

  lemma TwoArmsOf(m: Message, reg: Registry, current: string, gs: seq<GenField>) returns (i: nat, j: nat)
    requires AllRendered(m, reg, current, gs) && ArmsPaired(m) && HasArms(m)
    ensures i < j < |gs| && SameOneof(m.fields[i], m.fields[j]) && IsArm(m.fields[i]) && IsArm(m.fields[j])
    ensures gs[i].oneof == gs[j].oneof != ""
  {
    var a :| 0 <= a < |m.fields| && IsArm(m.fields[a]);
    var b :| 0 <= b < |m.fields| && b != a && SameOneof(m.fields[a], m.fields[b]);
    i, j := if a < b then a else b, if a < b then b else a;
    SameGroup(m, reg, current, m.fields[i], m.fields[j], gs[i], gs[j]);
  }

  lemma ArmValue(p: Program, reg: Registry, t: Table, id: ClassId, i: nat) returns (x: Val)
    requires Linked(p, reg, t) && id in t && i < |t[id].fields| && IsArm(t[id].fields[i])
    ensures FieldTyped(t, reg, t[id].fields[i], x) && x != VNone && TimesFit(x)
  {
    assert ClassRendered(p, reg, t, id, t[id]) && GoodField(t[id], t[id].fields[i], reg);
    x := SomeValue(p, reg, t, id.mod, t[id].fields[i]);
  }

  lemma TwoArmedConflict(t: Table, m: Message, v: Val, i: nat, j: nat)
    requires v.VObj? && v.cls in t && t[v.cls] == m && i < j < |m.fields| && SameOneof(m.fields[i], m.fields[j])
    requires IsSet(v.attrs, PyAttr(m.fields[i].name)) && IsSet(v.attrs, PyAttr(m.fields[j].name))
    ensures Conflict(t, v)
  {
    assert NodeConflict(m, v.attrs);
  }

  lemma RaisesOther(p: Program, v: Val, c: PyClass)
    requires v.VObj? && ClassOf(p, v.cls) == Some(c) && c.Dataclass?
    requires RunStmts(p, v.cls.mod, c.toDict, v, map[]) == Raise(TypeError)
    ensures RunToDict(p, v) != Raise(ValueError)
  {
    BodyErrors(c);
  }

  /** A class body never fails with a ValueError. */
  lemma {:induction false} BodyErrors(c: PyClass)
    ensures BodyNames(c) != Raise(ValueError)
    decreases c, 1
  {
    if c.Dataclass? {
      FieldErrors(c.fields);
      if FieldNames(c.fields).Ok? {
        InnerErrors(WithMethods(FieldNames(c.fields).value), c.inner);
      }
    }
  }

  lemma {:induction false} FieldErrors(defs: seq<FieldDef>)
    ensures FieldNames(defs) != Raise(ValueError)
  {
    if defs != [] {
      FieldErrors(defs[..|defs| - 1]);
    }
  }

  lemma {:induction false} InnerErrors(ns: Namespace, inner: seq<PyClass>)
    ensures InnerNames(ns, inner) != Raise(ValueError)
    decreases inner, 0
  {
    if inner != [] {
      InnerErrors(ns, inner[..|inner| - 1]);
      BodyErrors(inner[|inner| - 1]);
    }
  }

  // ----- loading -----

  /** Every module of the program is rendered from a file asked for. */
  lemma {:induction false} ModuleFrom(files: seq<File>, wanted: seq<string>, reg: Registry, p: Program, mod: string) returns (fd: File)
    requires Generate(files, wanted, reg) == Some(p) && mod in p
    ensures Wants(files, wanted, fd) && mod == ModuleName(fd.name)
    decreases |wanted|
  {
    var before, last := GenerateStep(files, wanted, reg, p);
    if mod == ModuleName(last.name) {
      fd := last;
    } else {
      fd := ModuleFrom(files, wanted[..|wanted| - 1], reg, before, mod);
    }
  }

  /** The modules of the program are those of the files asked for. */
  lemma ModulesExact(files: seq<File>, wanted: seq<string>, p: Program, mod: string)
    requires GeneratedFrom(files, wanted, p)
    ensures mod in p <==> WantedModule(files, wanted, mod)
  {
    if mod in p {
      var fd := ModuleFrom(files, wanted, RegistryOf(files), p, mod);
    }
    if fd :| Wants(files, wanted, fd) && mod == ModuleName(fd.name) {
      FileInProgram(files, wanted, p, fd);
    }
  }

  lemma FileNames(files: seq<File>, wanted: seq<string>, fd: File)
    requires WellFormed(files, wanted) && Wants(files, wanted, fd)
    ensures WellNamed(fd.messages, RegistryOf(files)) && Idents(ScopeNames(fd.messages, fd.enums))
  {
    assert GoodFile(files, fd);
    forall i | 0 <= i < |ScopeNames(fd.messages, fd.enums)| ensures IsIdent(ScopeNames(fd.messages, fd.enums)[i]) {
      assert ClassName(files, ScopeNames(fd.messages, fd.enums)[i]);
    }
    forall path, x | DeclaredAt(fd.messages, path, x) ensures GoodMessage(x, RegistryOf(files)) && Idents(Scope(x)) {
      assert GoodDeclared(RegistryOf(files), x);
    }
  }

  lemma DepthOfTop(ms: seq<Message>)
    ensures forall n :: n in ms ==> Depth(n) < DepthOfAll(ms) + 1
  {
    forall n | n in ms ensures Depth(n) < DepthOfAll(ms) + 1 {
      DepthOfEach(ms, n);
    }
  }

  /** Every sibling the file refers to is a module of the program, and can be
      named. */
  ghost predicate ImportsFound(files: seq<File>, wanted: seq<string>, fd: File) {
    forall d :: Refers(fd.messages, RegistryOf(files), ModuleName(fd.name), d) ==> Nameable(d) && WantedModule(files, wanted, d)
  }

  /** A module loads exactly when it can be named, it imports nothing that is not
      there, no class has a keyword's name and every class body runs. */
  lemma ModuleLoadsExactly(files: seq<File>, wanted: seq<string>, p: Program, fd: File)
    requires GeneratedFrom(files, wanted, p) && Wants(files, wanted, fd)
    ensures ModuleName(fd.name) in p
    ensures ModuleLoads(p, ModuleName(fd.name)) <==>
              && Nameable(ModuleName(fd.name)) && ImportsFound(files, wanted, fd)
              && NoKeywords(ScopeNames(fd.messages, fd.enums)) && KeywordFree(fd.messages)
              && BodiesLoad(fd.messages, RegistryOf(files))
  {
    var reg, mod := RegistryOf(files), ModuleName(fd.name);
    FileInProgram(files, wanted, p, fd);
    FileNames(files, wanted, fd);
    FileIsGood(files, wanted, fd);
    DepthOfTop(fd.messages);
    var cs, bound := RenderTop(fd.messages, reg, mod).value, DepthOfAll(fd.messages) + 1;
    ScopeParses(fd.messages, fd.enums, reg, mod, cs, bound);
    ScopeRuns(fd.messages, fd.enums, reg, mod, cs, bound);
    ImportsAre(files, wanted, p, fd);
    AllInner(p[mod].classes);
  }

  lemma ImportsAre(files: seq<File>, wanted: seq<string>, p: Program, fd: File)
    requires GeneratedFrom(files, wanted, p) && InProgram(p, RegistryOf(files), fd)
    ensures (forall d :: d in p[ModuleName(fd.name)].imports ==> Nameable(d) && d in p) <==> ImportsFound(files, wanted, fd)
  {
    var reg, mod := RegistryOf(files), ModuleName(fd.name);
    forall d ensures d in p[mod].imports <==> Refers(fd.messages, reg, mod, d) {
      ImportsExact(fd.messages, reg, mod, d);
    }
    forall d ensures d in p <==> WantedModule(files, wanted, d) {
      ModulesExact(files, wanted, p, d);
    }
  }

  lemma AllInner(classes: seq<PyClass>)
    ensures InnerRun(classes) <==> forall c :: c in classes ==> BodyNames(c).Ok?
  {
    if InnerRun(classes) {
      forall c | c in classes ensures BodyNames(c).Ok? {
        var j :| 0 <= j < |classes| && classes[j] == c;
      }
    }
    if forall c :: c in classes ==> BodyNames(c).Ok? {
      forall j | 0 <= j < |classes| ensures BodyNames(classes[j]).Ok? {
        assert classes[j] in classes;
      }
    }
  }

  /** The file's module can be named, none of its classes is called like a keyword
      and every class body runs. */
  ghost predicate Loads(reg: Registry, fd: File) {
    && Nameable(ModuleName(fd.name))
    && NoKeywords(ScopeNames(fd.messages, fd.enums)) && KeywordFree(fd.messages)
    && BodiesLoad(fd.messages, reg)
  }

  /** The package can be imported exactly when every file asked for loads and they
      refer to no file that is not asked for. */
  lemma ImportableExactly(files: seq<File>, wanted: seq<string>, p: Program)
    requires GeneratedFrom(files, wanted, p)
    ensures Importable(p) <==>
              Closed(files, wanted) && forall fd :: Wants(files, wanted, fd) ==> Loads(RegistryOf(files), fd)
  {
    if Importable(p) {
      forall fd | Wants(files, wanted, fd) ensures Loads(RegistryOf(files), fd) && ImportsFound(files, wanted, fd) {
        ModuleLoadsExactly(files, wanted, p, fd);
      }
      FoundIsClosed(files, wanted);
    }
    if Closed(files, wanted) && forall fd :: Wants(files, wanted, fd) ==> Loads(RegistryOf(files), fd) {
      forall mod | mod in p ensures ModuleLoads(p, mod) {
        var fd := ModuleFrom(files, wanted, RegistryOf(files), p, mod);
        ClosedIsFound(files, wanted, fd);
        ModuleLoadsExactly(files, wanted, p, fd);
      }
    }
  }

  lemma FoundIsClosed(files: seq<File>, wanted: seq<string>)
    requires forall fd :: Wants(files, wanted, fd) ==> ImportsFound(files, wanted, fd)
    ensures Closed(files, wanted)
  {
    forall fd, d | Wants(files, wanted, fd) && Refers(fd.messages, RegistryOf(files), ModuleName(fd.name), d)
      ensures WantedModule(files, wanted, d)
    {
      assert ImportsFound(files, wanted, fd);
    }
  }

  lemma ClosedIsFound(files: seq<File>, wanted: seq<string>, fd: File)
    requires Closed(files, wanted) && Wants(files, wanted, fd)
    requires forall other :: Wants(files, wanted, other) ==> Loads(RegistryOf(files), other)
    ensures ImportsFound(files, wanted, fd)
  {
    forall d | Refers(fd.messages, RegistryOf(files), ModuleName(fd.name), d)
      ensures Nameable(d) && WantedModule(files, wanted, d)
    {
      var other := ReferredIsWanted(files, wanted, fd, d);
      assert Loads(RegistryOf(files), other);
    }
  }

  lemma SafeLoads(files: seq<File>, wanted: seq<string>, fd: File)
    requires Safe(files, wanted) && Wants(files, wanted, fd)
    ensures Loads(RegistryOf(files), fd)
  {
    BodiesAreSafe(files, wanted, fd);
    assert SafeFile(RegistryOf(files), fd);
  }

  lemma SafeImports(files: seq<File>, wanted: seq<string>, p: Program)
    requires GeneratedFrom(files, wanted, p) && Safe(files, wanted)
    ensures Importable(p)
  {
    forall fd | Wants(files, wanted, fd) ensures Loads(RegistryOf(files), fd) {
      SafeLoads(files, wanted, fd);
    }
    ImportableExactly(files, wanted, p);
  }

  // ----- the theorem -----

  /** The value is written in its wire form and comes back from it, directly and
      through JSON text. */
  ghost predicate Trips(p: Program, reg: Registry, t: Table, id: ClassId, v: Val) {
    RoundTrips(p, reg, t, id, v) && TextTrips(p, t, id, v) && WritesWire(p, reg, t, v)
  }

  /** The generated package can be imported, and every value of every message type
      whose datetimes have a reading in UTC round-trips: to_dict raises ValueError
      exactly on a oneof set twice. */
  ghost predicate Works(files: seq<File>, wanted: seq<string>, p: Program) {
    && Importable(p)
    && forall id, v :: ObjTyped(TableOf(files, wanted), RegistryOf(files), id, v) && TimesFit(v) ==>
         Trips(p, RegistryOf(files), TableOf(files, wanted), id, v)
  }

  ghost predicate NoFixed(files: seq<File>, wanted: seq<string>) {
    forall fd, path, m, i :: Wants(files, wanted, fd) && DeclaredAt(fd.messages, path, m) && 0 <= i < |m.fields| ==>
      !Fixed(m.fields[i])
  }

  /** A value of such a schema holds no set fixed-width field. */
  lemma {:induction false} NothingFixed(files: seq<File>, wanted: seq<string>, v: Val)
    requires NoFixed(files, wanted) && TimesFit(v)
    ensures !Stuck(TableOf(files, wanted), v)
    decreases v
  {
    match v
    case VObj(cls, attrs) =>
      forall a | a in attrs ensures !Stuck(TableOf(files, wanted), attrs[a]) {
        NothingFixed(files, wanted, attrs[a]);
      }
      if cls in TableOf(files, wanted) {
        NoNodeFixed(files, wanted, cls, attrs);
      }
    case VList(xs) =>
      forall i | 0 <= i < |xs| ensures !Stuck(TableOf(files, wanted), xs[i]) {
        NothingFixed(files, wanted, xs[i]);
      }
    case VDict(m) =>
      forall k | k in m ensures !Stuck(TableOf(files, wanted), m[k]) {
        NothingFixed(files, wanted, m[k]);
      }
    case _ =>
  }

  lemma NoNodeFixed(files: seq<File>, wanted: seq<string>, cls: ClassId, attrs: map<string, Val>)
    requires NoFixed(files, wanted) && cls in TableOf(files, wanted)
    ensures !NodeFixed(TableOf(files, wanted)[cls], attrs)
  {
    var fd := FileOf(files, wanted, cls, TableOf(files, wanted)[cls]);
  }

  /** The class of a declared message. */
  lemma ClassOfDeclared(files: seq<File>, wanted: seq<string>, fd: File, path: seq<string>, m: Message) returns (id: ClassId)
    requires WellFormed(files, wanted) && Wants(files, wanted, fd) && DeclaredAt(fd.messages, path, m)
    ensures id == ClassId(ModuleName(fd.name), path) && id in TableOf(files, wanted) && TableOf(files, wanted)[id] == m
  {
    id := ClassId(ModuleName(fd.name), path);
    assert Declares(files, wanted, id, m);
    var x := MessageOf(files, wanted, id);
    var other := FileOf(files, wanted, id, x);
    OneModule(files, wanted, other, fd);
    assert GoodFile(files, fd);
    OneAtPath(fd.messages, fd.enums, path, m, x);
  }

  /** With distinct names in every scope, a path leads to one message. */
  lemma {:induction false} OneAtPath(ms: seq<Message>, es: seq<EnumDecl>, path: seq<string>, m: Message, x: Message)
    requires Distinct(ScopeNames(ms, es)) && DistinctBelow(ms) && DeclaredAt(ms, path, m) && DeclaredAt(ms, path, x)
    ensures m == x
    decreases |path|
  {
    var a := Descend(ms, path, m);
    var b := Descend(ms, path, x);
    OneOfName(ms, es, a, b);
    if |path| > 1 {
      DistinctInner(ms, a);
      OneAtPath(Children(a.nested), a.enums, path[1..], m, x);
    }
  }

  lemma OneOfName(ms: seq<Message>, es: seq<EnumDecl>, a: Message, b: Message)
    requires Distinct(ScopeNames(ms, es)) && a in ms && b in ms && a.name == b.name
    ensures a == b
  {
    var i :| 0 <= i < |ms| && ms[i] == a;
    var j :| 0 <= j < |ms| && ms[j] == b;
    assert ScopeNames(ms, es)[|es| + i] == ScopeNames(ms, es)[|es| + j];
  }

  lemma MessageIsSafe(files: seq<File>, wanted: seq<string>, p: Program, fd: File, path: seq<string>, m: Message)
    requires GeneratedFrom(files, wanted, p) && Works(files, wanted, p)
    requires Wants(files, wanted, fd) && DeclaredAt(fd.messages, path, m)
    ensures SafeMessage(RegistryOf(files), fd, m) && forall i :: 0 <= i < |m.fields| ==> !Fixed(m.fields[i])
  {
    var reg, t := RegistryOf(files), TableOf(files, wanted);
    var id := ClassOfDeclared(files, wanted, fd, path, m);
    ImportableExactly(files, wanted, p);
    GeneratedLinks(files, wanted, p);
    WorkingClass(p, reg, t, id);
    FileInProgram(files, wanted, p, fd);
    ErrorIsFree(files, p, fd);
  }

  /** A class all of whose values round-trip is safe. */
  lemma WorkingClass(p: Program, reg: Registry, t: Table, id: ClassId)
    requires Linked(p, reg, t) && id in t
    requires forall v :: ObjTyped(t, reg, id, v) && TimesFit(v) ==> Trips(p, reg, t, id, v)
    ensures SafeNames(t[id], reg) && ArmsPaired(t[id]) && (HasArms(t[id]) ==> !HidesErrors(p, id.mod))
    ensures forall i :: 0 <= i < |t[id].fields| ==> !Fixed(t[id].fields[i])
  {
    var gs := FieldsOf(p, reg, t, id);
    WorkingDefault(p, reg, t, id, gs);
    if HasArms(t[id]) && HidesErrors(p, id.mod) {
      var v := HiddenErrorFails(p, reg, t, id);
    }
    forall i | 0 <= i < |t[id].fields| ensures !Fixed(t[id].fields[i]) {
      if Fixed(t[id].fields[i]) {
        var v := FixedNeverWorks(p, reg, t, id, i);
      }
    }
  }

  lemma WorkingDefault(p: Program, reg: Registry, t: Table, id: ClassId, gs: seq<GenField>)
    requires Linked(p, reg, t) && id in t
    requires FieldsUpTo(t[id], |t[id].fields|, reg, id.mod) == Some(gs) && AllRendered(t[id], reg, id.mod, gs)
    requires forall v :: ObjTyped(t, reg, id, v) && TimesFit(v) ==> Trips(p, reg, t, id, v)
    ensures SafeNames(t[id], reg) && ArmsPaired(t[id])
  {
    var fields := FieldsOf(p, reg, t, id);
    var c := ClassOf(p, id).value;
    DefaultTyped(t, reg, id, gs);
    DefaultClean(t, reg, id, gs);
    assert Trips(p, reg, t, id, DefaultObject(id, gs));
    NamesAreSafe(p, reg, t, id, gs, c);
    EncodedBody(p, DefaultObject(id, gs), c);
    ArmsArePaired(p, t[id], reg, t, id, gs);
  }

  lemma FileIsSafe(files: seq<File>, wanted: seq<string>, p: Program, fd: File)
    requires GeneratedFrom(files, wanted, p) && Works(files, wanted, p) && Wants(files, wanted, fd)
    ensures SafeFile(RegistryOf(files), fd)
  {
    ImportableExactly(files, wanted, p);
    assert Loads(RegistryOf(files), fd);
    forall path, m | DeclaredAt(fd.messages, path, m) ensures SafeMessage(RegistryOf(files), fd, m) {
      MessageIsSafe(files, wanted, p, fd, path, m);
    }
  }

  /** The generated package works, on every value of every message, exactly when
      the schema is safe and declares no fixed32 or fixed64 field. */
  lemma CodecWorksExactly(files: seq<File>, wanted: seq<string>, p: Program)
    requires GeneratedFrom(files, wanted, p)
    ensures Works(files, wanted, p) <==> Safe(files, wanted) && NoFixed(files, wanted)
  {
    if Works(files, wanted, p) {
      ImportableExactly(files, wanted, p);
      forall fd | Wants(files, wanted, fd) ensures SafeFile(RegistryOf(files), fd) {
        FileIsSafe(files, wanted, p, fd);
      }
      forall fd, path, m, i | Wants(files, wanted, fd) && DeclaredAt(fd.messages, path, m) && 0 <= i < |m.fields|
        ensures !Fixed(m.fields[i])
      {
        MessageIsSafe(files, wanted, p, fd, path, m);
      }
    }
    if Safe(files, wanted) && NoFixed(files, wanted) {
      SafeImports(files, wanted, p);
      forall id, v | ObjTyped(TableOf(files, wanted), RegistryOf(files), id, v) && TimesFit(v)
        ensures Trips(p, RegistryOf(files), TableOf(files, wanted), id, v)
      {
        NothingFixed(files, wanted, v);
        CodecBehaves(files, wanted, p, id, v);
      }
    }
  }
}
