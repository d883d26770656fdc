/** The round trip over whole value trees. */
module RoundTrip {
  import opened Wrappers
  import opened Proto
  import opened Registry
  import opened Py
  import opened Render
  import opened Schema
  import opened Json
  import opened Codec
  import opened ObjectCodec

  // ----- programs that run the code of a schema -----

  /** The field names a message class that the module can reach by that name, and
      the time helpers it calls are part of the module. */
  ghost predicate FieldLinks(p: Program, reg: Registry, t: Table, current: string, f: Field) {
    && (f.typ.TMessage? && !WellKnown(f.typeName) && !IsMap(f, reg) ==>
          && f.typeName in reg.byFQ && reg.byFQ[f.typeName] in t
          && Resolve(p, current, RefTo(reg.byFQ[f.typeName], current)) == Some(reg.byFQ[f.typeName]))
    && (FieldUsesTime(f, reg, current) ==> HasTime(p, current))
  }

  /** The class has the code rendered for the message. */
  ghost predicate ClassRendered(p: Program, reg: Registry, t: Table, id: ClassId, m: Message) {
    && ClassOf(p, id).Some? && ClassOf(p, id) == RenderMessage(m, reg, id.mod)
    && GoodMessage(m, reg)
    && forall i :: 0 <= i < |m.fields| ==> FieldLinks(p, reg, t, id.mod, m.fields[i])
  }

  /** p has, for every class of the table, the code rendered for its message, and
      every class that code names is the one the schema means. */
  ghost predicate Linked(p: Program, reg: Registry, t: Table) {
    forall id :: id in t ==> ClassRendered(p, reg, t, id, t[id])
  }

  /** The class body leaves the generated methods under their names, and a call of
      the class makes an object with every field at its default. */
  ghost predicate BodyMeans(c: PyClass, gs: seq<GenField>) {
    && c.Dataclass? && BodyNames(c).Ok?
    && Look(BodyNames(c).value, "to_dict") == Method && Look(BodyNames(c).value, "from_dict") == Method
    && (forall i :: 0 <= i < |gs| ==> gs[i].attr != "to_dict")
    && Construct(c.fields, BodyNames(c).value) == Ok(DefaultsOf(gs))
  }

  /** The class runs as the generator meant it: nothing it uses is hidden, no
      oneof has a single arm, and the oneof error can be raised. */
  ghost predicate ClassRuns(p: Program, reg: Registry, id: ClassId, m: Message) {
    && FieldsUpTo(m, |m.fields|, reg, id.mod).Some?
    && ClassOf(p, id).Some? && BodyMeans(ClassOf(p, id).value, FieldsUpTo(m, |m.fields|, reg, id.mod).value)
    && ArmsPaired(m) && (HasArms(m) ==> !HidesErrors(p, id.mod))
  }

  ghost predicate AllRun(p: Program, reg: Registry, t: Table) {
    forall id :: id in t ==> ClassRuns(p, reg, id, t[id])
  }

  // ----- the round trip -----

  /** The wire keys of an object: the JSON names of its present fields. */
  ghost predicate WireKeys(m: Message, reg: Registry, attrs: map<string, Val>, d: map<MapKey, Val>) {
    && (forall i :: 0 <= i < |m.fields| ==>
          var a := PyAttr(m.fields[i].name);
          a in attrs && (Str(m.fields[i].jsonName) in d <==> Present(m.fields[i], reg, attrs[a])))
    && (forall k :: k in d ==> exists i :: 0 <= i < |m.fields| && Str(m.fields[i].jsonName) == k)
  }

  /** to_dict of v raises the oneof error exactly when v holds a conflict;
      otherwise it yields an object with exactly the present fields' keys, and
      from_dict of that is v, normalised. */
  ghost predicate RoundTrips(p: Program, reg: Registry, t: Table, id: ClassId, v: Val) {
    var w := RunToDict(p, v);
    if Conflict(t, v) then w == Raise(ValueError)
    else
      && w.Ok? && w.value.VDict?
      && v.VObj? && id in t && WireKeys(t[id], reg, v.attrs, w.value.m)
      && RunFromDict(p, id, w.value) == Ok(Norm(t, v))
  }

  /** Without a conflict, to_dict, JSON text and from_dict give back v, normalised,
      with the keys of its maps turned to strings. */
  ghost predicate TextTrips(p: Program, t: Table, id: ClassId, v: Val) {
    var w := RunToDict(p, v);
    !Conflict(t, v) ==> w.Ok? && RunFromDict(p, id, OverJson(w.value)) == Ok(OverJson(Norm(t, v)))
  }

  /** The same where a value may hold what cannot be encoded: to_dict raises. */
  ghost predicate Behaves(p: Program, reg: Registry, t: Table, id: ClassId, v: Val) {
    if Stuck(t, v) then RunToDict(p, v).Raise? else RoundTrips(p, reg, t, id, v) && TextTrips(p, t, id, v)
  }

  /** The rendered class of a table entry. */
  lemma ClassBody(p: Program, reg: Registry, t: Table, id: ClassId) returns (gs: seq<GenField>)
    requires id in t && ClassRendered(p, reg, t, id, t[id])
    ensures FieldsUpTo(t[id], |t[id].fields|, reg, id.mod) == Some(gs) && AllRendered(t[id], reg, id.mod, gs)
    ensures forall i :: 0 <= i < |gs| ==> GenFieldOf(t[id], t[id].fields[i], reg, id.mod) == Some(gs[i])
    ensures ClassOf(p, id).Some? && ClassOf(p, id).value.Dataclass?
    ensures var c := ClassOf(p, id).value;
            c.fields == DefsOf(gs) && c.toDict == ToDictStmts(gs) && c.fromDict == LoadsOf(gs)
  {
    var m := t[id];
    assert RenderMessage(m, reg, id.mod).Some?;
    gs := FieldsUpTo(m, |m.fields|, reg, id.mod).value;
  }

  function AsDict(r: Outcome<map<MapKey, Val>>): Outcome<Val> {
    match r
    case Ok(out) => Ok(VDict(out))
    case Raise(e) => Raise(e)
  }

  function AsObject(id: ClassId, r: Outcome<map<string, Val>>): Outcome<Val> {
    match r
    case Ok(attrs) => Ok(VObj(id, attrs))
    case Raise(e) => Raise(e)
  }

  /** Running to_dict and from_dict comes down to running their bodies. */
  lemma BodiesRun(p: Program, id: ClassId, v: Val, gs: seq<GenField>, d: map<MapKey, Val>)
    requires v.VObj? && v.cls == id && ClassOf(p, id).Some? && BodyMeans(ClassOf(p, id).value, gs)
    requires forall a :: a in v.attrs ==> exists i :: 0 <= i < |gs| && gs[i].attr == a
    requires var c := ClassOf(p, id).value; c.toDict == ToDictStmts(gs) && c.fromDict == LoadsOf(gs)
    ensures RunToDict(p, v) == AsDict(RunStmts(p, id.mod, ToDictStmts(gs), v, map[]))
    ensures RunFromDict(p, id, VDict(d)) == AsObject(id, RunLoads(p, id.mod, LoadsOf(gs), VDict(d), DefaultsOf(gs)))
  {
    assert "to_dict" !in v.attrs;
  }

  lemma ObjectRound(p: Program, reg: Registry, t: Table, id: ClassId, v: Val, gs: seq<GenField>)
    requires id in t && IsOf(t, t[id], v) && v.cls == id && ClassOf(p, id).Some? && BodyMeans(ClassOf(p, id).value, gs)
    requires var c := ClassOf(p, id).value; c.toDict == ToDictStmts(gs) && c.fromDict == LoadsOf(gs)
    requires ObjectOk(p, reg, t, id.mod, t[id], gs, v.attrs)
    ensures Behaves(p, reg, t, id, v)
  {
    if Stuck(t, v) {
      ObjectStuck(p, reg, t, id.mod, t[id], gs, v);
      BodiesRun(p, id, v, gs, map[]);
    } else if Conflict(t, v) {
      ObjectRaises(p, reg, t, id.mod, t[id], gs, v);
      BodiesRun(p, id, v, gs, map[]);
    } else {
      SoundRound(p, reg, t, id, v, gs);
      SoundText(p, reg, t, id, v, gs);
    }
  }

  lemma SoundText(p: Program, reg: Registry, t: Table, id: ClassId, v: Val, gs: seq<GenField>)
    requires id in t && Sound(t, t[id], v) && v.cls == id && ClassOf(p, id).Some? && BodyMeans(ClassOf(p, id).value, gs)
    requires var c := ClassOf(p, id).value; c.toDict == ToDictStmts(gs) && c.fromDict == LoadsOf(gs)
    requires ObjectOk(p, reg, t, id.mod, t[id], gs, v.attrs)
    ensures TextTrips(p, t, id, v)
  {
    var m := t[id];
    var d := WireTarget(p, reg, t, id.mod, m, gs, v);
    BodiesRun(p, id, v, gs, OverJsonEach(VDict(d)));
    ObjectEncodes(p, reg, t, id.mod, m, gs, v, d);
    TextDecodes(p, reg, t, m, gs, v, d);
    NormObject(t, v);
    ObjectText(id, NormAttrs(t, v), d);
  }

  lemma ObjectText(id: ClassId, attrs: map<string, Val>, d: map<MapKey, Val>)
    ensures OverJson(VObj(id, attrs)) == VObj(id, OverJsonAttrs(VObj(id, attrs)))
    ensures OverJson(VDict(d)) == VDict(OverJsonEach(VDict(d)))
  {
  }

  lemma SoundRound(p: Program, reg: Registry, t: Table, id: ClassId, v: Val, gs: seq<GenField>)
    requires id in t && Sound(t, t[id], v) && v.cls == id && ClassOf(p, id).Some? && BodyMeans(ClassOf(p, id).value, gs)
    requires var c := ClassOf(p, id).value; c.toDict == ToDictStmts(gs) && c.fromDict == LoadsOf(gs)
    requires ObjectOk(p, reg, t, id.mod, t[id], gs, v.attrs)
    ensures RoundTrips(p, reg, t, id, v)
  {
    var m := t[id];
    var d := WireTarget(p, reg, t, id.mod, m, gs, v);
    BodiesRun(p, id, v, gs, d);
    ObjectEncodes(p, reg, t, id.mod, m, gs, v, d);
    ObjectDecodes(p, reg, t, m, gs, v, d);
    KeysAreWire(p, reg, id.mod, m, gs, v.attrs, d);
    NormObject(t, v);
  }

  lemma NormObject(t: Table, v: Val)
    requires v.VObj?
    ensures Norm(t, v) == VObj(v.cls, NormAttrs(t, v))
  {
  }

  lemma KeysAreWire(p: Program, reg: Registry, current: string, m: Message,
                    gs: seq<GenField>, attrs: map<string, Val>, d: map<MapKey, Val>)
    requires AllRendered(m, reg, current, gs) && WireForm(p, reg, current, m, gs, attrs, d)
    ensures WireKeys(m, reg, attrs, d)
  {
    forall i | 0 <= i < |m.fields|
      ensures PyAttr(m.fields[i].name) in attrs
      ensures Str(m.fields[i].jsonName) in d <==> Present(m.fields[i], reg, attrs[PyAttr(m.fields[i].name)])
    {
      assert FieldWire(p, reg, current, m.fields[i], gs[i], attrs[gs[i].attr], d);
    }
    forall k | k in d ensures exists i :: 0 <= i < |m.fields| && Str(m.fields[i].jsonName) == k {
      var i :| 0 <= i < |gs| && Str(gs[i].wire) == k;
      assert Str(m.fields[i].jsonName) == k;
    }
  }

  // ----- induction over the value -----

  /** A value of field f codes through the element expressions. */
  ghost predicate ElemOk(p: Program, reg: Registry, t: Table, current: string, f: Field, v: Val) {
    var k := ElemKind(f, reg, current);
    Codes(p, t, current, ListElem(k), ListElemDecode(k), v)
  }

  lemma {:induction false} ElemCodes(p: Program, reg: Registry, t: Table, current: string, f: Field, v: Val)
    requires Linked(p, reg, t) && AllRun(p, reg, t)
    requires GoodElem(f) && !Fixed(f) && !IsMap(f, reg) && FieldLinks(p, reg, t, current, f)
    requires WellKnown(f.typeName) ==> HasTime(p, current)
    requires ElemTyped(t, reg, f, v)
    ensures ElemOk(p, reg, t, current, f, v)
    decreases v, 1
  {
    if !f.typ.TMessage? {
      ScalarCodec(p, t, current, reg, f, v);
    } else if WellKnown(f.typeName) {
      TimeCodec(p, t, current, reg, f, v);
    } else {
      NestedTyped(t, reg, f, v);
      ObjectRoundTrip(p, reg, t, reg.byFQ[f.typeName], v);
      MessageCodes(p, reg, t, current, f, v);
    }
  }

  lemma NestedTyped(t: Table, reg: Registry, f: Field, v: Val)
    requires f.typ.TMessage? && !WellKnown(f.typeName) && ElemTyped(t, reg, f, v)
    ensures f.typeName in reg.byFQ && ObjTyped(t, reg, reg.byFQ[f.typeName], v)
  {
  }

  lemma MessageCodes(p: Program, reg: Registry, t: Table, current: string, f: Field, v: Val)
    requires f.typ.TMessage? && !WellKnown(f.typeName) && !IsMap(f, reg) && FieldLinks(p, reg, t, current, f)
    requires f.typeName in reg.byFQ && Behaves(p, reg, t, reg.byFQ[f.typeName], v)
    ensures ElemOk(p, reg, t, current, f, v)
  {
    var id := reg.byFQ[f.typeName];
    MessageKind(reg, current, f);
    MethodsCode(p, reg, t, current, id, v);
  }

  lemma MessageKind(reg: Registry, current: string, f: Field)
    requires f.typ.TMessage? && !WellKnown(f.typeName) && f.typeName in reg.byFQ
    ensures var k := ElemKind(f, reg, current);
            ListElem(k) == ToDict && ListElemDecode(k) == FromDict(RefTo(reg.byFQ[f.typeName], current))
  {
  }

  lemma MethodsCode(p: Program, reg: Registry, t: Table, current: string, id: ClassId, v: Val)
    requires Resolve(p, current, RefTo(id, current)) == Some(id) && Behaves(p, reg, t, id, v)
    ensures Codes(p, t, current, ToDict, FromDict(RefTo(id, current)), v)
  {
    assert Eval(p, current, ToDict, v) == RunToDict(p, v);
    if !Stuck(t, v) && !Conflict(t, v) {
      var w := RunToDict(p, v).value;
      assert Eval(p, current, FromDict(RefTo(id, current)), w) == RunFromDict(p, id, w);
      assert Eval(p, current, FromDict(RefTo(id, current)), OverJson(w)) == RunFromDict(p, id, OverJson(w));
    }
  }

  /** The values of a map field: scalars or times, never messages. */
  lemma MapValueCodes(p: Program, reg: Registry, t: Table, current: string, f: Field, v: Val)
    requires GoodElem(f) && !ElemKind(f, reg, current).KMsg? && ElemTyped(t, reg, f, v)
    requires WellKnown(f.typeName) ==> HasTime(p, current)
    ensures var k := ElemKind(f, reg, current);
            Codes(p, t, current, EncodeScalar(k), DecodeScalar(k), v)
  {
    if !f.typ.TMessage? {
      ScalarCodec(p, t, current, reg, f, v);
    } else {
      TimeCodec(p, t, current, reg, f, v);
    }
  }

  /** A field of a time type, or a map of them, needs the time helpers. */
  lemma TimeFields(m: Message, f: Field, reg: Registry, current: string, g: GenField)
    requires Rendered(m, f, reg, current, g)
    ensures WellKnown(f.typeName) && !IsMap(f, reg) ==> FieldUsesTime(f, reg, current)
    ensures IsMap(f, reg) && WellKnown(EntryField(reg.entries[f.typeName]).typeName) ==> FieldUsesTime(f, reg, current)
  {
  }

  lemma {:induction false} FieldCodes(p: Program, reg: Registry, t: Table, current: string, m: Message,
                                      f: Field, g: GenField, v: Val)
    requires Linked(p, reg, t) && AllRun(p, reg, t)
    requires Rendered(m, f, reg, current, g) && FieldLinks(p, reg, t, current, f)
    requires FieldTyped(t, reg, f, v)
    ensures FieldOk(p, reg, t, current, f, g, v)
    decreases v, 2
  {
    TimeFields(m, f, reg, current, g);
    if IsMap(f, reg) {
      MapCodes(p, reg, t, current, m, f, g, v);
    } else if f.repeated {
      ListFieldCodes(p, reg, t, current, m, f, g, v);
    } else if v == VNone || Fixed(f) {
      NumberOrNone(p, reg, t, current, m, f, g, v);
    } else {
      SingleTyped(t, reg, f, v);
      ElemCodes(p, reg, t, current, f, v);
      SingleCodes(p, reg, t, current, m, f, g, v);
    }
  }

  lemma SingleTyped(t: Table, reg: Registry, f: Field, v: Val)
    requires FieldTyped(t, reg, f, v) && !IsMap(f, reg) && !f.repeated
    ensures v != VNone ==> ElemTyped(t, reg, f, v) && (Fixed(f) ==> v.VInt?)
    ensures v == VNone ==> TracksPresence(f)
  {
  }

  lemma NumberOrNone(p: Program, reg: Registry, t: Table, current: string, m: Message, f: Field, g: GenField, v: Val)
    requires Rendered(m, f, reg, current, g) && !IsMap(f, reg) && !f.repeated && (v == VNone || Fixed(f))
    requires FieldTyped(t, reg, f, v)
    ensures FieldOk(p, reg, t, current, f, g, v)
  {
    SingleTyped(t, reg, f, v);
    if v == VNone {
      UnsetFieldOk(p, reg, t, current, m, f, g);
    } else {
      FixedFieldOk(p, reg, t, current, m, f, g, v);
    }
  }

  lemma SingleCodes(p: Program, reg: Registry, t: Table, current: string, m: Message, f: Field, g: GenField, v: Val)
    requires Rendered(m, f, reg, current, g) && !IsMap(f, reg) && !f.repeated && !Fixed(f)
    requires ElemTyped(t, reg, f, v) && ElemOk(p, reg, t, current, f, v)
    ensures FieldOk(p, reg, t, current, f, g, v)
  {
    if TracksPresence(f) {
      TypedIsSet(t, reg, f, v);
      SetFieldOk(p, reg, t, current, m, f, g, v);
    } else {
      PlainFieldOk(p, reg, t, current, m, f, g, v);
    }
  }

  lemma TypedIsSet(t: Table, reg: Registry, f: Field, v: Val)
    requires ElemTyped(t, reg, f, v)
    ensures v != VNone
  {
  }

  lemma MapCodes(p: Program, reg: Registry, t: Table, current: string, m: Message, f: Field, g: GenField, v: Val)
    requires Rendered(m, f, reg, current, g) && IsMap(f, reg) && FieldTyped(t, reg, f, v)
    requires WellKnown(EntryField(reg.entries[f.typeName]).typeName) ==> HasTime(p, current)
    ensures FieldOk(p, reg, t, current, f, g, v)
  {
    MapKind(m, f, reg, current, g);
    forall k | k in v.m
      ensures Codes(p, t, current, EncodeScalar(g.kind.inner), DecodeScalar(g.kind.inner), v.m[k])
    {
      MapValueCodes(p, reg, t, current, EntryField(reg.entries[f.typeName]), v.m[k]);
    }
    MapFieldOk(p, reg, t, current, m, f, g, v);
  }

  lemma {:induction false} ListFieldCodes(p: Program, reg: Registry, t: Table, current: string, m: Message,
                                          f: Field, g: GenField, v: Val)
    requires Linked(p, reg, t) && AllRun(p, reg, t)
    requires Rendered(m, f, reg, current, g) && FieldLinks(p, reg, t, current, f)
    requires WellKnown(f.typeName) ==> HasTime(p, current)
    requires FieldTyped(t, reg, f, v) && !IsMap(f, reg) && f.repeated
    ensures FieldOk(p, reg, t, current, f, g, v)
    decreases v, 1
  {
    if Fixed(f) {
      FixedListOk(p, reg, t, current, m, f, g, v);
    } else {
      forall x | x in v.xs ensures ElemOk(p, reg, t, current, f, x) {
        ElemCodes(p, reg, t, current, f, x);
      }
      ListFieldOk(p, reg, t, current, m, f, g, v);
    }
  }

  /** The fields of a well-typed object, each with the code rendered for it. */
  lemma FieldAt(p: Program, reg: Registry, t: Table, id: ClassId, v: Val, gs: seq<GenField>, i: nat)
    requires ObjTyped(t, reg, id, v) && ClassRendered(p, reg, t, id, t[id]) && AllRendered(t[id], reg, id.mod, gs) && i < |gs|
    ensures Rendered(t[id], t[id].fields[i], reg, id.mod, gs[i]) && FieldLinks(p, reg, t, id.mod, t[id].fields[i])
    ensures gs[i].attr in v.attrs && FieldTyped(t, reg, t[id].fields[i], v.attrs[gs[i].attr])
  {
  }

  lemma TypedIsStored(t: Table, reg: Registry, id: ClassId, v: Val, gs: seq<GenField>)
    requires ObjTyped(t, reg, id, v) && AllRendered(t[id], reg, id.mod, gs) && ArmsPaired(t[id])
    ensures Stored(t[id], reg, id.mod, gs, v.attrs)
  {
    SameAttrNames(t[id].fields, gs);
    assert v.attrs.Keys == set i | 0 <= i < |t[id].fields| :: PyAttr(t[id].fields[i].name);
    forall i | 0 <= i < |gs| ensures gs[i].attr in v.attrs {
      assert gs[i].attr in v.attrs.Keys;
    }
  }

  lemma SameAttrNames(fs: seq<Field>, gs: seq<GenField>)
    requires |fs| == |gs| && forall i :: 0 <= i < |gs| ==> gs[i].attr == PyAttr(fs[i].name)
    ensures (set i | 0 <= i < |gs| :: gs[i].attr) == set i | 0 <= i < |fs| :: PyAttr(fs[i].name)
  {
  }

  /** The rendered fields of a well-typed object are fit for what they hold. */
  lemma {:induction false} FieldsOk(p: Program, reg: Registry, t: Table, id: ClassId, v: Val, gs: seq<GenField>)
    requires Linked(p, reg, t) && AllRun(p, reg, t) && ObjTyped(t, reg, id, v) && AllRendered(t[id], reg, id.mod, gs)
    ensures ObjectOk(p, reg, t, id.mod, t[id], gs, v.attrs)
    decreases v, 0, 0
  {
    assert ClassRendered(p, reg, t, id, t[id]) && ClassRuns(p, reg, id, t[id]);
    forall i | 0 <= i < |gs|
      ensures gs[i].attr in v.attrs && FieldOk(p, reg, t, id.mod, t[id].fields[i], gs[i], v.attrs[gs[i].attr])
    {
      FieldAt(p, reg, t, id, v, gs, i);
      FieldCodes(p, reg, t, id.mod, t[id], t[id].fields[i], gs[i], v.attrs[gs[i].attr]);
    }
    TypedIsStored(t, reg, id, v, gs);
  }

  /** Every well-typed object behaves, through any nesting. */
  lemma {:induction false} ObjectRoundTrip(p: Program, reg: Registry, t: Table, id: ClassId, v: Val)
    requires Linked(p, reg, t) && AllRun(p, reg, t) && ObjTyped(t, reg, id, v)
    ensures Behaves(p, reg, t, id, v)
    decreases v, 0, 1
  {
    assert ClassRendered(p, reg, t, id, t[id]) && ClassRuns(p, reg, id, t[id]);
    var gs := ClassBody(p, reg, t, id);
    FieldsOk(p, reg, t, id, v, gs);
    ObjectRound(p, reg, t, id, v, gs);
  }
}
