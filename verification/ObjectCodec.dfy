/** From single values to whole objects: the round trip of one message, and of
    every value tree. */
module ObjectCodec {
  import opened Wrappers
  import opened Proto
  import opened Registry
  import opened Py
  import opened Render
  import opened Schema
  import opened Json
  import opened Statements
  import opened Codec

  // ----- how a descriptor field is rendered -----

  /** g is what the generator makes of field f of m. */
  ghost predicate Rendered(m: Message, f: Field, reg: Registry, current: string, g: GenField) {
    GoodField(m, f, reg) && GenFieldOf(m, f, reg, current) == Some(g)
  }

  lemma MapKind(m: Message, f: Field, reg: Registry, current: string, g: GenField)
    requires Rendered(m, f, reg, current, g) && IsMap(f, reg)
    ensures g.kind == KMap(ElemKind(EntryField(reg.entries[f.typeName]), reg, current))
    ensures !g.kind.inner.KMsg? && g.oneof == "" && !Fixed(f) && !Fixed(EntryField(reg.entries[f.typeName]))
  {
  }

  lemma ListKind(m: Message, f: Field, reg: Registry, current: string, g: GenField)
    requires Rendered(m, f, reg, current, g) && !IsMap(f, reg) && f.repeated
    ensures g.kind == KList(ElemKind(f, reg, current)) && g.oneof == ""
    ensures Fixed(f) ==> g.kind.inner.KMsg?
  {
  }

  /** A singular field: its kind, and whether it tracks presence. */
  lemma SingleKind(m: Message, f: Field, reg: Registry, current: string, g: GenField)
    requires Rendered(m, f, reg, current, g) && !IsMap(f, reg) && !f.repeated
    ensures g.kind == ElemKind(f, reg, current) && !g.kind.KList? && !g.kind.KMap?
    ensures g.presence == TracksPresence(f) && (Fixed(f) ==> g.kind.KMsg?)
  {
  }

  lemma PlainKind(m: Message, f: Field, reg: Registry, current: string, g: GenField)
    requires Rendered(m, f, reg, current, g) && !IsMap(f, reg) && !f.repeated && !TracksPresence(f)
    ensures DefaultOf(g.kind) == Zero(f, reg) && g.oneof == ""
  {
  }

  // ----- one field -----

  /** What the object codec needs of one field holding v. */
  ghost predicate FieldOk(p: Program, reg: Registry, t: Table, current: string, f: Field, g: GenField, v: Val) {
    && (Present(f, reg, v) <==> Holds(EmitOf(g).test, v))
    && (Fixed(f) ==> !Conflict(t, v) && !Stuck(t, v))
    && (Present(f, reg, v) && Fixed(f) ==> Eval(p, current, EmitExpr(g.kind), v).Raise?)
    && (Present(f, reg, v) && !Fixed(f) ==>
          Codes(p, t, current, EmitExpr(g.kind), DecodeExpr(g.kind), v) &&
          NormAttr(t, IsPlainFloat(f), v) == Norm(t, v))
    && (!Present(f, reg, v) ==>
          !Conflict(t, v) && !Stuck(t, v) && FieldDefault(g) == NormAttr(t, IsPlainFloat(f), v))
  }

  lemma MapFieldOk(p: Program, reg: Registry, t: Table, current: string, m: Message, f: Field, g: GenField, v: Val)
    requires Rendered(m, f, reg, current, g) && IsMap(f, reg) && v.VDict? && OneKind(v.m)
    requires forall k :: k in v.m ==>
               Codes(p, t, current, EncodeScalar(g.kind.inner), DecodeScalar(g.kind.inner), v.m[k])
    ensures FieldOk(p, reg, t, current, f, g, v)
  {
    if v.m == map[] {
      EmptyMapOk(p, reg, t, current, m, f, g, v);
    } else {
      MapKind(m, f, reg, current, g);
      DictCodes(p, t, current, EncodeScalar(g.kind.inner), DecodeScalar(g.kind.inner), v.m);
      MapIsEmitted(f, reg, current, m, g, v);
      PresentOk(p, reg, t, current, f, g, v);
    }
  }

  lemma EmptyMapOk(p: Program, reg: Registry, t: Table, current: string, m: Message, f: Field, g: GenField, v: Val)
    requires Rendered(m, f, reg, current, g) && IsMap(f, reg) && v == VDict(map[])
    ensures FieldOk(p, reg, t, current, f, g, v)
  {
    MapKind(m, f, reg, current, g);
    assert Norm(t, v).m == map[];
  }

  lemma MapIsEmitted(f: Field, reg: Registry, current: string, m: Message, g: GenField, v: Val)
    requires Rendered(m, f, reg, current, g) && IsMap(f, reg) && v.VDict? && v.m != map[]
    ensures !Fixed(f) && Present(f, reg, v) && Holds(EmitOf(g).test, v)
    ensures EmitExpr(g.kind) == DictComp(EncodeScalar(g.kind.inner))
    ensures DecodeExpr(g.kind) == DictComp(DecodeScalar(g.kind.inner))
  {
    MapKind(m, f, reg, current, g);
  }

  /** A present field that codes. */
  lemma PresentOk(p: Program, reg: Registry, t: Table, current: string, f: Field, g: GenField, v: Val)
    requires Present(f, reg, v) && Holds(EmitOf(g).test, v) && !Fixed(f) && NormAttr(t, IsPlainFloat(f), v) == Norm(t, v)
    requires Codes(p, t, current, EmitExpr(g.kind), DecodeExpr(g.kind), v)
    ensures FieldOk(p, reg, t, current, f, g, v)
  {
  }

  lemma EmptyListOk(p: Program, reg: Registry, t: Table, current: string, m: Message, f: Field, g: GenField)
    requires Rendered(m, f, reg, current, g) && !IsMap(f, reg) && f.repeated
    ensures FieldOk(p, reg, t, current, f, g, VList([]))
  {
    ListKind(m, f, reg, current, g);
    assert NormAll(t, []) == [];
  }

  lemma ListIsEmitted(f: Field, reg: Registry, current: string, m: Message, g: GenField, xs: seq<Val>)
    requires Rendered(m, f, reg, current, g) && !IsMap(f, reg) && f.repeated && xs != []
    ensures Present(f, reg, VList(xs)) && Holds(EmitOf(g).test, VList(xs))
    ensures EmitExpr(g.kind) == ListComp(ListElem(ElemKind(f, reg, current)))
    ensures DecodeExpr(g.kind) == ListComp(ListElemDecode(ElemKind(f, reg, current)))
  {
    ListKind(m, f, reg, current, g);
  }

  lemma ListFieldOk(p: Program, reg: Registry, t: Table, current: string, m: Message, f: Field, g: GenField, v: Val)
    requires Rendered(m, f, reg, current, g) && !IsMap(f, reg) && f.repeated && !Fixed(f) && v.VList?
    requires var k := ElemKind(f, reg, current);
             forall x :: x in v.xs ==> Codes(p, t, current, ListElem(k), ListElemDecode(k), x)
    ensures FieldOk(p, reg, t, current, f, g, v)
  {
    if v.xs == [] {
      EmptyListOk(p, reg, t, current, m, f, g);
    } else {
      var k := ElemKind(f, reg, current);
      ListIsEmitted(f, reg, current, m, g, v.xs);
      ListCodes(p, t, current, ListElem(k), ListElemDecode(k), v.xs);
      PresentOk(p, reg, t, current, f, g, v);
    }
  }

  /** A list of numbers, taken for messages: the first one raises. */
  lemma FixedListOk(p: Program, reg: Registry, t: Table, current: string, m: Message, f: Field, g: GenField, v: Val)
    requires Rendered(m, f, reg, current, g) && !IsMap(f, reg) && f.repeated && Fixed(f)
    requires v.VList? && forall x :: x in v.xs ==> x.VInt?
    ensures FieldOk(p, reg, t, current, f, g, v)
  {
    FixedListClean(t, v);
    if v.xs == [] {
      EmptyListOk(p, reg, t, current, m, f, g);
    } else {
      ListIsEmitted(f, reg, current, m, g, v.xs);
      ListKind(m, f, reg, current, g);
      FixedListRaises(p, current, v);
      BrokenOk(p, reg, t, current, f, g, v);
    }
  }

  lemma FixedListClean(t: Table, v: Val)
    requires v.VList? && forall x :: x in v.xs ==> x.VInt?
    ensures !Conflict(t, v) && !Stuck(t, v)
  {
    assert forall i :: 0 <= i < |v.xs| ==> v.xs[i] in v.xs;
  }

  lemma FixedListRaises(p: Program, current: string, v: Val)
    requires v.VList? && v.xs != [] && forall x :: x in v.xs ==> x.VInt?
    ensures Eval(p, current, ListComp(ToDict), v).Raise?
  {
    assert v.xs[0] in v.xs;
    assert Eval(p, current, ToDict, v.xs[0]) == Raise(AttributeError);
  }

  lemma BrokenOk(p: Program, reg: Registry, t: Table, current: string, f: Field, g: GenField, v: Val)
    requires Fixed(f) && Present(f, reg, v) && Holds(EmitOf(g).test, v) && !Conflict(t, v) && !Stuck(t, v)
    requires Eval(p, current, EmitExpr(g.kind), v).Raise?
    ensures FieldOk(p, reg, t, current, f, g, v)
  {
  }

  /** Outside lists and maps, the element expressions are the field's own. */
  lemma SingleExprs(k: Kind)
    requires !k.KList? && !k.KMap?
    ensures EmitExpr(k) == ListElem(k) && DecodeExpr(k) == ListElemDecode(k)
  {
  }

  lemma UnsetFieldOk(p: Program, reg: Registry, t: Table, current: string, m: Message, f: Field, g: GenField)
    requires Rendered(m, f, reg, current, g) && !IsMap(f, reg) && !f.repeated && TracksPresence(f)
    ensures FieldOk(p, reg, t, current, f, g, VNone)
  {
    SingleKind(m, f, reg, current, g);
  }

  lemma FixedFieldOk(p: Program, reg: Registry, t: Table, current: string, m: Message, f: Field, g: GenField, v: Val)
    requires Rendered(m, f, reg, current, g) && !IsMap(f, reg) && !f.repeated && Fixed(f) && v.VInt?
    ensures FieldOk(p, reg, t, current, f, g, v)
  {
    SingleKind(m, f, reg, current, g);
    assert EmitExpr(g.kind) == ToDict;
    assert Eval(p, current, ToDict, v) == Raise(AttributeError);
  }

  lemma SetFieldOk(p: Program, reg: Registry, t: Table, current: string, m: Message, f: Field, g: GenField, v: Val)
    requires Rendered(m, f, reg, current, g) && !IsMap(f, reg) && !f.repeated && TracksPresence(f) && !Fixed(f) && v != VNone
    requires var k := ElemKind(f, reg, current);
             Codes(p, t, current, ListElem(k), ListElemDecode(k), v)
    ensures FieldOk(p, reg, t, current, f, g, v)
  {
    SingleKind(m, f, reg, current, g);
    SingleExprs(g.kind);
  }

  lemma PlainFieldOk(p: Program, reg: Registry, t: Table, current: string, m: Message, f: Field, g: GenField, v: Val)
    requires Rendered(m, f, reg, current, g) && !IsMap(f, reg) && !f.repeated && !TracksPresence(f)
    requires ScalarTyped(f.typ, v)
    requires var k := ElemKind(f, reg, current);
             Codes(p, t, current, ListElem(k), ListElemDecode(k), v)
    ensures FieldOk(p, reg, t, current, f, g, v)
  {
    SingleKind(m, f, reg, current, g);
    PlainKind(m, f, reg, current, g);
    SingleExprs(g.kind);
  }

  // ----- one object -----

  /** gs are the rendered fields of m. */
  ghost predicate AllRendered(m: Message, reg: Registry, current: string, gs: seq<GenField>) {
    && GoodMessage(m, reg)
    && |gs| == |m.fields|
    && forall i :: 0 <= i < |gs| ==>
         && Rendered(m, m.fields[i], reg, current, gs[i])
         && gs[i].attr == PyAttr(m.fields[i].name) && gs[i].wire == m.fields[i].jsonName
  }

  /** The rendered fields are those the object stores, and no oneof has a single
      arm. */
  ghost predicate Stored(m: Message, reg: Registry, current: string, gs: seq<GenField>, attrs: map<string, Val>) {
    && AllRendered(m, reg, current, gs) && ArmsPaired(m)
    && attrs.Keys == (set i | 0 <= i < |gs| :: gs[i].attr)
    && forall i :: 0 <= i < |gs| ==> gs[i].attr in attrs
  }

  /** Each stored field is fit for its value, and the oneof error can be raised. */
  ghost predicate ObjectOk(p: Program, reg: Registry, t: Table, current: string, m: Message,
                           gs: seq<GenField>, attrs: map<string, Val>) {
    && Stored(m, reg, current, gs, attrs)
    && (forall i :: 0 <= i < |gs| ==> FieldOk(p, reg, t, current, m.fields[i], gs[i], attrs[gs[i].attr]))
    && (HasArms(m) ==> !HidesErrors(p, current))
  }

  /** Arms of one oneof are the fields whose rendered group is that oneof. */
  lemma SameGroup(m: Message, reg: Registry, current: string, f: Field, f': Field, g: GenField, g': GenField)
    requires GoodMessage(m, reg) && Rendered(m, f, reg, current, g) && Rendered(m, f', reg, current, g')
    ensures SameOneof(f, f') <==> g.oneof != "" && g.oneof == g'.oneof
  {
    ArmIs(m, reg, current, f, g);
    ArmIs(m, reg, current, f', g');
  }

  /** The group of a field is the name of its oneof, if it is an arm of one. */
  lemma ArmIs(m: Message, reg: Registry, current: string, f: Field, g: GenField)
    requires Rendered(m, f, reg, current, g)
    ensures IsArm(f) <==> g.oneof != ""
    ensures IsArm(f) ==> 0 <= f.oneofIndex.value < |m.oneofs| && g.oneof == m.oneofs[f.oneofIndex.value]
  {
  }

  /** Every group that is checked has two arms, all of them stored. */
  lemma GroupIsPaired(m: Message, reg: Registry, current: string, gs: seq<GenField>, attrs: map<string, Val>, i: nat)
    requires Stored(m, reg, current, gs, attrs) && i < |gs| && gs[i].oneof != ""
    ensures HasArms(m)
    ensures var arms := AttrsOf(ArmsOf(gs, gs[i].oneof)); |arms| > 1 && forall x :: x in arms ==> x in attrs
  {
    ArmIs(m, reg, current, m.fields[i], gs[i]);
    var j :| 0 <= j < |m.fields| && j != i && SameOneof(m.fields[i], m.fields[j]);
    SameGroup(m, reg, current, m.fields[i], m.fields[j], gs[i], gs[j]);
    if i < j {
      TwoArms(gs, i, j, gs[i].oneof);
    } else {
      TwoArms(gs, j, i, gs[i].oneof);
    }
    ArmAttrsStored(attrs, gs, gs[i].oneof);
  }

  /** Some group check fails exactly when two arms of a oneof are set. */
  lemma ConflictIsChecked(m: Message, reg: Registry, current: string, gs: seq<GenField>, attrs: map<string, Val>, group: string)
    requires Stored(m, reg, current, gs, attrs) && group != ""
    ensures forall x :: x in AttrsOf(ArmsOf(gs, group)) ==> x in attrs
    ensures SetArms(attrs, AttrsOf(ArmsOf(gs, group))) > 1 ==> NodeConflict(m, attrs)
  {
    CountArms(attrs, gs, group);
    if SetArms(attrs, AttrsOf(ArmsOf(gs, group))) > 1 {
      var i, j :| 0 <= i < j < |gs| && SetArm(attrs, gs[i], group) && SetArm(attrs, gs[j], group);
      SameGroup(m, reg, current, m.fields[i], m.fields[j], gs[i], gs[j]);
      assert IsSet(attrs, PyAttr(m.fields[i].name)) && IsSet(attrs, PyAttr(m.fields[j].name));
    }
  }

  lemma ConflictFails(m: Message, reg: Registry, current: string, gs: seq<GenField>, attrs: map<string, Val>) returns (i: nat)
    requires Stored(m, reg, current, gs, attrs) && NodeConflict(m, attrs)
    ensures i < |gs| && gs[i].oneof != ""
    ensures forall x :: x in AttrsOf(ArmsOf(gs, gs[i].oneof)) ==> x in attrs
    ensures SetArms(attrs, AttrsOf(ArmsOf(gs, gs[i].oneof))) > 1
  {
    var a, b :| 0 <= a < b < |m.fields| && SameOneof(m.fields[a], m.fields[b]) &&
      IsSet(attrs, PyAttr(m.fields[a].name)) && IsSet(attrs, PyAttr(m.fields[b].name));
    SameGroup(m, reg, current, m.fields[a], m.fields[b], gs[a], gs[b]);
    CountArms(attrs, gs, gs[a].oneof);
    assert SetArm(attrs, gs[a], gs[a].oneof) && SetArm(attrs, gs[b], gs[a].oneof);
    i := a;
  }

  // ----- an object and its fields -----

  /** The object is one of m's class. */
  ghost predicate IsOf(t: Table, m: Message, self: Val) {
    self.VObj? && self.cls in t && t[self.cls] == m
  }

  /** The object holds neither a conflict nor a set fixed-width field. */
  ghost predicate Sound(t: Table, m: Message, self: Val) {
    IsOf(t, m, self) && !Conflict(t, self) && !Stuck(t, self)
  }

  /** What an object without set fixed-width fields says of one attribute. */
  lemma FixedPart(t: Table, reg: Registry, m: Message, self: Val, i: nat)
    requires IsOf(t, m, self) && !Stuck(t, self) && i < |m.fields| && PyAttr(m.fields[i].name) in self.attrs
    ensures var v := self.attrs[PyAttr(m.fields[i].name)];
            !Stuck(t, v) && (Fixed(m.fields[i]) && !IsMap(m.fields[i], reg) ==> !Present(m.fields[i], reg, v))
  {
    assert !FixedSetAt(m.fields[i], self.attrs);
  }

  lemma ConflictPart(t: Table, m: Message, self: Val, a: string)
    requires IsOf(t, m, self) && !Conflict(t, self) && a in self.attrs
    ensures !Conflict(t, self.attrs[a]) && !NodeConflict(m, self.attrs)
  {
  }

  /** A field that is not a set fixed-width one can only raise the oneof error. */
  lemma FieldFails(p: Program, reg: Registry, t: Table, current: string, f: Field, g: GenField, self: Val)
    requires self.VObj? && g.attr in self.attrs && FieldOk(p, reg, t, current, f, g, self.attrs[g.attr])
    requires !Stuck(t, self.attrs[g.attr]) && (Fixed(f) ==> !Present(f, reg, self.attrs[g.attr]))
    ensures Runs(p, current, EmitOf(g), self) && FailsAsOneof(p, current, EmitOf(g), self)
    ensures Fails(p, current, EmitOf(g), self) <==> Present(f, reg, self.attrs[g.attr]) && Conflict(t, self.attrs[g.attr])
    ensures Conflict(t, self.attrs[g.attr]) ==> Fails(p, current, EmitOf(g), self)
  {
  }

  lemma NoFixedMaps(m: Message, reg: Registry, current: string, f: Field, g: GenField)
    requires Rendered(m, f, reg, current, g) && Fixed(f)
    ensures !IsMap(f, reg)
  {
  }

  lemma EmitFails(p: Program, reg: Registry, t: Table, current: string, m: Message, gs: seq<GenField>, self: Val, i: nat)
    requires IsOf(t, m, self) && !Stuck(t, self) && ObjectOk(p, reg, t, current, m, gs, self.attrs) && i < |gs|
    ensures Runs(p, current, EmitOf(gs[i]), self) && FailsAsOneof(p, current, EmitOf(gs[i]), self)
    ensures Conflict(t, self.attrs[gs[i].attr]) ==> Fails(p, current, EmitOf(gs[i]), self)
  {
    var f, g := m.fields[i], gs[i];
    assert Rendered(m, f, reg, current, g) && FieldOk(p, reg, t, current, f, g, self.attrs[g.attr]);
    FixedPart(t, reg, m, self, i);
    if Fixed(f) {
      NoFixedMaps(m, reg, current, f, g);
    }
    FieldFails(p, reg, t, current, f, g, self);
  }

  lemma CheckFails(p: Program, m: Message, reg: Registry, current: string, gs: seq<GenField>, self: Val, i: nat)
    requires self.VObj? && Stored(m, reg, current, gs, self.attrs) && (HasArms(m) ==> !HidesErrors(p, current))
    requires i < |gs| && gs[i].oneof != ""
    ensures var s := CheckOf(gs, gs[i].oneof); Runs(p, current, s, self) && FailsAsOneof(p, current, s, self)
    ensures var s := CheckOf(gs, gs[i].oneof); !NodeConflict(m, self.attrs) ==> !Fails(p, current, s, self)
  {
    GroupIsPaired(m, reg, current, gs, self.attrs, i);
    ConflictIsChecked(m, reg, current, gs, self.attrs, gs[i].oneof);
  }

  lemma StatementFails(p: Program, reg: Registry, t: Table, current: string, m: Message, gs: seq<GenField>, self: Val, s: Stmt)
    requires IsOf(t, m, self) && !Stuck(t, self) && ObjectOk(p, reg, t, current, m, gs, self.attrs)
    requires s in ToDictStmts(gs)
    ensures Runs(p, current, s, self) && FailsAsOneof(p, current, s, self)
  {
    RenderedIs(gs, s);
    if ChecksGroup(gs, s) {
      var i :| 0 <= i < |gs| && gs[i].oneof != "" && s == CheckOf(gs, gs[i].oneof);
      CheckFails(p, m, reg, current, gs, self, i);
    } else {
      var g :| g in gs && s == EmitOf(g);
      var i :| 0 <= i < |gs| && gs[i] == g;
      EmitFails(p, reg, t, current, m, gs, self, i);
    }
  }

  lemma FailingStatement(p: Program, reg: Registry, t: Table, current: string, m: Message,
                         gs: seq<GenField>, self: Val) returns (s: Stmt)
    requires IsOf(t, m, self) && !Stuck(t, self) && Conflict(t, self)
    requires ObjectOk(p, reg, t, current, m, gs, self.attrs)
    ensures s in ToDictStmts(gs) && Runs(p, current, s, self) && Fails(p, current, s, self)
  {
    if NodeConflict(m, self.attrs) {
      s := FailingCheck(p, reg, current, m, gs, self);
    } else {
      var i := ConflictingAttr(t, reg, current, m, gs, self);
      EmitIsRendered(gs, i);
      EmitFails(p, reg, t, current, m, gs, self, i);
      s := EmitOf(gs[i]);
    }
  }

  lemma ConflictingAttr(t: Table, reg: Registry, current: string, m: Message, gs: seq<GenField>, self: Val) returns (i: nat)
    requires IsOf(t, m, self) && Conflict(t, self) && !NodeConflict(m, self.attrs)
    requires Stored(m, reg, current, gs, self.attrs)
    ensures i < |gs| && Conflict(t, self.attrs[gs[i].attr])
  {
    var a :| a in self.attrs && Conflict(t, self.attrs[a]);
    i :| 0 <= i < |gs| && gs[i].attr == a;
  }

  lemma FailingCheck(p: Program, reg: Registry, current: string, m: Message, gs: seq<GenField>, self: Val) returns (s: Stmt)
    requires self.VObj? && Stored(m, reg, current, gs, self.attrs) && NodeConflict(m, self.attrs)
    ensures s in ToDictStmts(gs) && Runs(p, current, s, self) && Fails(p, current, s, self)
  {
    var i := ConflictFails(m, reg, current, gs, self.attrs);
    CheckIsRendered(gs, i);
    GroupIsPaired(m, reg, current, gs, self.attrs, i);
    s := CheckOf(gs, gs[i].oneof);
  }

  /** A conflict in the object or below, and no set fixed-width field, makes the
      body raise the oneof error. */
  lemma ObjectRaises(p: Program, reg: Registry, t: Table, current: string, m: Message, gs: seq<GenField>, self: Val)
    requires IsOf(t, m, self) && !Stuck(t, self) && Conflict(t, self)
    requires ObjectOk(p, reg, t, current, m, gs, self.attrs)
    ensures RunStmts(p, current, ToDictStmts(gs), self, map[]) == Raise(ValueError)
  {
    var stmts := ToDictStmts(gs);
    forall s | s in stmts ensures Runs(p, current, s, self) && FailsAsOneof(p, current, s, self) {
      StatementFails(p, reg, t, current, m, gs, self, s);
    }
    var bad := FailingStatement(p, reg, t, current, m, gs, self);
    RunRaises(p, current, stmts, self, map[]);
  }

  // ----- set fixed-width fields -----

  lemma FieldBreaks(p: Program, reg: Registry, t: Table, current: string, f: Field, g: GenField, self: Val)
    requires self.VObj? && g.attr in self.attrs && FieldOk(p, reg, t, current, f, g, self.attrs[g.attr])
    requires Stuck(t, self.attrs[g.attr]) || (Fixed(f) && Present(f, reg, self.attrs[g.attr]))
    ensures Breaks(p, current, EmitOf(g), self)
  {
  }

  lemma FixedIsPresent(reg: Registry, m: Message, current: string, f: Field, g: GenField, attrs: map<string, Val>)
    requires Rendered(m, f, reg, current, g) && FixedSetAt(f, attrs)
    ensures PyAttr(f.name) in attrs && Present(f, reg, attrs[PyAttr(f.name)])
  {
  }

  lemma FixedAttr(t: Table, reg: Registry, current: string, m: Message, gs: seq<GenField>, self: Val) returns (i: nat)
    requires IsOf(t, m, self) && Stuck(t, self) && Stored(m, reg, current, gs, self.attrs)
    ensures i < |gs|
    ensures Stuck(t, self.attrs[gs[i].attr]) || FixedSetAt(m.fields[i], self.attrs)
  {
    if NodeFixed(m, self.attrs) {
      i :| 0 <= i < |m.fields| && FixedSetAt(m.fields[i], self.attrs);
    } else {
      var a :| a in self.attrs && Stuck(t, self.attrs[a]);
      i :| 0 <= i < |gs| && gs[i].attr == a;
    }
  }

  lemma StuckField(p: Program, reg: Registry, t: Table, current: string, m: Message, gs: seq<GenField>, self: Val) returns (i: nat)
    requires IsOf(t, m, self) && Stuck(t, self) && ObjectOk(p, reg, t, current, m, gs, self.attrs)
    ensures i < |gs| && Breaks(p, current, EmitOf(gs[i]), self)
  {
    i := FixedAttr(t, reg, current, m, gs, self);
    assert Rendered(m, m.fields[i], reg, current, gs[i]);
    if FixedSetAt(m.fields[i], self.attrs) {
      FixedIsPresent(reg, m, current, m.fields[i], gs[i], self.attrs);
    }
    FieldBreaks(p, reg, t, current, m.fields[i], gs[i], self);
  }

  /** A set fixed-width field in the object or below makes the body raise. */
  lemma ObjectStuck(p: Program, reg: Registry, t: Table, current: string, m: Message, gs: seq<GenField>, self: Val)
    requires IsOf(t, m, self) && Stuck(t, self) && ObjectOk(p, reg, t, current, m, gs, self.attrs)
    ensures RunStmts(p, current, ToDictStmts(gs), self, map[]).Raise?
  {
    var i := StuckField(p, reg, t, current, m, gs, self);
    EmitIsRendered(gs, i);
    RunStuck(p, current, ToDictStmts(gs), self, map[], EmitOf(gs[i]));
  }

  // ----- an object without conflicts -----

  /** The field's key is on the wire exactly when it is present, in wire form. */
  ghost predicate FieldWire(p: Program, reg: Registry, current: string, f: Field, g: GenField, v: Val, d: map<MapKey, Val>) {
    && (Str(g.wire) in d <==> Present(f, reg, v))
    && (Str(g.wire) in d ==> Eval(p, current, EmitExpr(g.kind), v) == Ok(d[Str(g.wire)]))
  }

  /** The wire object holds exactly the present fields, each in its wire form. */
  ghost predicate WireForm(p: Program, reg: Registry, current: string, m: Message, gs: seq<GenField>,
                           attrs: map<string, Val>, d: map<MapKey, Val>) {
    && |gs| == |m.fields|
    && (forall i :: 0 <= i < |gs| ==>
          gs[i].attr in attrs && FieldWire(p, reg, current, m.fields[i], gs[i], attrs[gs[i].attr], d))
    && (forall k :: k in d ==> exists i :: 0 <= i < |gs| && Str(gs[i].wire) == k)
  }

  lemma DistinctWires(m: Message, reg: Registry, current: string, gs: seq<GenField>)
    requires AllRendered(m, reg, current, gs)
    ensures forall i, j :: 0 <= i < |gs| && 0 <= j < |gs| && gs[i].wire == gs[j].wire ==> i == j
    ensures DistinctAttrs(gs)
  {
  }

  lemma WireMap(gs: seq<GenField>, keep: seq<bool>, vals: seq<Val>) returns (d: map<MapKey, Val>)
    requires |gs| == |keep| == |vals|
    requires forall i, j :: 0 <= i < |gs| && 0 <= j < |gs| && gs[i].wire == gs[j].wire ==> i == j
    ensures forall i :: 0 <= i < |gs| ==> (Str(gs[i].wire) in d <==> keep[i]) && (keep[i] ==> d[Str(gs[i].wire)] == vals[i])
    ensures forall k :: k in d ==> exists i :: 0 <= i < |gs| && Str(gs[i].wire) == k
  {
    d := map i | 0 <= i < |gs| && keep[i] :: Str(gs[i].wire) := vals[i];
  }

  /** The wire value of one field, when it is present. */
  ghost function WireValue(p: Program, current: string, g: GenField, v: Val): Val {
    match Eval(p, current, EmitExpr(g.kind), v)
    case Ok(w) => w
    case Raise(_) => VNone
  }

  /** What a sound object's field needs to be written and read back. */
  ghost predicate FieldSound(p: Program, reg: Registry, t: Table, current: string, f: Field, g: GenField, v: Val) {
    && FieldOk(p, reg, t, current, f, g, v) && !Conflict(t, v) && !Stuck(t, v)
    && (Fixed(f) ==> !Present(f, reg, v))
  }

  lemma SoundField(p: Program, reg: Registry, t: Table, current: string, m: Message, gs: seq<GenField>, self: Val, i: nat)
    requires Sound(t, m, self) && ObjectOk(p, reg, t, current, m, gs, self.attrs) && i < |gs|
    ensures FieldSound(p, reg, t, current, m.fields[i], gs[i], self.attrs[gs[i].attr])
  {
    var f, g := m.fields[i], gs[i];
    assert Rendered(m, f, reg, current, g);
    FixedPart(t, reg, m, self, i);
    ConflictPart(t, m, self, g.attr);
    if Fixed(f) {
      NoFixedMaps(m, reg, current, f, g);
    }
  }

  lemma SoundEvaluates(p: Program, reg: Registry, t: Table, current: string, f: Field, g: GenField, v: Val)
    requires FieldSound(p, reg, t, current, f, g, v)
    ensures Present(f, reg, v) <==> Holds(EmitOf(g).test, v)
    ensures Present(f, reg, v) ==> Eval(p, current, EmitExpr(g.kind), v) == Ok(WireValue(p, current, g, v))
  {
  }

  lemma WireTarget(p: Program, reg: Registry, t: Table, current: string, m: Message,
                   gs: seq<GenField>, self: Val) returns (d: map<MapKey, Val>)
    requires Sound(t, m, self) && ObjectOk(p, reg, t, current, m, gs, self.attrs)
    ensures WireForm(p, reg, current, m, gs, self.attrs, d)
  {
    DistinctWires(m, reg, current, gs);
    var n := |gs|;
    var keep := seq(n, i requires 0 <= i < n => Present(m.fields[i], reg, self.attrs[gs[i].attr]));
    var vals := seq(n, i requires 0 <= i < n => WireValue(p, current, gs[i], self.attrs[gs[i].attr]));
    d := WireMap(gs, keep, vals);
    forall i | 0 <= i < n ensures FieldWire(p, reg, current, m.fields[i], gs[i], self.attrs[gs[i].attr], d) {
      var v := self.attrs[gs[i].attr];
      assert keep[i] == Present(m.fields[i], reg, v) && vals[i] == WireValue(p, current, gs[i], v);
      SoundField(p, reg, t, current, m, gs, self, i);
      SoundEvaluates(p, reg, t, current, m.fields[i], gs[i], v);
    }
  }

  lemma FieldWrites(p: Program, reg: Registry, t: Table, current: string, f: Field, g: GenField, self: Val, d: map<MapKey, Val>)
    requires self.VObj? && g.attr in self.attrs && FieldSound(p, reg, t, current, f, g, self.attrs[g.attr])
    requires FieldWire(p, reg, current, f, g, self.attrs[g.attr], d)
    ensures Runs(p, current, EmitOf(g), self) && Writes(p, current, EmitOf(g), self, d)
    ensures Present(f, reg, self.attrs[g.attr]) ==> Emitting(EmitOf(g), self, Str(g.wire))
  {
    SoundEvaluates(p, reg, t, current, f, g, self.attrs[g.attr]);
  }

  lemma EmitWrites(p: Program, reg: Registry, t: Table, current: string, m: Message,
                   gs: seq<GenField>, self: Val, d: map<MapKey, Val>, i: nat)
    requires Sound(t, m, self) && ObjectOk(p, reg, t, current, m, gs, self.attrs)
    requires WireForm(p, reg, current, m, gs, self.attrs, d) && i < |gs|
    ensures Runs(p, current, EmitOf(gs[i]), self) && Writes(p, current, EmitOf(gs[i]), self, d)
    ensures Str(gs[i].wire) in d ==> Emitting(EmitOf(gs[i]), self, Str(gs[i].wire))
  {
    SoundField(p, reg, t, current, m, gs, self, i);
    assert FieldWire(p, reg, current, m.fields[i], gs[i], self.attrs[gs[i].attr], d);
    FieldWrites(p, reg, t, current, m.fields[i], gs[i], self, d);
  }

  lemma CheckWrites(p: Program, m: Message, reg: Registry, current: string, gs: seq<GenField>, self: Val, d: map<MapKey, Val>, i: nat)
    requires self.VObj? && Stored(m, reg, current, gs, self.attrs) && (HasArms(m) ==> !HidesErrors(p, current))
    requires !NodeConflict(m, self.attrs) && i < |gs| && gs[i].oneof != ""
    ensures var s := CheckOf(gs, gs[i].oneof); Runs(p, current, s, self) && Writes(p, current, s, self, d)
  {
    CheckFails(p, m, reg, current, gs, self, i);
  }

  lemma BodyWrites(p: Program, reg: Registry, t: Table, current: string, m: Message,
                   gs: seq<GenField>, self: Val, d: map<MapKey, Val>, s: Stmt)
    requires Sound(t, m, self) && !NodeConflict(m, self.attrs) && ObjectOk(p, reg, t, current, m, gs, self.attrs)
    requires WireForm(p, reg, current, m, gs, self.attrs, d) && s in ToDictStmts(gs)
    ensures Runs(p, current, s, self) && Writes(p, current, s, self, d)
  {
    RenderedIs(gs, s);
    if ChecksGroup(gs, s) {
      var i :| 0 <= i < |gs| && gs[i].oneof != "" && s == CheckOf(gs, gs[i].oneof);
      CheckWrites(p, m, reg, current, gs, self, d, i);
    } else {
      var g :| g in gs && s == EmitOf(g);
      var i :| 0 <= i < |gs| && gs[i] == g;
      EmitWrites(p, reg, t, current, m, gs, self, d, i);
    }
  }

  /** Every key of the wire form is written by some statement. */
  lemma KeyIsWritten(p: Program, reg: Registry, t: Table, current: string, m: Message,
                     gs: seq<GenField>, self: Val, d: map<MapKey, Val>, k: MapKey) returns (s: Stmt)
    requires Sound(t, m, self) && ObjectOk(p, reg, t, current, m, gs, self.attrs)
    requires WireForm(p, reg, current, m, gs, self.attrs, d) && k in d
    ensures s in ToDictStmts(gs) && Emitting(s, self, k)
  {
    var i :| 0 <= i < |gs| && Str(gs[i].wire) == k;
    EmitIsRendered(gs, i);
    EmitWrites(p, reg, t, current, m, gs, self, d, i);
    s := EmitOf(gs[i]);
  }

  /** Without conflicts and set fixed-width fields, the body builds the wire form. */
  lemma ObjectEncodes(p: Program, reg: Registry, t: Table, current: string, m: Message,
                      gs: seq<GenField>, self: Val, d: map<MapKey, Val>)
    requires Sound(t, m, self) && ObjectOk(p, reg, t, current, m, gs, self.attrs)
    requires WireForm(p, reg, current, m, gs, self.attrs, d)
    ensures RunStmts(p, current, ToDictStmts(gs), self, map[]) == Ok(d)
  {
    SoundNode(t, m, self);
    EveryWrite(p, reg, t, current, m, gs, self, d);
    EveryKey(p, reg, t, current, m, gs, self, d);
    RunExactly(p, current, ToDictStmts(gs), self, d);
  }

  lemma SoundNode(t: Table, m: Message, self: Val)
    requires Sound(t, m, self)
    ensures !NodeConflict(m, self.attrs)
  {
  }

  lemma EveryWrite(p: Program, reg: Registry, t: Table, current: string, m: Message,
                   gs: seq<GenField>, self: Val, d: map<MapKey, Val>)
    requires Sound(t, m, self) && !NodeConflict(m, self.attrs) && ObjectOk(p, reg, t, current, m, gs, self.attrs)
    requires WireForm(p, reg, current, m, gs, self.attrs, d)
    ensures forall s :: s in ToDictStmts(gs) ==> Runs(p, current, s, self) && Writes(p, current, s, self, d)
  {
    forall s | s in ToDictStmts(gs) ensures Runs(p, current, s, self) && Writes(p, current, s, self, d) {
      BodyWrites(p, reg, t, current, m, gs, self, d, s);
    }
  }

  lemma EveryKey(p: Program, reg: Registry, t: Table, current: string, m: Message,
                 gs: seq<GenField>, self: Val, d: map<MapKey, Val>)
    requires Sound(t, m, self) && ObjectOk(p, reg, t, current, m, gs, self.attrs)
    requires WireForm(p, reg, current, m, gs, self.attrs, d)
    ensures forall k :: k in d ==> exists s :: s in ToDictStmts(gs) && Emitting(s, self, k)
  {
    forall k | k in d ensures exists s :: s in ToDictStmts(gs) && Emitting(s, self, k) {
      var s := KeyIsWritten(p, reg, t, current, m, gs, self, d, k);
    }
  }

  /** From a fresh object, the loads rebuild the attributes, normalised. */
  lemma ObjectDecodes(p: Program, reg: Registry, t: Table, m: Message, gs: seq<GenField>, self: Val, d: map<MapKey, Val>)
    requires Sound(t, m, self) && ObjectOk(p, reg, t, self.cls.mod, m, gs, self.attrs)
    requires WireForm(p, reg, self.cls.mod, m, gs, self.attrs, d)
    ensures RunLoads(p, self.cls.mod, LoadsOf(gs), VDict(d), DefaultsOf(gs)) == Ok(NormAttrs(t, self))
  {
    var current, w, want := self.cls.mod, VDict(d), NormAttrs(t, self);
    DistinctWires(m, reg, current, gs);
    forall i | 0 <= i < |gs| ensures Loads(p, current, gs[i], w, want[gs[i].attr]) {
      FieldLoads(p, reg, t, m, gs, self, d, i);
    }
    StartLoaded(gs, want);
    assert LoadPlan(p, current, gs, w, want);
    LoadsRun(p, current, gs, 0, w, DefaultsOf(gs), want);
    assert LoadsOf(gs)[0..] == LoadsOf(gs);
  }

  lemma StartLoaded(gs: seq<GenField>, want: map<string, Val>)
    requires DistinctAttrs(gs) && want.Keys == set i | 0 <= i < |gs| :: gs[i].attr
    ensures Loaded(gs, 0, DefaultsOf(gs), want)
  {
    forall i | 0 <= i < |gs|
      ensures gs[i].attr in want && gs[i].attr in DefaultsOf(gs) && DefaultsOf(gs)[gs[i].attr] == FieldDefault(gs[i])
    {
      DefaultAt(gs, i);
    }
  }

  /** What normalising makes of one attribute. */
  lemma NormAt(t: Table, reg: Registry, current: string, m: Message, gs: seq<GenField>, self: Val, i: nat)
    requires IsOf(t, m, self) && AllRendered(m, reg, current, gs) && i < |gs| && gs[i].attr in self.attrs
    ensures NormAttrs(t, self)[gs[i].attr] == NormAttr(t, IsPlainFloat(m.fields[i]), self.attrs[gs[i].attr])
  {
    var a := gs[i].attr;
    if PlainFloat(t, self.cls, a) {
      var j :| 0 <= j < |m.fields| && PyAttr(m.fields[j].name) == a && IsPlainFloat(m.fields[j]);
      assert i == j;
    }
  }

  lemma FieldLoads(p: Program, reg: Registry, t: Table, m: Message, gs: seq<GenField>, self: Val, d: map<MapKey, Val>, i: nat)
    requires Sound(t, m, self) && i < |gs| && ObjectOk(p, reg, t, self.cls.mod, m, gs, self.attrs)
    requires WireForm(p, reg, self.cls.mod, m, gs, self.attrs, d)
    ensures Loads(p, self.cls.mod, gs[i], VDict(d), NormAttrs(t, self)[gs[i].attr])
  {
    var v := self.attrs[gs[i].attr];
    NormAt(t, reg, self.cls.mod, m, gs, self, i);
    SoundField(p, reg, t, self.cls.mod, m, gs, self, i);
    assert FieldWire(p, reg, self.cls.mod, m.fields[i], gs[i], v, d);
    WireLoads(p, reg, t, self.cls.mod, m.fields[i], gs[i], v, d);
  }

  /** One field read back from its wire form. */
  lemma WireLoads(p: Program, reg: Registry, t: Table, current: string, f: Field, g: GenField, v: Val, d: map<MapKey, Val>)
    requires FieldSound(p, reg, t, current, f, g, v) && FieldWire(p, reg, current, f, g, v, d)
    ensures Loads(p, current, g, VDict(d), NormAttr(t, IsPlainFloat(f), v))
  {
  }

  // ----- by way of JSON text -----

  /** Defaults hold no keys. */
  lemma DefaultStays(g: GenField)
    ensures OverJson(FieldDefault(g)) == FieldDefault(g)
  {
    if g.kind.KList? {
      assert OverJsonAll([]) == [];
    } else if g.kind.KMap? {
      assert OverJsonEach(VDict(map[])) == map[];
    }
  }

  lemma NotNoneStays(w: Val)
    requires w != VNone
    ensures OverJson(w) != VNone
  {
  }

  /** One field read back from the text of its wire form. */
  lemma TextLoads(p: Program, reg: Registry, t: Table, current: string, f: Field, g: GenField, v: Val,
                  d: map<MapKey, Val>, dt: map<MapKey, Val>)
    requires FieldSound(p, reg, t, current, f, g, v) && FieldWire(p, reg, current, f, g, v, d)
    requires dt.Keys == d.Keys && forall k :: k in d ==> dt[k] == OverJson(d[k])
    ensures Loads(p, current, g, VDict(dt), OverJson(NormAttr(t, IsPlainFloat(f), v)))
  {
    if Str(g.wire) in d {
      NotNoneStays(d[Str(g.wire)]);
    } else {
      DefaultStays(g);
    }
  }

  lemma WireKeysAreStr(p: Program, reg: Registry, current: string, m: Message, gs: seq<GenField>,
                       attrs: map<string, Val>, d: map<MapKey, Val>)
    requires WireForm(p, reg, current, m, gs, attrs, d)
    ensures AllStr(d)
  {
  }

  lemma FieldTextLoads(p: Program, reg: Registry, t: Table, m: Message, gs: seq<GenField>, self: Val, d: map<MapKey, Val>, i: nat)
    requires Sound(t, m, self) && i < |gs| && ObjectOk(p, reg, t, self.cls.mod, m, gs, self.attrs)
    requires WireForm(p, reg, self.cls.mod, m, gs, self.attrs, d)
    ensures Loads(p, self.cls.mod, gs[i], VDict(OverJsonEach(VDict(d))), OverJson(NormAttrs(t, self)[gs[i].attr]))
  {
    var v := self.attrs[gs[i].attr];
    NormAt(t, reg, self.cls.mod, m, gs, self, i);
    SoundField(p, reg, t, self.cls.mod, m, gs, self, i);
    WireKeysAreStr(p, reg, self.cls.mod, m, gs, self.attrs, d);
    StrKeysStay(VDict(d));
    assert FieldWire(p, reg, self.cls.mod, m.fields[i], gs[i], v, d);
    TextLoads(p, reg, t, self.cls.mod, m.fields[i], gs[i], v, d, OverJsonEach(VDict(d)));
  }

  /** By way of JSON text, the loads rebuild the attributes with the keys of their
      maps turned to strings. */
  lemma TextDecodes(p: Program, reg: Registry, t: Table, m: Message, gs: seq<GenField>, self: Val, d: map<MapKey, Val>)
    requires Sound(t, m, self) && ObjectOk(p, reg, t, self.cls.mod, m, gs, self.attrs)
    requires WireForm(p, reg, self.cls.mod, m, gs, self.attrs, d)
    ensures RunLoads(p, self.cls.mod, LoadsOf(gs), VDict(OverJsonEach(VDict(d))), DefaultsOf(gs)) ==
            Ok(OverJsonAttrs(VObj(self.cls, NormAttrs(t, self))))
  {
    var current, w, want := self.cls.mod, VDict(OverJsonEach(VDict(d))), OverJsonAttrs(VObj(self.cls, NormAttrs(t, self)));
    DistinctWires(m, reg, current, gs);
    forall i | 0 <= i < |gs| ensures Loads(p, current, gs[i], w, want[gs[i].attr]) {
      FieldTextLoads(p, reg, t, m, gs, self, d, i);
    }
    StartLoaded(gs, want);
    assert LoadPlan(p, current, gs, w, want);
    LoadsRun(p, current, gs, 0, w, DefaultsOf(gs), want);
    assert LoadsOf(gs)[0..] == LoadsOf(gs);
  }
}
