/** What a schema says about Python values, independently of the generator:
    which values a message type has, when a oneof is set twice, and which fields
    count as present. */
module Schema {
  import opened Proto
  import opened Registry
  import opened Py
  import opened Render
  import Decimal
  import Base64
  import Duration

  /** The message behind each class. */
  type Table = imap<ClassId, Message>

  predicate IsMap(f: Field, reg: Registry) {
    f.typ.TMessage? && f.typeName in reg.entries
  }

  /** A type scalarKind leaves out, so that the generator takes the field for a
      message. */
  predicate Fixed(f: Field) {
    f.typ.TFixed32? || f.typ.TFixed64?
  }

  /** The attribute is None when the field is unset: unset and zero differ. */
  predicate TracksPresence(f: Field) {
    f.proto3Optional || f.oneofIndex.Some? || f.typ.TMessage? || Fixed(f)
  }

  // ----- well-typed values -----

  predicate Within(n: int, low: int, high: int) {
    low <= n < high
  }

  predicate ScalarTyped(t: FieldType, v: Val) {
    match t
    case TString | TEnum => v.VStr?
    case TBytes => v.VBytes?
    case TBool => v.VBool?
    case TInt32 | TSint32 | TSfixed32 => v.VInt? && Within(v.n, -0x8000_0000, 0x8000_0000)
    case TUint32 | TFixed32 => v.VInt? && Within(v.n, 0, 0x1_0000_0000)
    case TInt64 | TSint64 | TSfixed64 => v.VInt? && Within(v.n, -0x8000_0000_0000_0000, 0x8000_0000_0000_0000)
    case TUint64 | TFixed64 => v.VInt? && Within(v.n, 0, 0x1_0000_0000_0000_0000)
    case TFloat | TDouble => v.VFloat?
    case TMessage | TGroup => false
  }

  const DAY: int := 24 * 60 * 60 * 1000000

  /** A datetime there can be: its local reading is in range and its offset less
      than a day; the reading in UTC may still be out of range. */
  predicate IsDatetime(local: int, zone: Zone) {
    InstantInRange(local) && (zone.Offset? ==> -DAY < zone.micros < DAY)
  }

  /** Keys of one type, as those of a proto map are. */
  predicate OneKind(m: map<MapKey, Val>) {
    || (forall k :: k in m ==> k.Str?)
    || (forall k :: k in m ==> k.Int?)
    || (forall k :: k in m ==> k.Bool?)
  }

  /** v is one value of the field's type. */
  ghost predicate ElemTyped(t: Table, reg: Registry, f: Field, v: Val)
    decreases v, 1
  {
    if !f.typ.TMessage? then ScalarTyped(f.typ, v)
    else if f.typeName == TIMESTAMP then v.VTime? && IsDatetime(v.local, v.zone)
    else if f.typeName == DURATION then v.VDelta? && Duration.InRange(v.micros)
    else f.typeName in reg.byFQ && ObjTyped(t, reg, reg.byFQ[f.typeName], v)
  }

  ghost predicate FieldTyped(t: Table, reg: Registry, f: Field, v: Val)
    decreases v, 2
  {
    if IsMap(f, reg) then
      v.VDict? && OneKind(v.m) && forall k :: k in v.m ==> ElemTyped(t, reg, EntryField(reg.entries[f.typeName]), v.m[k])
    else if f.repeated then v.VList? && forall x :: x in v.xs ==> ElemTyped(t, reg, f, x)
    else (TracksPresence(f) && v == VNone) || ElemTyped(t, reg, f, v)
  }

  /** v is an object of the class of a message, every field of its type. */
  ghost predicate ObjTyped(t: Table, reg: Registry, id: ClassId, v: Val)
    decreases v, 0
  {
    && v.VObj? && v.cls == id && id in t
    && v.attrs.Keys == (set i | 0 <= i < |t[id].fields| :: PyAttr(t[id].fields[i].name))
    && forall i :: 0 <= i < |t[id].fields| ==>
         FieldTyped(t, reg, t[id].fields[i], v.attrs[PyAttr(t[id].fields[i].name)])
  }

  /** The class names inside a message, enums first. */
  function Scope(m: Message): seq<string> {
    ScopeNames(Children(m.nested), m.enums)
  }

  // ----- oneofs -----

  /** The two fields are different arms of one real oneof. */
  predicate SameOneof(f: Field, g: Field) {
    f.oneofIndex.Some? && f.oneofIndex == g.oneofIndex && !f.proto3Optional && !g.proto3Optional
  }

  /** Two arms of one oneof are set in this object. */
  ghost predicate NodeConflict(m: Message, attrs: map<string, Val>) {
    exists i, j :: 0 <= i < j < |m.fields| && SameOneof(m.fields[i], m.fields[j]) &&
      IsSet(attrs, PyAttr(m.fields[i].name)) && IsSet(attrs, PyAttr(m.fields[j].name))
  }

  predicate IsSet(attrs: map<string, Val>, a: string) {
    a in attrs && attrs[a] != VNone
  }

  /** Two arms of one oneof are set somewhere in the value tree. */
  ghost predicate Conflict(t: Table, v: Val) {
    match v
    case VObj(cls, attrs) =>
      (cls in t && NodeConflict(t[cls], attrs)) || exists a :: a in attrs && Conflict(t, attrs[a])
    case VList(xs) => exists i :: 0 <= i < |xs| && Conflict(t, xs[i])
    case VDict(m) => exists k :: k in m && Conflict(t, m[k])
    case _ => false
  }

  // ----- what cannot be encoded -----

  /** A fixed32 or fixed64 field of this object is set, or holds elements. */
  ghost predicate NodeFixed(m: Message, attrs: map<string, Val>) {
    exists i :: 0 <= i < |m.fields| && FixedSetAt(m.fields[i], attrs)
  }

  predicate FixedSetAt(f: Field, attrs: map<string, Val>) {
    && Fixed(f) && PyAttr(f.name) in attrs
    && var v := attrs[PyAttr(f.name)]; if f.repeated then v.VList? && v.xs != [] else v != VNone
  }

  /** Somewhere in the value tree a fixed32 or fixed64 field is set, or a datetime
      has a reading in UTC that no datetime can hold. */
  ghost predicate Stuck(t: Table, v: Val) {
    match v
    case VTime(local, zone) => !InstantInRange(Instant(local, zone))
    case VObj(cls, attrs) =>
      (cls in t && NodeFixed(t[cls], attrs)) || exists a :: a in attrs && Stuck(t, attrs[a])
    case VList(xs) => exists i :: 0 <= i < |xs| && Stuck(t, xs[i])
    case VDict(m) => exists k :: k in m && Stuck(t, m[k])
    case _ => false
  }

  /** Every datetime in the value has a reading in UTC. */
  ghost predicate TimesFit(v: Val) {
    match v
    case VTime(local, zone) => InstantInRange(Instant(local, zone))
    case VList(xs) => forall i :: 0 <= i < |xs| ==> TimesFit(xs[i])
    case VDict(m) => forall k :: k in m ==> TimesFit(m[k])
    case VObj(_, attrs) => forall a :: a in attrs ==> TimesFit(attrs[a])
    case _ => true
  }

  // ----- scalars on the wire -----

  /** 64-bit integers are decimal text, bytes base64 text, floats that are no number
      or infinite their names; all else is itself. */
  ghost predicate ScalarWire(t: FieldType, v: Val, w: Val) {
    match t
    case TInt64 | TSint64 | TSfixed64 | TUint64 => v.VInt? && w == VStr(Decimal.IntText(v.n))
    case TBytes => v.VBytes? && w == VStr(Base64.Encode(v.bs))
    case TFloat | TDouble => v.VFloat? && w == FloatWire(v.f)
    case _ => w == v
  }

  function FloatWire(f: Float): Val {
    match f
    case NaN => VStr("NaN")
    case Infinite(negative) => if negative then VStr("-Infinity") else VStr("Infinity")
    case Finite(_) | NegZero => VFloat(f)
  }

  // ----- presence on the wire -----

  /** The proto3 zero of a plain field. */
  function Zero(f: Field, reg: Registry): Val {
    match f.typ
    case TString => VStr("")
    case TEnum => VStr(if f.typeName in reg.enumZero then reg.enumZero[f.typeName] else "")
    case TBytes => VBytes([])
    case TBool => VBool(false)
    case TFloat | TDouble => VFloat(Finite(0.0))
    case _ => VInt(0)
  }

  /** The field's key belongs on the wire: set, non-empty, or non-zero. */
  predicate Present(f: Field, reg: Registry, v: Val) {
    if IsMap(f, reg) then v.VDict? && v.m != map[]
    else if f.repeated then v.VList? && v.xs != []
    else if TracksPresence(f) then v != VNone
    else !PyEq(v, Zero(f, reg))
  }

  // ----- what a round trip may change -----

  /** The attribute holds a float field without presence. */
  ghost predicate PlainFloat(t: Table, cls: ClassId, a: string) {
    cls in t && exists i :: 0 <= i < |t[cls].fields| && PyAttr(t[cls].fields[i].name) == a &&
                            IsPlainFloat(t[cls].fields[i])
  }

  predicate IsPlainFloat(f: Field) {
    (f.typ.TFloat? || f.typ.TDouble?) && !f.repeated && !TracksPresence(f)
  }

  /** The value with every datetime in UTC, the same instant, and every plain
      -0.0 as 0.0. */
  ghost function Norm(t: Table, v: Val): Val
    decreases v, 0, 1
  {
    match v
    case VTime(local, zone) => VTime(Instant(local, zone), Utc)
    case VList(xs) => VList(NormAll(t, xs))
    case VDict(_) => VDict(NormEach(t, v))
    case VObj(cls, _) => VObj(cls, NormAttrs(t, v))
    case _ => v
  }

  ghost function NormAll(t: Table, xs: seq<Val>): (r: seq<Val>)
    ensures |r| == |xs|
    ensures forall i :: 0 <= i < |xs| ==> r[i] == Norm(t, xs[i])
    decreases xs, 1
  {
    seq(|xs|, i requires 0 <= i < |xs| => Norm(t, xs[i]))
  }

  ghost function NormEach(t: Table, d: Val): (r: map<MapKey, Val>)
    requires d.VDict?
    ensures r.Keys == d.m.Keys && forall k :: k in d.m ==> r[k] == Norm(t, d.m[k])
    decreases d, 0, 0
  {
    map k | k in d.m :: Norm(t, d.m[k])
  }

  ghost function NormAttrs(t: Table, o: Val): (r: map<string, Val>)
    requires o.VObj?
    ensures r.Keys == o.attrs.Keys
    ensures forall a :: a in o.attrs ==> r[a] == NormAttr(t, PlainFloat(t, o.cls, a), o.attrs[a])
    decreases o, 0, 0
  {
    map a | a in o.attrs :: NormAttr(t, PlainFloat(t, o.cls, a), o.attrs[a])
  }

  ghost function NormAttr(t: Table, plainFloat: bool, v: Val): Val
    decreases v, 1
  {
    if plainFloat && v == VFloat(NegZero) then VFloat(Finite(0.0)) else Norm(t, v)
  }

  /** Every datetime is aware and in UTC, and no plain float is -0.0. */
  ghost predicate Canonical(t: Table, v: Val) {
    match v
    case VTime(_, zone) => zone == Utc
    case VList(xs) => forall i :: 0 <= i < |xs| ==> Canonical(t, xs[i])
    case VDict(m) => forall k :: k in m ==> Canonical(t, m[k])
    case VObj(cls, attrs) =>
      forall a :: a in attrs ==> Canonical(t, attrs[a]) && !(PlainFloat(t, cls, a) && attrs[a] == VFloat(NegZero))
    case _ => true
  }

  ghost predicate Fixes(t: Table, v: Val) {
    Norm(t, v) == v <==> Canonical(t, v)
  }

  lemma ListFixes(t: Table, xs: seq<Val>)
    requires forall i :: 0 <= i < |xs| ==> Fixes(t, xs[i])
    ensures Fixes(t, VList(xs))
  {
    assert Norm(t, VList(xs)) == VList(NormAll(t, xs));
    if NormAll(t, xs) == xs {
      forall i | 0 <= i < |xs| ensures Canonical(t, xs[i]) {
        assert NormAll(t, xs)[i] == xs[i] && Fixes(t, xs[i]);
      }
    }
    if Canonical(t, VList(xs)) {
      forall i | 0 <= i < |xs| ensures NormAll(t, xs)[i] == xs[i] {
        assert Fixes(t, xs[i]);
      }
    }
  }

  lemma DictFixes(t: Table, v: Val)
    requires v.VDict? && forall k :: k in v.m ==> Fixes(t, v.m[k])
    ensures Fixes(t, v)
  {
    var n := NormEach(t, v);
    assert n == v.m <==> forall k :: k in v.m ==> n[k] == v.m[k];
    assert forall k :: k in v.m ==> (n[k] == v.m[k] <==> Canonical(t, v.m[k]));
  }

  lemma AttrFixes(t: Table, plainFloat: bool, v: Val)
    requires Fixes(t, v)
    ensures NormAttr(t, plainFloat, v) == v <==> Canonical(t, v) && !(plainFloat && v == VFloat(NegZero))
  {
  }

  lemma ObjFixes(t: Table, v: Val)
    requires v.VObj? && forall a :: a in v.attrs ==> Fixes(t, v.attrs[a])
    ensures Fixes(t, v)
  {
    var n := NormAttrs(t, v);
    forall a | a in v.attrs
      ensures n[a] == v.attrs[a] <==> Canonical(t, v.attrs[a]) && !(PlainFloat(t, v.cls, a) && v.attrs[a] == VFloat(NegZero))
    {
      AttrFixes(t, PlainFloat(t, v.cls, a), v.attrs[a]);
    }
    SameAttrs(n, v.attrs);
  }

  lemma SameAttrs(a: map<string, Val>, b: map<string, Val>)
    requires a.Keys == b.Keys
    ensures a == b <==> forall k :: k in a ==> a[k] == b[k]
  {
  }

  /** Normalising changes a value exactly when it is not canonical. */
  lemma {:induction false} NormFixes(t: Table, v: Val)
    ensures Fixes(t, v)
    decreases v
  {
    match v
    case VList(xs) =>
      forall i | 0 <= i < |xs| ensures Fixes(t, xs[i]) {
        NormFixes(t, xs[i]);
      }
      ListFixes(t, xs);
    case VDict(m) =>
      forall k | k in m ensures Fixes(t, m[k]) {
        NormFixes(t, m[k]);
      }
      DictFixes(t, v);
    case VObj(cls, attrs) =>
      forall a | a in attrs ensures Fixes(t, attrs[a]) {
        NormFixes(t, attrs[a]);
      }
      ObjFixes(t, v);
    case _ =>
  }

  // ----- what protoc guarantees -----

  /** An identifier of the protobuf language: a letter, then letters, digits and
      underscores. */
  predicate IsIdent(s: string) {
    IsIdentifier(s) && s[0] != '_'
  }

  /** No group, and a time type's name on a message only. */
  predicate GoodElem(f: Field) {
    && !f.typ.TGroup?
    && (WellKnown(f.typeName) ==> f.typ.TMessage?)
  }

  predicate GoodField(m: Message, f: Field, reg: Registry) {
    && IsIdent(f.name) && GoodElem(f)
    && (IsMap(f, reg) ==> GoodElem(EntryField(reg.entries[f.typeName])))
    && (f.repeated || IsMap(f, reg) ==> f.oneofIndex.None? && !f.proto3Optional)
    && (f.oneofIndex.Some? && !f.proto3Optional ==>
          var i := f.oneofIndex.value; 0 <= i < |m.oneofs| && IsIdent(m.oneofs[i]))
  }

  /** Distinct attributes, wire keys and oneofs. */
  ghost predicate GoodMessage(m: Message, reg: Registry) {
    && (forall i, j :: 0 <= i < j < |m.fields| ==> PyAttr(m.fields[i].name) != PyAttr(m.fields[j].name))
    && (forall i, j :: 0 <= i < j < |m.fields| ==> m.fields[i].jsonName != m.fields[j].jsonName)
    && (forall i, j :: 0 <= i < j < |m.oneofs| ==> m.oneofs[i] != m.oneofs[j])
    && (forall i :: 0 <= i < |m.fields| ==> GoodField(m, m.fields[i], reg))
  }

  // ----- what the generated code needs besides -----

  /** The field is an arm of a real oneof. */
  predicate IsArm(f: Field) {
    f.oneofIndex.Some? && !f.proto3Optional
  }

  ghost predicate HasArms(m: Message) {
    exists i :: 0 <= i < |m.fields| && IsArm(m.fields[i])
  }

  /** No oneof has a single arm. */
  ghost predicate ArmsPaired(m: Message) {
    forall i :: 0 <= i < |m.fields| && IsArm(m.fields[i]) ==>
      exists j :: 0 <= j < |m.fields| && j != i && SameOneof(m.fields[i], m.fields[j])
  }

  function AttrAt(m: Message, i: int): string
    requires 0 <= i < |m.fields|
  {
    PyAttr(m.fields[i].name)
  }

  /** The built-in that makes the field's default, or "". */
  function FactoryOf(f: Field, reg: Registry): string {
    if IsMap(f, reg) then "dict" else if f.repeated then "list" else ""
  }

  /** No attribute before a repeated or map field is called `dataclasses`. */
  ghost predicate FieldsKeepDataclasses(m: Message, reg: Registry) {
    forall i, j :: 0 <= i < j < |m.fields| && AttrAt(m, i) == "dataclasses" ==> FactoryOf(m.fields[j], reg) == ""
  }

  /** Neither an attribute nor an earlier nested class is called `dataclasses`
      where a nested message is decorated. */
  ghost predicate NestedKeepDataclasses(m: Message) {
    && (forall i :: 0 <= i < |m.fields| && AttrAt(m, i) == "dataclasses" ==> Children(m.nested) == [])
    && (forall i :: 0 <= i < |Scope(m)| - 1 && Scope(m)[i] == "dataclasses" ==> Children(m.nested) == [])
  }

  /** The class body runs as meant: no name it uses has another meaning there. */
  ghost predicate BodyLoads(m: Message, reg: Registry) {
    && FieldsKeepDataclasses(m, reg) && NestedKeepDataclasses(m)
    && (forall i :: 0 <= i < |m.fields| ==> AttrAt(m, i) != "classmethod")
  }

  /** The factory of every repeated or map field is the built-in. */
  ghost predicate FactoriesBuiltIn(m: Message, reg: Registry) {
    forall i, j :: 0 <= i < j < |m.fields| && FactoryOf(m.fields[j], reg) != "" ==> AttrAt(m, i) != FactoryOf(m.fields[j], reg)
  }

  /** No attribute is called like a method or a nested class. */
  ghost predicate AttrsOwn(m: Message) {
    forall i :: 0 <= i < |m.fields| ==> AttrAt(m, i) !in METHODS && AttrAt(m, i) !in Scope(m)
  }

  /** No nested class is called like a method. */
  ghost predicate MethodsOwn(m: Message) {
    "to_dict" !in Scope(m) && "from_dict" !in Scope(m)
  }

  /** Nothing in the class hides what the generated code of the class uses, and no
      oneof has a single arm. */
  ghost predicate SafeNames(m: Message, reg: Registry) {
    BodyLoads(m, reg) && FactoriesBuiltIn(m, reg) && AttrsOwn(m) && MethodsOwn(m)
  }
}
