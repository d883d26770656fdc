/** The generator: field kinds, the codec of one message, and the module of one
    file. A result of None is a generation panic. */
module Render {
  import opened Wrappers
  import opened Proto
  import opened Registry
  import opened Py

  /** The codec tag of a field. */
  datatype Kind =
    | KStr | KBytes | KBool | KInt32 | KInt64 | KFloat | KEnum(zero: string)
    | KTimestamp | KDuration | KMsg(ref: seq<string>) | KList(inner: Kind) | KMap(inner: Kind)

  datatype GenField = GenField(attr: string, wire: string, kind: Kind, oneof: string, presence: bool)

  const RESERVED: set<string> := KEYWORDS + {"self", "cls"}

  /** The name, with one underscore after it exactly where Python would not take
      it. */
  function PyAttr(name: string): (a: string)
    ensures a == name || a == name + "_"
    ensures a == name <==> name !in KEYWORDS && name != "self" && name != "cls"
  {
    if name in RESERVED then name + "_" else name
  }

  // ----- kinds -----

  function WellKnownKind(typeName: string): Option<Kind> {
    if typeName == TIMESTAMP then Some(KTimestamp)
    else if typeName == DURATION then Some(KDuration)
    else None
  }

  function ScalarKind(f: Field, reg: Registry): Option<Kind> {
    match f.typ
    case TString => Some(KStr)
    case TBytes => Some(KBytes)
    case TBool => Some(KBool)
    case TInt32 | TSint32 | TSfixed32 | TUint32 => Some(KInt32)
    case TInt64 | TSint64 | TSfixed64 | TUint64 => Some(KInt64)
    case TFloat | TDouble => Some(KFloat)
    case TEnum => Some(KEnum(if f.typeName in reg.enumZero then reg.enumZero[f.typeName] else ""))
    case TMessage | TGroup | TFixed32 | TFixed64 => None
  }

  /** How a module spells a class: its path, qualified by a sibling module. */
  function RefTo(id: ClassId, current: string): seq<string> {
    if id.mod == current then id.path else [id.mod] + id.path
  }

  function MessageRef(f: Field, reg: Registry, current: string): Kind {
    if f.typeName in reg.byFQ then KMsg(RefTo(reg.byFQ[f.typeName], current)) else KMsg(["UNKNOWN"])
  }

  function ElemKind(f: Field, reg: Registry, current: string): Kind {
    match WellKnownKind(f.typeName)
    case Some(k) => k
    case None =>
      match ScalarKind(f, reg)
      case Some(k) => k
      case None => MessageRef(f, reg, current)
  }

  /** The getters of an absent value field: a double with no type name. */
  function EntryField(value: Option<Field>): Field {
    match value
    case Some(f) => f
    case None => Field("", "", 0, TDouble, "", false, None, false)
  }

  function KindOf(f: Field, reg: Registry, current: string): Option<Kind> {
    if f.typ.TMessage? && f.typeName in reg.entries then
      var value := ElemKind(EntryField(reg.entries[f.typeName]), reg, current);
      if value.KMsg? then None else Some(KMap(value))
    else if f.typ.TMessage? && WellKnownKind(f.typeName).Some? then
      var k := WellKnownKind(f.typeName).value;
      Some(if f.repeated then KList(k) else k)
    else if f.repeated then Some(KList(ElemKind(f, reg, current)))
    else
      match ScalarKind(f, reg)
      case Some(k) => Some(k)
      case None => Some(MessageRef(f, reg, current))
  }

  /** The oneof a field is an arm of, or ""; a proto3 optional field rides a
      synthetic one, which is presence and not a group. */
  function OneofOf(m: Message, f: Field): string {
    match f.oneofIndex
    case None => ""
    case Some(i) =>
      if f.proto3Optional || !(0 <= i < |m.oneofs|) || "_" <= m.oneofs[i] then "" else m.oneofs[i]
  }

  function GenFieldOf(m: Message, f: Field, reg: Registry, current: string): Option<GenField> {
    match KindOf(f, reg, current)
    case None => None
    case Some(kind) =>
      var oneof := OneofOf(m, f);
      Some(GenField(PyAttr(f.name), f.jsonName, kind, oneof,
                    f.proto3Optional || oneof != "" || kind.KMsg? || kind.KTimestamp? || kind.KDuration?))
  }

  function FieldsUpTo(m: Message, n: nat, reg: Registry, current: string): (r: Option<seq<GenField>>)
    requires n <= |m.fields|
    ensures r.Some? ==> |r.value| == n
    ensures r.Some? ==> forall i :: 0 <= i < n ==> GenFieldOf(m, m.fields[i], reg, current) == Some(r.value[i])
    ensures r.None? ==> exists i :: 0 <= i < n && GenFieldOf(m, m.fields[i], reg, current) == None
  {
    if n == 0 then Some([])
    else
      match FieldsUpTo(m, n - 1, reg, current)
      case None => None
      case Some(fs) =>
        match GenFieldOf(m, m.fields[n - 1], reg, current)
        case None => None
        case Some(g) => Some(fs + [g])
  }

  method ResolveFields(m: Message, reg: Registry, current: string) returns (r: Option<seq<GenField>>)
    ensures r == FieldsUpTo(m, |m.fields|, reg, current)
  {
    var out: seq<GenField> := [];
    for i := 0 to |m.fields|
      invariant FieldsUpTo(m, i, reg, current) == Some(out)
    {
      var g := GenFieldOf(m, m.fields[i], reg, current);
      if g == None {
        PanicStays(m, i + 1, |m.fields|, reg, current);
        return None;
      }
      out := out + [g.value];
    }
    return Some(out);
  }

  lemma {:induction false} PanicStays(m: Message, i: nat, n: nat, reg: Registry, current: string)
    requires i <= n <= |m.fields| && FieldsUpTo(m, i, reg, current) == None
    ensures FieldsUpTo(m, n, reg, current) == None
  {
    if i < n {
      PanicStays(m, i, n - 1, reg, current);
    }
  }

  // ----- expressions -----

  function EncodeScalar(k: Kind): Expr {
    match k
    case KInt64 => Call(StrOf)
    case KFloat => Call(FloatOut)
    case KBytes => Call(B64Out)
    case KTimestamp => Call(TsOut)
    case KDuration => Call(DurOut)
    case _ => Name
  }

  function ListElem(k: Kind): Expr {
    if k.KMsg? then ToDict else EncodeScalar(k)
  }

  function EmitExpr(k: Kind): Expr {
    match k
    case KList(inner) => ListComp(ListElem(inner))
    case KMap(inner) => DictComp(EncodeScalar(inner))
    case KMsg(_) => ToDict
    case KTimestamp => Call(TsOut)
    case KDuration => Call(DurOut)
    case KInt64 => Call(StrOf)
    case KFloat => Call(FloatOut)
    case KBytes => Call(B64Out)
    case _ => Name
  }

  function DecodeScalar(k: Kind): Expr {
    match k
    case KInt32 | KInt64 => Call(IntIn)
    case KFloat => Call(FloatIn)
    case KBytes => Call(B64In)
    case KTimestamp => Call(TsIn)
    case KDuration => Call(DurIn)
    case _ => Name
  }

  function ListElemDecode(k: Kind): Expr {
    if k.KMsg? then FromDict(k.ref) else DecodeScalar(k)
  }

  function DecodeExpr(k: Kind): Expr {
    match k
    case KList(inner) => ListComp(ListElemDecode(inner))
    case KMap(inner) => DictComp(DecodeScalar(inner))
    case KMsg(ref) => FromDict(ref)
    case KTimestamp => Call(TsIn)
    case KDuration => Call(DurIn)
    case KInt32 => Call(IntIn)
    case KInt64 => Call(IntIn)
    case KFloat => Call(FloatIn)
    case KBytes => Call(B64In)
    case _ => Name
  }

  function DefaultOf(k: Kind): Val {
    match k
    case KStr => VStr("")
    case KEnum(zero) => VStr(zero)
    case KBytes => VBytes([])
    case KBool => VBool(false)
    case KInt32 | KInt64 => VInt(0)
    case KFloat => VFloat(Finite(0.0))
    case _ => VNone
  }

  /** The value a fresh dataclass is meant to hold in the field. */
  function FieldDefault(f: GenField): Val {
    if f.kind.KList? then VList([])
    else if f.kind.KMap? then VDict(map[])
    else if f.presence then VNone
    else DefaultOf(f.kind)
  }

  /** What the class body assigns to the field. */
  function DefOf(f: GenField): FieldDef {
    FieldDef(f.attr,
             if f.kind.KList? then Factory("list")
             else if f.kind.KMap? then Factory("dict")
             else if f.presence then Constant(VNone)
             else Constant(DefaultOf(f.kind)))
  }

  function DefsOf(fields: seq<GenField>): (r: seq<FieldDef>)
    ensures |r| == |fields|
  {
    seq(|fields|, i requires 0 <= i < |fields| => DefOf(fields[i]))
  }

  // ----- the codec of one message -----

  /** The statement that emits one field, whichever pass writes it. */
  function EmitOf(f: GenField): Stmt {
    var test :=
      if f.oneof != "" then IsNotNone
      else if f.kind.KList? || f.kind.KMap? then Truthy
      else if f.presence then IsNotNone
      else Differs(DefaultOf(f.kind));
    Emit(test, f.attr, f.wire, EmitExpr(f.kind))
  }

  function LoadOf(f: GenField): Load {
    Load(f.wire, f.attr, DecodeExpr(f.kind))
  }

  /** The first pass: every field outside a oneof, in order. */
  function PlainPass(fields: seq<GenField>): seq<Stmt> {
    if fields == [] then []
    else
      var last := fields[|fields| - 1];
      PlainPass(fields[..|fields| - 1]) + (if last.oneof == "" then [EmitOf(last)] else [])
  }

  function ArmsOf(fields: seq<GenField>, group: string): seq<GenField> {
    if fields == [] then []
    else
      var last := fields[|fields| - 1];
      ArmsOf(fields[..|fields| - 1], group) + (if last.oneof == group then [last] else [])
  }

  function AttrsOf(fields: seq<GenField>): (r: seq<string>)
    ensures |r| == |fields|
  {
    seq(|fields|, i requires 0 <= i < |fields| => fields[i].attr)
  }

  function EmitsOf(fields: seq<GenField>): (r: seq<Stmt>)
    ensures |r| == |fields|
  {
    seq(|fields|, i requires 0 <= i < |fields| => EmitOf(fields[i]))
  }

  /** One oneof group: the set-arm check, then its arms in order. */
  function GroupStmts(fields: seq<GenField>, group: string): seq<Stmt> {
    [OneofCheck(AttrsOf(ArmsOf(fields, group)))] + EmitsOf(ArmsOf(fields, group))
  }

  /** The names of the groups met in the first n fields. */
  function Groups(fields: seq<GenField>, n: nat): set<string>
    requires n <= |fields|
  {
    if n == 0 then {}
    else Groups(fields, n - 1) + (if fields[n - 1].oneof == "" then {} else {fields[n - 1].oneof})
  }

  /** The second pass over the first n fields: each group where it first occurs. */
  function OneofPass(fields: seq<GenField>, n: nat): seq<Stmt>
    requires n <= |fields|
  {
    if n == 0 then []
    else
      var g := fields[n - 1].oneof;
      OneofPass(fields, n - 1) + (if g == "" || g in Groups(fields, n - 1) then [] else GroupStmts(fields, g))
  }

  function ToDictStmts(fields: seq<GenField>): seq<Stmt> {
    PlainPass(fields) + OneofPass(fields, |fields|)
  }

  lemma Regrouped(a: seq<Stmt>, b: seq<Stmt>, c: seq<Stmt>)
    ensures (a + b) + c == a + (b + c)
  {
  }

  method RenderToDict(fields: seq<GenField>) returns (stmts: seq<Stmt>)
    ensures stmts == ToDictStmts(fields)
  {
    stmts := RenderPlain(fields);
    var seen: set<string> := {};
    ghost var plain := stmts;
    for i := 0 to |fields|
      invariant seen == Groups(fields, i)
      invariant stmts == plain + OneofPass(fields, i)
    {
      var g := fields[i].oneof;
      if g != "" && g !in seen {
        seen := seen + {g};
        var group := RenderGroup(fields, g);
        Regrouped(plain, OneofPass(fields, i), group);
        stmts := stmts + group;
      }
    }
  }

  method RenderPlain(fields: seq<GenField>) returns (stmts: seq<Stmt>)
    ensures stmts == PlainPass(fields)
  {
    stmts := [];
    for i := 0 to |fields|
      invariant stmts == PlainPass(fields[..i])
    {
      assert fields[..i + 1][..i] == fields[..i];
      if fields[i].oneof == "" {
        stmts := stmts + [EmitOf(fields[i])];
      }
    }
    assert fields[..|fields|] == fields;
  }

  method RenderGroup(fields: seq<GenField>, group: string) returns (stmts: seq<Stmt>)
    ensures stmts == GroupStmts(fields, group)
  {
    var arms: seq<string> := [];
    for i := 0 to |fields|
      invariant arms == AttrsOf(ArmsOf(fields[..i], group))
    {
      assert fields[..i + 1][..i] == fields[..i];
      if fields[i].oneof == group {
        arms := arms + [fields[i].attr];
      }
    }
    assert fields[..|fields|] == fields;
    stmts := [OneofCheck(arms)];
    for i := 0 to |fields|
      invariant stmts == [OneofCheck(arms)] + EmitsOf(ArmsOf(fields[..i], group))
    {
      assert fields[..i + 1][..i] == fields[..i];
      if fields[i].oneof == group {
        stmts := stmts + [EmitOf(fields[i])];
      }
    }
    assert fields[..|fields|] == fields;
  }

  function LoadsOf(fields: seq<GenField>): (r: seq<Load>)
    ensures |r| == |fields|
  {
    seq(|fields|, i requires 0 <= i < |fields| => LoadOf(fields[i]))
  }

  method RenderFromDict(fields: seq<GenField>) returns (loads: seq<Load>)
    ensures loads == LoadsOf(fields)
  {
    loads := [];
    for i := 0 to |fields|
      invariant loads == LoadsOf(fields[..i])
    {
      loads := loads + [LoadOf(fields[i])];
      assert fields[..i + 1][..i] == fields[..i];
    }
    assert fields[..|fields|] == fields;
  }

  function DefaultsOf(fields: seq<GenField>): (r: map<string, Val>)
    ensures r.Keys == set i | 0 <= i < |fields| :: fields[i].attr
  {
    if fields == [] then map[]
    else
      var last := fields[|fields| - 1];
      DefaultsOf(fields[..|fields| - 1])[last.attr := FieldDefault(last)]
  }

  // ----- classes and modules -----

  function EnumClasses(es: seq<EnumDecl>): (r: seq<PyClass>)
    ensures |r| == |es|
  {
    seq(|es|, i requires 0 <= i < |es| => EnumClass(es[i].name))
  }

  /** The class names of one scope, enums first, as they are emitted. */
  function ScopeNames(ms: seq<Message>, es: seq<EnumDecl>): (r: seq<string>)
    ensures |r| == |es| + |ms|
  {
    seq(|es| + |ms|, i requires 0 <= i < |es| + |ms| => if i < |es| then es[i].name else ms[i - |es|].name)
  }

  function RenderMessage(m: Message, reg: Registry, current: string): (r: Option<PyClass>)
    ensures r.Some? ==> r.value.Dataclass? && r.value.name == m.name
    decreases m, 1
  {
    match FieldsUpTo(m, |m.fields|, reg, current)
    case None => None
    case Some(fields) =>
      match RenderNested(m.nested, reg, current)
      case None => None
      case Some(inner) =>
        Some(Dataclass(m.name, DefsOf(fields), ToDictStmts(fields), LoadsOf(fields),
                       EnumClasses(m.enums) + inner))
  }

  /** The classes of the nested messages that are not map entries. */
  function RenderNested(ns: seq<Message>, reg: Registry, current: string): Option<seq<PyClass>>
    decreases ns, 0
  {
    if ns == [] then Some([])
    else
      var last := ns[|ns| - 1];
      match RenderNested(ns[..|ns| - 1], reg, current)
      case None => None
      case Some(cs) =>
        if last.mapEntry then Some(cs)
        else
          match RenderMessage(last, reg, current)
          case None => None
          case Some(c) => Some(cs + [c])
  }

  function RenderTop(ms: seq<Message>, reg: Registry, current: string): Option<seq<PyClass>> {
    if ms == [] then Some([])
    else
      match RenderTop(ms[..|ms| - 1], reg, current)
      case None => None
      case Some(cs) =>
        match RenderMessage(ms[|ms| - 1], reg, current)
        case None => None
        case Some(c) => Some(cs + [c])
  }

  // ----- sibling imports -----

  /** The sibling module one field makes its file import. */
  function FieldDep(f: Field, reg: Registry, current: string): set<string> {
    if (f.typ.TMessage? || f.typ.TEnum?) && !WellKnown(f.typeName) &&
       f.typeName in reg.byFQ && reg.byFQ[f.typeName].mod != current
    then {reg.byFQ[f.typeName].mod}
    else {}
  }

  function FieldDeps(fs: seq<Field>, reg: Registry, current: string): set<string> {
    if fs == [] then {} else FieldDeps(fs[..|fs| - 1], reg, current) + FieldDep(fs[|fs| - 1], reg, current)
  }

  function Deps(m: Message, reg: Registry, current: string): set<string>
    decreases m, 1
  {
    FieldDeps(m.fields, reg, current) + DepsOfAll(m.nested, reg, current)
  }

  function DepsOfAll(ns: seq<Message>, reg: Registry, current: string): set<string>
    decreases ns, 0
  {
    if ns == [] then {}
    else
      var last := ns[|ns| - 1];
      DepsOfAll(ns[..|ns| - 1], reg, current) + (if last.mapEntry then {} else Deps(last, reg, current))
  }

  function TopDeps(ms: seq<Message>, reg: Registry, current: string): set<string> {
    if ms == [] then {} else TopDeps(ms[..|ms| - 1], reg, current) + Deps(ms[|ms| - 1], reg, current)
  }

  method CollectDeps(m: Message, reg: Registry, current: string, before: set<string>) returns (deps: set<string>)
    ensures deps == before + Deps(m, reg, current)
    decreases m, 1
  {
    deps := before;
    for i := 0 to |m.fields|
      invariant deps == before + FieldDeps(m.fields[..i], reg, current)
    {
      var f := m.fields[i];
      assert m.fields[..i + 1][..i] == m.fields[..i];
      if f.typ.TMessage? || f.typ.TEnum? {
        if !WellKnown(f.typeName) {
          if f.typeName in reg.byFQ && reg.byFQ[f.typeName].mod != current {
            deps := deps + {reg.byFQ[f.typeName].mod};
          }
        }
      }
    }
    assert m.fields[..|m.fields|] == m.fields;
    for i := 0 to |m.nested|
      invariant deps == before + FieldDeps(m.fields, reg, current) + DepsOfAll(m.nested[..i], reg, current)
    {
      assert m.nested[..i + 1][..i] == m.nested[..i];
      if !m.nested[i].mapEntry {
        deps := CollectDeps(m.nested[i], reg, current, deps);
      }
    }
    assert m.nested[..|m.nested|] == m.nested;
  }

  // ----- time helpers -----

  predicate IsTime(k: Kind) {
    || k.KTimestamp? || k.KDuration?
    || ((k.KList? || k.KMap?) && (k.inner.KTimestamp? || k.inner.KDuration?))
  }

  predicate FieldUsesTime(f: Field, reg: Registry, current: string) {
    var k := KindOf(f, reg, current);
    k.Some? && IsTime(k.value)
  }

  /** Some field of the message or of a class nested in it needs the time
      helpers. */
  predicate MessageUsesTime(m: Message, reg: Registry, current: string)
    decreases m, 1
  {
    (exists f :: f in m.fields && FieldUsesTime(f, reg, current)) || NestedUsesTime(m.nested, reg, current)
  }

  predicate NestedUsesTime(ns: seq<Message>, reg: Registry, current: string)
    decreases ns, 0
  {
    if ns == [] then false
    else
      var last := ns[|ns| - 1];
      NestedUsesTime(ns[..|ns| - 1], reg, current) || (!last.mapEntry && MessageUsesTime(last, reg, current))
  }

  predicate TopUsesTime(ms: seq<Message>, reg: Registry, current: string) {
    exists m :: m in ms && MessageUsesTime(m, reg, current)
  }

  function RenderModule(fd: File, reg: Registry): Option<PyModule> {
    var current := ModuleName(fd.name);
    match RenderTop(fd.messages, reg, current)
    case None => None
    case Some(cs) => Some(PyModule(TopDeps(fd.messages, reg, current), EnumClasses(fd.enums) + cs, TopUsesTime(fd.messages, reg, current)))
  }

  // ----- checkFile -----

  datatype Unresolved = Unresolved(message: string, field: string, typeName: string)

  predicate FieldResolves(f: Field, reg: Registry) {
    f.typ.TMessage? || f.typ.TEnum? ==>
      f.typeName in reg.entries || f.typeName in reg.byFQ || WellKnown(f.typeName)
  }

  function CheckFields(fs: seq<Field>, fq: string, reg: Registry): Option<Unresolved> {
    if fs == [] then None
    else if !FieldResolves(fs[0], reg) then Some(Unresolved(fq, fs[0].name, fs[0].typeName))
    else CheckFields(fs[1..], fq, reg)
  }

  function CheckMessage(m: Message, pkg: string, reg: Registry): Option<Unresolved>
    decreases m, 1
  {
    var fq := FqJoin(pkg, m.name);
    var e := CheckFields(m.fields, fq, reg);
    if e.Some? then e else CheckNested(m.nested, fq, reg)
  }

  function CheckNested(ns: seq<Message>, fq: string, reg: Registry): Option<Unresolved>
    decreases ns, 0
  {
    if ns == [] then None
    else
      var last, e := ns[|ns| - 1], CheckNested(ns[..|ns| - 1], fq, reg);
      if e.Some? || last.mapEntry then e else CheckMessage(last, fq, reg)
  }

  function CheckTop(ms: seq<Message>, pkg: string, reg: Registry): Option<Unresolved> {
    if ms == [] then None
    else
      var e := CheckTop(ms[..|ms| - 1], pkg, reg);
      if e.Some? then e else CheckMessage(ms[|ms| - 1], pkg, reg)
  }

  function CheckFile(fd: File, reg: Registry): Option<Unresolved> {
    CheckTop(fd.messages, fd.pkg, reg)
  }
}
