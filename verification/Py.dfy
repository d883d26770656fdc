/** The Python the generator emits: values, the statements and expressions of
    the generated codec, and what running them means. */
module Py {
  import opened Wrappers
  import Decimal
  import Base64
  import Duration

  // ----- values -----

  /** A float with the cases the wire spells specially; -0.0 is kept apart from
      0.0, which it compares equal to. */
  datatype Float = Finite(r: real) | NegZero | Infinite(negative: bool) | NaN

  /** No zone, UTC itself, or an offset from it in microseconds. */
  datatype Zone = Naive | Utc | Offset(micros: int)

  /** A class by its module and its dotted path in it. */
  datatype ClassId = ClassId(mod: string, path: seq<string>)

  /** A dictionary key, as proto maps have them. */
  datatype MapKey = Str(s: string) | Int(n: int) | Bool(b: bool)

  datatype Val =
    | VNone
    | VStr(s: string)
    | VBool(b: bool)
    | VInt(n: int)
    | VFloat(f: Float)
    | VBytes(bs: seq<Base64.Byte>)
    | VTime(local: int, zone: Zone)    // a datetime by its local reading; a naive one is read as UTC
    | VStamp(at: int)                  // the RFC 3339 UTC text of that instant
    | VDelta(micros: int)              // a timedelta
    | VList(xs: seq<Val>)
    | VDict(m: map<MapKey, Val>)
    | VObj(cls: ClassId, attrs: map<string, Val>)
    | VOpaque                          // a function or a class, where data was meant

  /** Python's == between a plain field and its default. */
  predicate PyEq(a: Val, b: Val) {
    a == b || (a == VFloat(NegZero) && b == VFloat(Finite(0.0)))
  }

  // ----- the generated helper functions -----

  datatype Helper = StrOf | FloatOut | B64Out | TsOut | DurOut | IntIn | FloatIn | B64In | TsIn | DurIn

  // datetime counts microseconds from year 1 to year 9999.
  const MIN_INSTANT: int := -62135596800000000
  const MAX_INSTANT: int := 253402300799999999

  predicate InstantInRange(at: int) {
    MIN_INSTANT <= at <= MAX_INSTANT
  }

  /** The reading in UTC of a local reading. */
  function Instant(local: int, zone: Zone): int {
    if zone.Offset? then local - zone.micros else local
  }

  function Truncate(r: real): int {
    if r < 0.0 then -((-r).Floor) else r.Floor
  }

  function IntInOf(v: Val): Outcome<Val> {
    match v
    case VBool(b) => Ok(VInt(if b then 1 else 0))
    case VInt(_) => Ok(v)
    case VFloat(Finite(r)) => Ok(VInt(Truncate(r)))
    case VFloat(NegZero) => Ok(VInt(0))
    case VFloat(Infinite(_)) => Raise(OverflowError)
    case VFloat(NaN) => Raise(ValueError)
    case VStr(s) =>
      if |s| <= 640 && Decimal.ParseInt(s).Some? then Ok(VInt(Decimal.ParseInt(s).value)) else Raise(UnmodelledText)
    case _ => Raise(TypeError)
  }

  function FloatOutOf(v: Val): Outcome<Val> {
    match v
    case VFloat(NaN) => Ok(VStr("NaN"))
    case VFloat(Infinite(negative)) => Ok(VStr(if negative then "-Infinity" else "Infinity"))
    case VFloat(_) => Ok(v)
    case VInt(_) => Ok(v)
    case VBool(_) => Ok(v)
    case _ => Raise(TypeError)
  }

  function FloatInOf(v: Val): Outcome<Val> {
    match v
    case VFloat(_) => Ok(v)
    case VInt(n) => Ok(VFloat(Finite(n as real)))
    case VStr(s) =>
      if s == "NaN" then Ok(VFloat(NaN))
      else if s == "Infinity" then Ok(VFloat(Infinite(false)))
      else if s == "-Infinity" then Ok(VFloat(Infinite(true)))
      else Raise(UnmodelledText)
    case _ => Raise(TypeError)
  }

  /** The time helpers are part of a module only when its fields need them. */
  predicate IsTimeHelper(fn: Helper) {
    fn.TsOut? || fn.DurOut? || fn.TsIn? || fn.DurIn?
  }

  ghost function Apply(fn: Helper, v: Val): Outcome<Val> {
    match fn
    case StrOf => if v.VInt? then Ok(VStr(Decimal.IntText(v.n))) else Raise(UnmodelledText)
    case FloatOut => FloatOutOf(v)
    case B64Out => if v.VBytes? then Ok(VStr(Base64.Encode(v.bs))) else Raise(TypeError)
    case TsOut =>
      if !v.VTime? then Raise(AttributeError)
      else if InstantInRange(Instant(v.local, v.zone)) then Ok(VStamp(Instant(v.local, v.zone)))
      else Raise(OverflowError)
    case DurOut => if v.VDelta? then Ok(VStr(Duration.DurOut(v.micros))) else Raise(TypeError)
    case IntIn => IntInOf(v)
    case FloatIn => FloatInOf(v)
    case B64In =>
      if !v.VStr? then Raise(TypeError) else
      var bs :- Base64.B64In(v.s);
      Ok(VBytes(bs))
    case TsIn =>
      if v.VStamp? then Ok(VTime(v.at, Utc))
      else if v.VStr? then Raise(UnmodelledText)
      else Raise(ValueError)
    case DurIn =>
      if !v.VStr? then Raise(ValueError) else
      var d :- Duration.DurIn(Decimal.Interpreter(), v.s);
      Ok(VDelta(d))
  }

  // ----- the generated code -----

  /** An expression over one name: `name`, `helper(name)`, `name.to_dict()`,
      `ref.from_dict(name)`, `[elem(x) for x in name]` and
      `{k: value(v) for k, v in name.items()}`. */
  datatype Expr =
    | Name
    | Call(fn: Helper)
    | ToDict
    | FromDict(ref: seq<string>)
    | ListComp(elem: Expr)
    | DictComp(value: Expr)

  /** The condition of an emitting `if`: `self.a`, `self.a is not None`,
      `self.a != default`. */
  datatype Test = Truthy | IsNotNone | Differs(default: Val)

  /** A statement of to_dict. `Emit` is `if test(self.attr): out[wire] =
      expr(self.attr)`; `OneofCheck` counts, in `[x for x in (self.a, self.b) if x
      is not None]`, the arms that are set and raises when there are two. */
  datatype Stmt =
    | Emit(test: Test, attr: string, wire: string, expr: Expr)
    | OneofCheck(arms: seq<string>)

  /** A statement of from_dict: `_v = _d.get(wire)`, then `if _v is not None:
      obj.attr = expr(_v)`. */
  datatype Load = Load(wire: string, attr: string, expr: Expr)

  /** What a field of a dataclass is assigned in the class body: a constant, or
      `dataclasses.field(default_factory=factory)`. */
  datatype Rhs = Constant(v: Val) | Factory(factory: string)

  datatype FieldDef = FieldDef(attr: string, rhs: Rhs)

  /** A dataclass: its fields, to_dict, from_dict and the nested classes, in this
      order. */
  datatype PyClass =
    | Dataclass(name: string, fields: seq<FieldDef>, toDict: seq<Stmt>, fromDict: seq<Load>, inner: seq<PyClass>)
    | EnumClass(name: string)

  datatype PyModule = PyModule(imports: set<string>, classes: seq<PyClass>, time: bool)

  type Program = map<string, PyModule>

  // ----- running a class body -----

  /** What a name in a class body means: data, the result of dataclasses.field, a
      generated method, a nested class, or what the name means outside the class. */
  datatype Bound = Data(v: Val) | AField(factory: Bound) | Method | Nested | Outer

  /** The names a class body has assigned so far. */
  type Namespace = map<string, Bound>

  /** A name used in a class body: what the body assigned it, or else the module
      `dataclasses`, or the built-in `list`, `dict` or `classmethod`. No generated
      module hides these, as its classes start with a capital letter. */
  function Look(ns: Namespace, name: string): Bound {
    if name in ns then ns[name] else Outer
  }

  /** The field assignments. Where the body has assigned the name `dataclasses`,
      no later `dataclasses.field` finds it. */
  function FieldNames(fields: seq<FieldDef>): Outcome<Namespace> {
    if fields == [] then Ok(map[]) else
    var last := fields[|fields| - 1];
    var ns :- FieldNames(fields[..|fields| - 1]);
    match last.rhs
    case Constant(v) => Ok(ns[last.attr := Data(v)])
    case Factory(factory) =>
      if Look(ns, "dataclasses") == Outer then Ok(ns[last.attr := AField(Look(ns, factory))]) else Raise(AttributeError)
  }

  function WithMethods(ns: Namespace): Namespace {
    ns["to_dict" := Method]["from_dict" := Method]
  }

  /** The whole body, nested classes included; from_dict is decorated with
      `classmethod`, each nested message with `dataclasses.dataclass`. Where a
      nested class is called `dataclasses`, what decorates is that class's: Hidden,
      whether Python then raises or binds something that is no class. */
  function BodyNames(c: PyClass): Outcome<Namespace>
    decreases c, 1
  {
    match c
    case EnumClass(_) => Ok(map[])
    case Dataclass(_, fields, _, _, inner) =>
      var ns :- FieldNames(fields);
      if Look(ns["to_dict" := Method], "classmethod") != Outer then Raise(TypeError)
      else InnerNames(WithMethods(ns), inner)
  }

  function InnerNames(ns: Namespace, inner: seq<PyClass>): Outcome<Namespace>
    decreases inner, 0
  {
    if inner == [] then Ok(ns) else
    var last := inner[|inner| - 1];
    var before :- InnerNames(ns, inner[..|inner| - 1]);
    if last.Dataclass? && Look(before, "dataclasses") == Nested then Raise(Hidden)
    else if last.Dataclass? && Look(before, "dataclasses") != Outer then Raise(AttributeError)
    else
      var body :- BodyNames(last);
      Ok(before[last.name := Nested])
  }

  /** The value a fresh object holds for an attribute. A factory that is not a
      built-in is data and cannot be called. */
  function Fresh(ns: Namespace, d: FieldDef): Outcome<Val> {
    match Look(ns, d.attr)
    case Data(v) => Ok(v)
    case AField(factory) =>
      if factory != Outer || !d.rhs.Factory? then Raise(TypeError)
      else Ok(if d.rhs.factory == "list" then VList([]) else VDict(map[]))
    case _ => Ok(VOpaque)
  }

  /** `cls()`. */
  function Construct(fields: seq<FieldDef>, ns: Namespace): Outcome<map<string, Val>> {
    if fields == [] then Ok(map[]) else
    var last := fields[|fields| - 1];
    var before :- Construct(fields[..|fields| - 1], ns);
    var v :- Fresh(ns, last);
    Ok(before[last.attr := v])
  }

  // ----- loading a program -----

  const KEYWORDS: set<string> := {
    "False", "None", "True", "and", "as", "assert", "async", "await", "break", "class", "continue", "def", "del",
    "elif", "else", "except", "finally", "for", "from", "global", "if", "import", "in", "is", "lambda", "nonlocal",
    "not", "or", "pass", "raise", "return", "try", "while", "with", "yield"}

  predicate IsLetter(c: char) {
    'a' <= c <= 'z' || 'A' <= c <= 'Z'
  }

  /** An ASCII identifier. */
  predicate IsIdentifier(s: string) {
    && s != "" && (IsLetter(s[0]) || s[0] == '_')
    && forall i :: 0 <= i < |s| ==> IsLetter(s[i]) || '0' <= s[i] <= '9' || s[i] == '_'
  }

  /** Which characters begin an identifier, which may follow, and the normal form
      NFKC in which an interpreter looks a name up. */
  datatype Letters = Letters(first: char -> bool, later: char -> bool, nfkc: string -> string)

  predicate IsAscii(s: string) {
    forall i :: 0 <= i < |s| ==> s[i] as int < 128
  }

  /** The Unicode version may vary; ASCII does not. */
  ghost predicate SaneLetters(py: Letters) {
    && (forall c :: c as int < 128 ==> (py.first(c) <==> IsLetter(c) || c == '_'))
    && (forall c :: c as int < 128 ==> (py.later(c) <==> IsLetter(c) || '0' <= c <= '9' || c == '_'))
    && (forall s :: IsAscii(s) ==> py.nfkc(s) == s)
  }

  /** The letters of an arbitrary interpreter. */
  ghost function Alphabet(): (py: Letters)
    ensures SaneLetters(py)
  {
    var ascii := Letters(c => IsLetter(c) || c == '_', c => IsLetter(c) || '0' <= c <= '9' || c == '_', s => s);
    assert SaneLetters(ascii);
    var py :| SaneLetters(py);
    py
  }

  /** A module that an import statement can name: its name is an identifier, and
      the one that Python looks up. */
  ghost predicate Nameable(mod: string) {
    var py := Alphabet();
    && mod != "" && py.first(mod[0]) && py.nfkc(mod) == mod
    && forall i :: 0 <= i < |mod| ==> py.later(mod[i])
  }

  /** For names in ASCII there is nothing to the interpreter's letters. */
  lemma AsciiNameable(mod: string)
    requires IsAscii(mod)
    ensures Nameable(mod) <==> IsIdentifier(mod)
  {
  }

  /** A name with an ASCII character in it that identifiers cannot have. */
  lemma NotNameable(mod: string, i: nat)
    requires i < |mod| && mod[i] as int < 128 && !IsLetter(mod[i]) && !('0' <= mod[i] <= '9') && mod[i] != '_'
    ensures !Nameable(mod)
  {
    assert !Alphabet().later(mod[i]);
  }

  /** A name that can be assigned. */
  predicate IsName(s: string) {
    IsIdentifier(s) && s !in KEYWORDS
  }

  /** The class statements are well-formed Python. */
  predicate Parses(cs: seq<PyClass>)
    decreases cs
  {
    forall c :: c in cs ==>
      && IsName(c.name)
      && (c.Dataclass? ==> (forall d :: d in c.fields ==> IsName(d.attr)) && Parses(c.inner))
  }

  /** The module can be imported: an import statement can name it, its text
      parses, the siblings it imports exist, and its class bodies run. */
  ghost predicate ModuleLoads(p: Program, mod: string)
    requires mod in p
  {
    && Nameable(mod)
    && (forall d :: d in p[mod].imports ==> Nameable(d) && d in p)
    && Parses(p[mod].classes)
    && forall c :: c in p[mod].classes ==> BodyNames(c).Ok?
  }

  ghost predicate Importable(p: Program) {
    forall mod :: mod in p ==> ModuleLoads(p, mod)
  }

  // ----- name resolution -----

  /** The class a name is bound to after the class bodies ran in order: the last
      definition wins. */
  function Named(classes: seq<PyClass>, name: string): Option<PyClass> {
    if classes == [] then None
    else
      var later := Named(classes[1..], name);
      if later.Some? then later
      else if classes[0].name == name then Some(classes[0])
      else None
  }

  function AtPath(classes: seq<PyClass>, path: seq<string>): Option<PyClass>
    decreases |path|
  {
    if path == [] then None
    else
      match Named(classes, path[0])
      case None => None
      case Some(c) =>
        if |path| == 1 then Some(c)
        else if c.Dataclass? then AtPath(c.inner, path[1..])
        else None
  }

  function ClassOf(p: Program, id: ClassId): Option<PyClass> {
    if id.mod in p then AtPath(p[id.mod].classes, id.path) else None
  }

  /** The names local to a generated from_dict, which hide module globals. */
  const LOCALS: set<string> := {"cls", "_d", "obj", "_v", "x", "k", "v"}

  /** What a dotted name means inside a method of module `current`: a class of
      that module, or of a module it imports. */
  function Resolve(p: Program, current: string, ref: seq<string>): Option<ClassId> {
    if current !in p || ref == [] || ref[0] in LOCALS then None
    else if Named(p[current].classes, ref[0]).Some? then Some(ClassId(current, ref))
    else if ref[0] in p[current].imports then Some(ClassId(ref[0], ref[1..]))
    else None
  }

  // ----- running the generated code -----

  predicate Holds(t: Test, v: Val) {
    match t
    case Truthy => (v.VList? && v.xs != []) || (v.VDict? && v.m != map[])
    case IsNotNone => v != VNone
    case Differs(d) => !PyEq(v, d)
  }

  /** How many of the arms are not None, as `len([x for x in (...) if x is not
      None])`. */
  function SetArms(attrs: map<string, Val>, arms: seq<string>): nat
    requires forall a :: a in arms ==> a in attrs
  {
    if arms == [] then 0
    else (if attrs[arms[0]] != VNone then 1 else 0) + SetArms(attrs, arms[1..])
  }

  /** How many elements a oneof arm yields when it is iterated: none of text's or
      bytes' is None, and no other arm value can be. */
  function Elements(v: Val): Option<nat> {
    match v
    case VStr(s) => Some(|s|)
    case VBytes(bs) => Some(|bs|)
    case _ => None
  }

  /** What a oneof check counts. A single arm is not a tuple in Python, `(self.a)`
      being self.a, so that its value is iterated instead. */
  function ArmCount(attrs: map<string, Val>, arms: seq<string>): Outcome<nat>
    requires forall a :: a in arms ==> a in attrs
  {
    if |arms| == 1 then
      match Elements(attrs[arms[0]])
      case Some(n) => Ok(n)
      case None => Raise(TypeError)
    else Ok(SetArms(attrs, arms))
  }

  /** A class of the module is called ValueError: raising that name raises
      TypeError, the class not being an exception. */
  predicate HidesErrors(p: Program, current: string) {
    current in p && Named(p[current].classes, "ValueError").Some?
  }

  function ErrorOf(p: Program, current: string): PyError {
    if HidesErrors(p, current) then TypeError else ValueError
  }

  predicate HasTime(p: Program, current: string) {
    current in p && p[current].time
  }

  /** A call of a generated helper, or of str. */
  ghost function Invoke(p: Program, current: string, fn: Helper, v: Val): Outcome<Val> {
    if IsTimeHelper(fn) && !HasTime(p, current) then Raise(NameError)
    else
      var r := Apply(fn, v);
      if r == Raise(ValueError) && !fn.IntIn? then Raise(ErrorOf(p, current)) else r
  }

  ghost function Eval(p: Program, current: string, e: Expr, v: Val): Outcome<Val>
    decreases v, 2, 0
  {
    match e
    case Name => Ok(v)
    case Call(fn) => Invoke(p, current, fn, v)
    case ToDict => RunToDict(p, v)
    case FromDict(ref) =>
      (match Resolve(p, current, ref)
       case None => Raise(NameError)
       case Some(id) => RunFromDict(p, id, v))
    case ListComp(elem) =>
      if !v.VList? then Raise(TypeError) else
      var ys :- EvalAll(p, current, elem, v.xs);
      Ok(VList(ys))
    case DictComp(value) =>
      if !v.VDict? then Raise(AttributeError) else
      var ws :- EvalEach(p, current, value, v);
      Ok(VDict(ws))
  }

  /** The values of a dict, in any order; the first to raise decides. */
  ghost function EvalEach(p: Program, current: string, e: Expr, d: Val): (r: Outcome<map<MapKey, Val>>)
    requires d.VDict?
    ensures r.Ok? ==> r.value.Keys == d.m.Keys && forall k :: k in d.m ==> Eval(p, current, e, d.m[k]) == Ok(r.value[k])
    ensures r.Raise? ==> exists k :: k in d.m && Eval(p, current, e, d.m[k]) == Raise(r.error)
    decreases d, 1, 0
  {
    if forall k :: k in d.m ==> Eval(p, current, e, d.m[k]).Ok?
    then Ok(map k | k in d.m :: Eval(p, current, e, d.m[k]).value)
    else
      var k :| k in d.m && Eval(p, current, e, d.m[k]).Raise?;
      Raise(Eval(p, current, e, d.m[k]).error)
  }

  ghost function EvalAll(p: Program, current: string, e: Expr, xs: seq<Val>): Outcome<seq<Val>>
    decreases xs, 3, 0
  {
    if xs == [] then Ok([]) else
    var y :- Eval(p, current, e, xs[0]);
    var ys :- EvalAll(p, current, e, xs[1..]);
    Ok([y] + ys)
  }

  /** The names of the generated methods. */
  const METHODS: set<string> := {"to_dict", "from_dict"}

  /** `v.to_dict()`: an attribute or a nested class of that name hides the
      generated method. */
  ghost function RunToDict(p: Program, v: Val): Outcome<Val>
    decreases v, 1, 0
  {
    if !v.VObj? then Raise(AttributeError) else
    match ClassOf(p, v.cls)
    case Some(Dataclass(name, fields, stmts, loads, inner)) =>
      var ns :- BodyNames(Dataclass(name, fields, stmts, loads, inner));
      if "to_dict" in v.attrs || Look(ns, "to_dict") != Method then Raise(Hidden) else
      var out :- RunStmts(p, v.cls.mod, stmts, v, map[]);
      Ok(VDict(out))
    case _ => Raise(AttributeError)
  }

  ghost function RunStmts(p: Program, current: string, stmts: seq<Stmt>, self: Val, out: map<MapKey, Val>)
    : Outcome<map<MapKey, Val>>
    requires self.VObj?
    decreases self, 0, |stmts|
  {
    if stmts == [] then Ok(out) else
    match stmts[0]
    case Emit(test, attr, wire, expr) =>
      if attr !in self.attrs then Raise(AttributeError)
      else if !Holds(test, self.attrs[attr]) then RunStmts(p, current, stmts[1..], self, out)
      else
        var w :- Eval(p, current, expr, self.attrs[attr]);
        RunStmts(p, current, stmts[1..], self, out[Str(wire) := w])
    case OneofCheck(arms) =>
      if exists a :: a in arms && a !in self.attrs then Raise(AttributeError)
      else
        var n :- ArmCount(self.attrs, arms);
        if n > 1 then Raise(ErrorOf(p, current)) else RunStmts(p, current, stmts[1..], self, out)
  }

  /** `id.from_dict(d)`: the class is called first, then d is read. */
  ghost function RunFromDict(p: Program, id: ClassId, d: Val): Outcome<Val>
    decreases d, 1, 0
  {
    match ClassOf(p, id)
    case Some(Dataclass(name, fields, stmts, loads, inner)) =>
      var ns :- BodyNames(Dataclass(name, fields, stmts, loads, inner));
      if Look(ns, "from_dict") != Method then Raise(Hidden) else
      var made :- Construct(fields, ns);
      if loads == [] then Ok(VObj(id, made))
      else if !d.VDict? then Raise(AttributeError)
      else
        var attrs :- RunLoads(p, id.mod, loads, d, made);
        Ok(VObj(id, attrs))
    case _ => Raise(AttributeError)
  }

  ghost function RunLoads(p: Program, current: string, loads: seq<Load>, d: Val, attrs: map<string, Val>)
    : Outcome<map<string, Val>>
    requires d.VDict?
    decreases d, 0, |loads|
  {
    if loads == [] then Ok(attrs) else
    var l := loads[0];
    if Str(l.wire) !in d.m || d.m[Str(l.wire)] == VNone then RunLoads(p, current, loads[1..], d, attrs)
    else
      var x :- Eval(p, current, l.expr, d.m[Str(l.wire)]);
      RunLoads(p, current, loads[1..], d, attrs[l.attr := x])
  }
}
