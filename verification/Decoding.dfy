/** What from_dict takes besides to_dict's own output: other spellings of numbers,
    missing, null and unknown keys. */
module Decoding {
  import opened Wrappers
  import opened Proto
  import opened Registry
  import opened Py
  import opened Render
  import opened Schema
  import opened ObjectCodec
  import opened RoundTrip
  import opened Generator
  import opened Exactness
  import Decimal

  // ----- numbers -----

  /** k is r without its fraction. */
  predicate TowardZero(r: real, k: int) {
    if r >= 0.0 then k as real <= r < k as real + 1.0 else k as real - 1.0 < r <= k as real
  }

  /** The wire value v is read as the integer k: a number, its decimal text, a
      float without its fraction, or a bool. */
  ghost predicate ReadsInt(v: Val, k: int) {
    match v
    case VInt(n) => k == n
    case VBool(b) => k == if b then 1 else 0
    case VFloat(Finite(r)) => TowardZero(r, k)
    case VFloat(NegZero) => k == 0
    case VStr(s) => |s| <= 640 && exists sign, d :: Decimal.SpellsInt(s, sign, d, k)
    case _ => false
  }

  lemma TruncateIs(r: real, k: int)
    ensures Truncate(r) == k <==> TowardZero(r, k)
  {
  }

  /** `_int_in`, on numbers and texts alike. */
  lemma IntInExact(v: Val, k: int)
    ensures Apply(IntIn, v) == Ok(VInt(k)) <==> ReadsInt(v, k)
    ensures Apply(IntIn, v).Ok? ==> Apply(IntIn, v).value.VInt?
    ensures v == VFloat(NaN) ==> Apply(IntIn, v) == Raise(ValueError)
    ensures v.VFloat? && v.f.Infinite? ==> Apply(IntIn, v) == Raise(OverflowError)
    ensures !v.VInt? && !v.VBool? && !v.VFloat? && !v.VStr? ==> Apply(IntIn, v) == Raise(TypeError)
  {
    match v
    case VStr(s) => Decimal.ParseIntExact(s, k);
    case VFloat(Finite(r)) => TruncateIs(r, k);
    case _ =>
  }

  /** `_float_in`: integers are numbers too, but bools are not. */
  lemma FloatInExact(v: Val, f: Float)
    ensures Apply(FloatIn, v) == Ok(VFloat(f)) <==>
              || v == VFloat(f)
              || (v.VInt? && f == Finite(v.n as real))
              || (v == VStr("NaN") && f == NaN)
              || (v == VStr("Infinity") && f == Infinite(false))
              || (v == VStr("-Infinity") && f == Infinite(true))
    ensures Apply(FloatIn, v).Ok? ==> Apply(FloatIn, v).value.VFloat?
    ensures !v.VInt? && !v.VFloat? && !v.VStr? ==> Apply(FloatIn, v) == Raise(TypeError)
  {
  }

  // ----- missing, null and unknown keys -----

  /** `d.get(key)`. */
  function Get(d: Val, key: string): Val
    requires d.VDict?
  {
    if Str(key) in d.m then d.m[Str(key)] else VNone
  }

  lemma {:induction false} LoadsAgree(p: Program, current: string, loads: seq<Load>, d: Val, d': Val, attrs: map<string, Val>)
    requires d.VDict? && d'.VDict? && forall l :: l in loads ==> Get(d, l.wire) == Get(d', l.wire)
    ensures RunLoads(p, current, loads, d, attrs) == RunLoads(p, current, loads, d', attrs)
    decreases |loads|
  {
    if loads != [] {
      var l, w := loads[0], Get(d, loads[0].wire);
      assert Get(d', l.wire) == w;
      if w == VNone {
        LoadsAgree(p, current, loads[1..], d, d', attrs);
      } else {
        var x := Eval(p, current, l.expr, w);
        if x.Ok? {
          LoadsAgree(p, current, loads[1..], d, d', attrs[l.attr := x.value]);
        }
      }
    }
  }

  /** from_dict reads the JSON names of the message's fields and nothing else, and
      takes null for a missing key. */
  lemma OnlyFieldsRead(files: seq<File>, wanted: seq<string>, p: Program, id: ClassId, d: Val, d': Val)
    requires GeneratedFrom(files, wanted, p) && Closed(files, wanted) && id in TableOf(files, wanted) && d.VDict? && d'.VDict?
    requires forall i :: 0 <= i < |TableOf(files, wanted)[id].fields| ==>
               Get(d, TableOf(files, wanted)[id].fields[i].jsonName) == Get(d', TableOf(files, wanted)[id].fields[i].jsonName)
    ensures RunFromDict(p, id, d) == RunFromDict(p, id, d')
  {
    var reg, t := RegistryOf(files), TableOf(files, wanted);
    GeneratedLinks(files, wanted, p);
    var gs := FieldsOf(p, reg, t, id);
    var c := ClassOf(p, id).value;
    forall l | l in c.fromDict ensures Get(d, l.wire) == Get(d', l.wire) {
      var i :| 0 <= i < |gs| && LoadsOf(gs)[i] == l;
      assert l.wire == t[id].fields[i].jsonName;
    }
    BodyAgrees(p, id, c, d, d');
  }

  lemma BodyAgrees(p: Program, id: ClassId, c: PyClass, d: Val, d': Val)
    requires ClassOf(p, id) == Some(c) && c.Dataclass? && d.VDict? && d'.VDict?
    requires forall l :: l in c.fromDict ==> Get(d, l.wire) == Get(d', l.wire)
    ensures RunFromDict(p, id, d) == RunFromDict(p, id, d')
  {
    if BodyNames(c).Ok? && Construct(c.fields, BodyNames(c).value).Ok? {
      LoadsAgree(p, id.mod, c.fromDict, d, d', Construct(c.fields, BodyNames(c).value).value);
    }
  }

  /** What a field holds when nothing set it. */
  function Unset(f: Field, reg: Registry): Val {
    if IsMap(f, reg) then VDict(map[])
    else if f.repeated then VList([])
    else if TracksPresence(f) then VNone
    else Zero(f, reg)
  }

  lemma DefaultIsUnset(m: Message, reg: Registry, current: string, f: Field, g: GenField)
    requires Rendered(m, f, reg, current, g)
    ensures FieldDefault(g) == Unset(f, reg)
  {
    if IsMap(f, reg) {
      MapKind(m, f, reg, current, g);
    } else if f.repeated {
      ListKind(m, f, reg, current, g);
    } else {
      SingleKind(m, f, reg, current, g);
      if !TracksPresence(f) {
        PlainKind(m, f, reg, current, g);
      }
    }
  }

  /** v is the object of m's class with every field unset. */
  ghost predicate AllUnset(m: Message, reg: Registry, v: Val) {
    && v.VObj? && v.attrs.Keys == (set i | 0 <= i < |m.fields| :: PyAttr(m.fields[i].name))
    && forall i :: 0 <= i < |m.fields| ==> v.attrs[PyAttr(m.fields[i].name)] == Unset(m.fields[i], reg)
  }

  /** An empty object decodes to one with every field unset, and so does one that
      has only nulls and unknown keys. */
  lemma EmptyDecodes(files: seq<File>, wanted: seq<string>, p: Program, id: ClassId, d: Val) returns (v: Val)
    requires GeneratedFrom(files, wanted, p) && Safe(files, wanted) && id in TableOf(files, wanted) && d.VDict?
    requires forall i :: 0 <= i < |TableOf(files, wanted)[id].fields| ==>
               Get(d, TableOf(files, wanted)[id].fields[i].jsonName) == VNone
    ensures RunFromDict(p, id, d) == Ok(v) && v.VObj? && v.cls == id
    ensures AllUnset(TableOf(files, wanted)[id], RegistryOf(files), v)
  {
    var reg, t := RegistryOf(files), TableOf(files, wanted);
    GeneratedLinks(files, wanted, p);
    ProgramRuns(files, wanted, p);
    assert ClassRuns(p, reg, id, t[id]);
    var gs := FieldsOf(p, reg, t, id);
    var c := ClassOf(p, id).value;
    v := DefaultObject(id, gs);
    DefaultsUnset(t[id], reg, id, gs);
    OnlyFieldsRead(files, wanted, p, id, d, VDict(map[]));
    EmptyLoads(p, id.mod, c.fromDict, DefaultsOf(gs));
    EmptyBody(p, id, c, gs);
  }

  lemma DefaultsUnset(m: Message, reg: Registry, id: ClassId, gs: seq<GenField>)
    requires AllRendered(m, reg, id.mod, gs)
    ensures AllUnset(m, reg, DefaultObject(id, gs))
  {
    DefaultKeys(m, reg, id.mod, gs);
    forall i | 0 <= i < |m.fields| ensures DefaultsOf(gs)[PyAttr(m.fields[i].name)] == Unset(m.fields[i], reg) {
      DefaultStored(m, reg, id.mod, gs, i);
      DefaultIsUnset(m, reg, id.mod, m.fields[i], gs[i]);
    }
  }

  lemma EmptyBody(p: Program, id: ClassId, c: PyClass, gs: seq<GenField>)
    requires ClassOf(p, id) == Some(c) && BodyMeans(c, gs)
    requires RunLoads(p, id.mod, c.fromDict, VDict(map[]), DefaultsOf(gs)) == Ok(DefaultsOf(gs))
    ensures RunFromDict(p, id, VDict(map[])) == Ok(DefaultObject(id, gs))
  {
  }
}
