/** A map keyed by numbers, taken through JSON text: the keys come back as
    strings. */
module Tally {
  import opened Wrappers
  import Decimal
  import opened Proto
  import opened Registry
  import opened Py
  import opened Render
  import opened Schema
  import opened Json
  import opened Generator
  import opened SingleFile

  const KEY := Field("key", "key", 1, TInt32, "", false, None, false)
  const VALUE := Field("value", "value", 2, TString, "", false, None, false)
  const ENTRY := Message("CountsEntry", [KEY, VALUE], [], [], [], true)
  const COUNTS := Field("counts", "counts", 1, TMessage, ".p.Tally.CountsEntry", true, None, false)
  const TALLY := Message("Tally", [COUNTS], [ENTRY], [], [], false)
  const FILE := File("tally.proto", "p", [TALLY], [])

  function Id(): ClassId {
    ClassId(ModuleName("tally.proto"), ["Tally"])
  }

  /** Tally({key: text}). */
  function Counts(key: MapKey, text: string): Val {
    VObj(Id(), map["counts" := VDict(map[key := VStr(text)])])
  }

  // ----- the schema -----

  /** What the lemmas below need of the registry. */
  ghost predicate Knows(reg: Registry) {
    reg.entries == map[".p.Tally.CountsEntry" := Some(VALUE)]
  }

  lemma OneFile()
    ensures Single(FILE, TALLY) && FqJoin("p", "Tally") == ".p.Tally"
  {
    assert Children([ENTRY][..0]) == [];
    assert !WellKnownFile("tally.proto");
  }

  lemma EntryIs()
    ensures EntryValue(ENTRY.fields) == Some(VALUE) && ".p.Tally" + "." + "CountsEntry" == ".p.Tally.CountsEntry"
  {
    assert EntryValue([KEY, VALUE]) == Some(VALUE);
  }

  lemma RegistryIs()
    ensures Knows(RegistryOf([FILE])) && RegistryOf([FILE]).enumZero == map[]
  {
    OneFile();
    EntryIs();
    KeyedRegistry(FILE, TALLY, ENTRY);
  }

  lemma Identifiers()
    ensures IsIdent("counts") && IsIdent("Tally")
  {
  }

  lemma Attribute()
    ensures AttrAt(TALLY, 0) == "counts"
  {
    assert "counts" !in RESERVED;
  }

  lemma Names()
    ensures IsIdent("counts") && IsIdent("Tally") && AttrAt(TALLY, 0) == "counts"
  {
    Identifiers();
    Attribute();
  }

  lemma FileIsPlain()
    ensures PlainName(FILE.name)
  {
    assert PlainName("tally.proto");
  }

  lemma FieldIsGood(reg: Registry)
    requires Knows(reg)
    ensures IsMap(COUNTS, reg) && GoodField(TALLY, COUNTS, reg)
  {
    Names();
  }

  lemma OneFieldGood(reg: Registry)
    requires Knows(reg)
    ensures GoodMessage(TALLY, reg)
  {
    FieldIsGood(reg);
    assert forall i :: 0 <= i < |TALLY.fields| ==> TALLY.fields[i] == COUNTS;
  }

  lemma NoInner()
    ensures Scope(TALLY) == []
  {
    OneFile();
    NoScope(TALLY);
  }

  lemma MessageIsGood(reg: Registry)
    requires Knows(reg) && reg.enumZero == map[]
    ensures GoodDeclared(reg, TALLY)
  {
    NoInner();
    OneFieldGood(reg);
  }

  lemma MessageIsSafe(reg: Registry)
    requires Knows(reg)
    ensures SafeMessage(reg, FILE, TALLY)
  {
    OneFile();
    NoScope(TALLY);
    Names();
  }

  lemma ClassIsNamed()
    ensures ClassName([FILE], TALLY.name) && PlainName(FILE.name)
  {
    Identifiers();
    assert "Tally"[4] == 'y';
    NoModule(FILE, "Tally");
    FileIsPlain();
  }

  lemma FileIsGood()
    ensures WellFormed([FILE], [FILE.name])
  {
    RegistryIs();
    MessageIsGood(RegistryOf([FILE]));
    ClassIsNamed();
    OneFile();
    SingleGood(FILE, TALLY);
  }

  lemma ModuleIsNamed()
    ensures Nameable(ModuleName(FILE.name))
  {
    assert IsIdentifier("tally");
    assert "tally.proto" == "tally" + ".proto";
    IdentifierModule("tally");
  }

  lemma FileIsSafe()
    ensures Safe([FILE], [FILE.name])
  {
    ClassIsUnbroken();
    OneFile();
    SingleSafe(FILE, TALLY);
  }

  lemma ClassIsUnbroken()
    ensures Unbroken(FILE, TALLY)
  {
    RegistryIs();
    MessageIsSafe(RegistryOf([FILE]));
    ModuleIsNamed();
    NoKeyword();
    Unbreak(FILE, TALLY);
  }

  lemma NoKeyword()
    ensures TALLY.name !in KEYWORDS
  {
  }

  lemma FieldRenders(reg: Registry, mod: string)
    requires Knows(reg)
    ensures FieldsUpTo(TALLY, |TALLY.fields|, reg, mod).Some?
  {
    assert KindOf(COUNTS, reg, mod) == Some(KMap(KStr));
  }

  lemma Generates() returns (p: Program)
    ensures GeneratedFrom([FILE], [FILE.name], p)
  {
    RegistryIs();
    FileIsGood();
    FieldRenders(RegistryOf([FILE]), ModuleName(FILE.name));
    OneFile();
    SingleGenerates(FILE, TALLY);
    p := Generate([FILE], [FILE.name], RegistryOf([FILE])).value;
  }

  // ----- the value -----

  lemma CountsTyped(t: Table, reg: Registry, n: int, text: string)
    requires Knows(reg) && Id() in t && t[Id()] == TALLY
    ensures ObjTyped(t, reg, Id(), Counts(Int(n), text))
  {
    Names();
    FieldIsGood(reg);
    MapTyped(t, reg, n, text);
    OneAttr();
    assert Counts(Int(n), text).attrs.Keys == {"counts"};
  }

  lemma OneAttr()
    ensures (set i | 0 <= i < |TALLY.fields| :: PyAttr(TALLY.fields[i].name)) == {"counts"}
  {
    Names();
    assert (set i | 0 <= i < |TALLY.fields| :: PyAttr(TALLY.fields[i].name)) == {AttrAt(TALLY, 0)};
  }

  lemma MapTyped(t: Table, reg: Registry, n: int, text: string)
    requires Knows(reg)
    ensures FieldTyped(t, reg, COUNTS, VDict(map[Int(n) := VStr(text)]))
  {
    assert ElemTyped(t, reg, VALUE, VStr(text));
  }

  lemma CountsClean(t: Table, n: int, text: string)
    requires Id() in t && t[Id()] == TALLY
    ensures var v := Counts(Int(n), text); !Conflict(t, v) && !Stuck(t, v) && Canonical(t, v)
  {
    var v := Counts(Int(n), text);
    assert !NodeConflict(TALLY, v.attrs) && !NodeFixed(TALLY, v.attrs);
    assert !Conflict(t, VStr(text)) && !Stuck(t, VStr(text)) && Canonical(t, VStr(text));
    var d := VDict(map[Int(n) := VStr(text)]);
    assert !Conflict(t, d) && !Stuck(t, d) && Canonical(t, d);
  }

  lemma TextOf(n: int, text: string)
    ensures OverJson(Counts(Int(n), text)) == Counts(Str(Decimal.IntText(n)), text)
  {
    var d := VDict(map[Int(n) := VStr(text)]);
    EachAt(d, Int(n));
    assert Texts(d.m) == {Str(Decimal.IntText(n))};
    assert OverJsonEach(d) == map[Str(Decimal.IntText(n)) := VStr(text)];
    assert OverJson(d) == VDict(OverJsonEach(d));
    assert OverJsonAttrs(Counts(Int(n), text)) == map["counts" := OverJson(d)];
  }

  /** A map<int32, string> of one entry survives to_dict and from_dict, and comes
      back from JSON text with a string for a key. */
  lemma KeysBecomeText(n: int, text: string) returns (p: Program)
    ensures GeneratedFrom([FILE], [FILE.name], p) && Safe([FILE], [FILE.name])
    ensures var v := Counts(Int(n), text);
            && ObjTyped(TableOf([FILE], [FILE.name]), RegistryOf([FILE]), Id(), v) && RunToDict(p, v).Ok?
            && RunFromDict(p, Id(), RunToDict(p, v).value) == Ok(v)
            && RunFromDict(p, Id(), OverJson(RunToDict(p, v).value)) == Ok(Counts(Str(Decimal.IntText(n)), text))
  {
    var v, t := Counts(Int(n), text), TableOf([FILE], [FILE.name]);
    p := Generates();
    FileIsSafe();
    RegistryIs();
    OneFile();
    SingleTable(FILE, TALLY);
    CountsTyped(t, RegistryOf([FILE]), n, text);
    CountsClean(t, n, text);
    CodecIdentity([FILE], [FILE.name], p, Id(), v);
    JsonTextExact([FILE], [FILE.name], p, Id(), v);
    NormFixes(t, v);
    TextOf(n, text);
  }
}
