/** The registry: one walk over every file of the request that records where
    each message and enum class will live. */
module Registry {
  import opened Wrappers
  import opened Proto
  import opened Py

  datatype Registry = Registry(
    byFQ: map<string, ClassId>,
    enumZero: map<string, string>,
    entries: map<string, Option<Field>>)

  const EMPTY := Registry(map[], map[], map[])

  // ----- the walk as a function -----

  /** The name of the first value numbered 0, or "". */
  function ZeroName(values: seq<(string, int)>): string {
    if values == [] then ""
    else if values[0].1 == 0 then values[0].0
    else ZeroName(values[1..])
  }

  /** name is that of the first value numbered 0, or "" where there is none. */
  ghost predicate IsFirstZero(values: seq<(string, int)>, name: string) {
    || (exists k :: FirstZeroAt(values, k) && values[k].0 == name)
    || (name == "" && forall k :: 0 <= k < |values| ==> values[k].1 != 0)
  }

  ghost predicate FirstZeroAt(values: seq<(string, int)>, k: int) {
    0 <= k < |values| && values[k].1 == 0 && forall j :: 0 <= j < k ==> values[j].1 != 0
  }

  lemma {:induction false} ZeroNameIs(values: seq<(string, int)>)
    ensures IsFirstZero(values, ZeroName(values))
  {
    if values != [] {
      var rest := values[1..];
      if values[0].1 == 0 {
        assert FirstZeroAt(values, 0);
      } else {
        ZeroNameIs(rest);
        if k :| FirstZeroAt(rest, k) && rest[k].0 == ZeroName(rest) {
          assert FirstZeroAt(values, k + 1);
        } else {
          assert forall k :: 0 < k < |values| ==> values[k] == rest[k - 1];
        }
      }
    }
  }

  /** value is the last field numbered 2, or None where there is none. */
  ghost predicate IsEntryValue(fields: seq<Field>, value: Option<Field>) {
    match value
    case None => forall k :: 0 <= k < |fields| ==> fields[k].number != 2
    case Some(f) => exists k :: 0 <= k < |fields| && EntryAtPlace(fields, f, k)
  }

  ghost predicate EntryAtPlace(fields: seq<Field>, f: Field, k: int)
    requires 0 <= k < |fields|
  {
    fields[k] == f && f.number == 2 && forall j :: k < j < |fields| ==> fields[j].number != 2
  }

  lemma {:induction false} EntryValueIs(fields: seq<Field>)
    ensures IsEntryValue(fields, EntryValue(fields))
  {
    if fields != [] {
      EntryValueIs(fields[..|fields| - 1]);
      EntryStep(fields, EntryValue(fields[..|fields| - 1]));
    }
  }

  lemma EntryStep(fields: seq<Field>, value: Option<Field>)
    requires fields != [] && IsEntryValue(fields[..|fields| - 1], value)
    ensures var last := fields[|fields| - 1]; IsEntryValue(fields, if last.number == 2 then Some(last) else value)
  {
    var n := |fields| - 1;
    if fields[n].number != 2 && value.Some? {
      var k :| 0 <= k < n && EntryAtPlace(fields[..n], value.value, k);
      assert EntryAtPlace(fields, value.value, k);
    } else if fields[n].number == 2 {
      assert EntryAtPlace(fields, fields[n], n);
    }
  }

  /** The value field of a map entry: the last one numbered 2. */
  function EntryValue(fields: seq<Field>): Option<Field> {
    if fields == [] then None
    else
      var last := fields[|fields| - 1];
      if last.number == 2 then Some(last) else EntryValue(fields[..|fields| - 1])
  }

  function WithEnum(reg: Registry, scope: string, e: EnumDecl, id: ClassId): Registry {
    var fq := FqJoin(scope, e.name);
    reg.(byFQ := reg.byFQ[fq := id], enumZero := reg.enumZero[fq := ZeroName(e.values)])
  }

  function WithEnums(reg: Registry, scope: string, es: seq<EnumDecl>, mod: string, path: seq<string>): Registry {
    if es == [] then reg
    else
      var last := es[|es| - 1];
      WithEnum(WithEnums(reg, scope, es[..|es| - 1], mod, path), scope, last, ClassId(mod, path + [last.name]))
  }

  function WithMessage(reg: Registry, mod: string, m: Message, pkg: string, path: seq<string>): Registry
    decreases m, 1
  {
    var fq := FqJoin(pkg, m.name);
    var r1 := reg.(byFQ := reg.byFQ[fq := ClassId(mod, path)]);
    var r2 := WithNested(r1, mod, m.nested, fq, path);
    WithEnums(r2, fq, m.enums, mod, path)
  }

  function WithNested(reg: Registry, mod: string, ns: seq<Message>, fq: string, path: seq<string>): Registry
    decreases ns, 0
  {
    if ns == [] then reg
    else
      var last := ns[|ns| - 1];
      var r := WithNested(reg, mod, ns[..|ns| - 1], fq, path);
      if last.mapEntry
      then r.(entries := r.entries[fq + "." + last.name := EntryValue(last.fields)])
      else WithMessage(r, mod, last, fq, path + [last.name])
  }

  function WithMessages(reg: Registry, mod: string, ms: seq<Message>, pkg: string): Registry {
    if ms == [] then reg
    else
      var last := ms[|ms| - 1];
      WithMessage(WithMessages(reg, mod, ms[..|ms| - 1], pkg), mod, last, pkg, [last.name])
  }

  function WithFile(reg: Registry, fd: File): Registry {
    if WellKnownFile(fd.name) then reg
    else
      var mod := ModuleName(fd.name);
      WithEnums(WithMessages(reg, mod, fd.messages, fd.pkg), fd.pkg, fd.enums, mod, [])
  }

  function RegistryOf(files: seq<File>): Registry {
    if files == [] then EMPTY
    else WithFile(RegistryOf(files[..|files| - 1]), files[|files| - 1])
  }

  // ----- the walk as the generator runs it, filling maps in place -----

  class Builder {
    var byFQ: map<string, ClassId>
    var enumZero: map<string, string>
    var entries: map<string, Option<Field>>

    function Value(): Registry
      reads this
    {
      Registry(byFQ, enumZero, entries)
    }

    constructor ()
      ensures Value() == EMPTY
    {
      byFQ, enumZero, entries := map[], map[], map[];
    }

    method AddEnum(scope: string, e: EnumDecl, id: ClassId)
      modifies this
      ensures Value() == WithEnum(old(Value()), scope, e, id)
      ensures IsFirstZero(e.values, enumZero[FqJoin(scope, e.name)])
    {
      var fq := FqJoin(scope, e.name);
      byFQ := byFQ[fq := id];
      var zero, i := "", 0;
      while i < |e.values|
        invariant 0 <= i <= |e.values| && zero == ""
        invariant ZeroName(e.values) == ZeroName(e.values[i..])
      {
        if e.values[i].1 == 0 {
          zero := e.values[i].0;
          break;
        }
        i := i + 1;
      }
      enumZero := enumZero[fq := zero];
      ZeroNameIs(e.values);
    }

    method AddEnums(scope: string, es: seq<EnumDecl>, mod: string, path: seq<string>)
      modifies this
      ensures Value() == WithEnums(old(Value()), scope, es, mod, path)
    {
      var i := 0;
      while i < |es|
        invariant 0 <= i <= |es|
        invariant Value() == WithEnums(old(Value()), scope, es[..i], mod, path)
      {
        assert es[..i + 1][..i] == es[..i];
        AddEnum(scope, es[i], ClassId(mod, path + [es[i].name]));
        i := i + 1;
      }
      assert es[..i] == es;
    }

    method AddMessage(mod: string, m: Message, pkg: string, path: seq<string>)
      modifies this
      ensures Value() == WithMessage(old(Value()), mod, m, pkg, path)
      decreases m, 1
    {
      var fq := FqJoin(pkg, m.name);
      byFQ := byFQ[fq := ClassId(mod, path)];
      AddNested(mod, m.nested, fq, path);
      AddEnums(fq, m.enums, mod, path);
    }

    method AddNested(mod: string, ns: seq<Message>, fq: string, path: seq<string>)
      modifies this
      ensures Value() == WithNested(old(Value()), mod, ns, fq, path)
      decreases ns, 0
    {
      var i := 0;
      while i < |ns|
        invariant 0 <= i <= |ns|
        invariant Value() == WithNested(old(Value()), mod, ns[..i], fq, path)
      {
        assert ns[..i + 1][..i] == ns[..i];
        var n := ns[i];
        if n.mapEntry {
          var value := FindEntryValue(n.fields);
          entries := entries[fq + "." + n.name := value];
        } else {
          AddMessage(mod, n, fq, path + [n.name]);
        }
        i := i + 1;
      }
      assert ns[..i] == ns;
    }

    method AddFile(fd: File)
      modifies this
      ensures Value() == WithFile(old(Value()), fd)
    {
      if WellKnownFile(fd.name) {
        return;
      }
      AddMessages(ModuleName(fd.name), fd.messages, fd.pkg);
      AddEnums(fd.pkg, fd.enums, ModuleName(fd.name), []);
    }

    method AddMessages(mod: string, ms: seq<Message>, pkg: string)
      modifies this
      ensures Value() == WithMessages(old(Value()), mod, ms, pkg)
    {
      var i := 0;
      while i < |ms|
        invariant 0 <= i <= |ms|
        invariant Value() == WithMessages(old(Value()), mod, ms[..i], pkg)
      {
        assert ms[..i + 1][..i] == ms[..i];
        AddMessage(mod, ms[i], pkg, [ms[i].name]);
        i := i + 1;
      }
      assert ms[..i] == ms;
    }
  }

  method FindEntryValue(fields: seq<Field>) returns (value: Option<Field>)
    ensures value == EntryValue(fields) && IsEntryValue(fields, value)
  {
    value := None;
    for i := 0 to |fields|
      invariant value == EntryValue(fields[..i])
    {
      assert fields[..i + 1][..i] == fields[..i];
      if fields[i].number == 2 {
        value := Some(fields[i]);
      }
    }
    assert fields[..|fields|] == fields;
    EntryValueIs(fields);
  }

  method BuildRegistry(files: seq<File>) returns (b: Builder)
    ensures fresh(b) && b.Value() == RegistryOf(files)
  {
    b := new Builder();
    for i := 0 to |files|
      invariant fresh(b) && b.Value() == RegistryOf(files[..i])
    {
      assert files[..i + 1][..i] == files[..i];
      b.AddFile(files[i]);
    }
    assert files[..|files|] == files;
  }

  // ----- what the walk records -----

  /** id is where fq's class lives: a message or enum declared, in one of the
      rendered files, at id's path and carrying exactly that proto name. */
  ghost predicate Homes(files: seq<File>, fq: string, id: ClassId) {
    exists fd :: fd in files && !WellKnownFile(fd.name) && id.mod == ModuleName(fd.name) && HomeIn(fd, fq, id.path)
  }

  ghost predicate HomeIn(fd: File, fq: string, path: seq<string>) {
    && path != [] && fq == FqOf(fd.pkg, path)
    && ((exists m :: DeclaredAt(fd.messages, path, m)) || EnumAt(fd.messages, fd.enums, path))
  }
}
