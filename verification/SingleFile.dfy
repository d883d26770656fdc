/** Requests with one file and one class. */
module SingleFile {
  import opened Wrappers
  import opened Proto
  import opened Registry
  import opened Py
  import opened Render
  import opened Schema
  import opened Links
  import opened Names
  import opened Loading
  import opened Generator

  ghost predicate Single(fd: File, m: Message) {
    && !WellKnownFile(fd.name) && fd.messages == [m] && fd.enums == []
    && Children(m.nested) == [] && m.enums == [] && m.oneofs == []
  }

  lemma SingleRegistry(fd: File, m: Message)
    requires Single(fd, m)
    ensures RegistryOf([fd]) == WithMessage(EMPTY, ModuleName(fd.name), m, fd.pkg, [m.name])
  {
    var mod := ModuleName(fd.name);
    assert [fd][..0] == [] && [m][..0] == [];
    assert WithMessages(EMPTY, mod, [m], fd.pkg) == WithMessage(EMPTY, mod, m, fd.pkg, [m.name]);
    assert RegistryOf([fd]) == WithFile(EMPTY, fd);
  }

  lemma FlatRegistry(fd: File, m: Message)
    requires Single(fd, m) && m.nested == []
    ensures RegistryOf([fd]) == Registry(map[FqJoin(fd.pkg, m.name) := ClassId(ModuleName(fd.name), [m.name])], map[], map[])
  {
    SingleRegistry(fd, m);
  }

  /** A message with one map field has one map entry nested in it. */
  lemma KeyedRegistry(fd: File, m: Message, e: Message)
    requires Single(fd, m) && m.nested == [e] && e.mapEntry
    ensures RegistryOf([fd]) == Registry(map[FqJoin(fd.pkg, m.name) := ClassId(ModuleName(fd.name), [m.name])], map[],
                                         map[FqJoin(fd.pkg, m.name) + "." + e.name := EntryValue(e.fields)])
  {
    var mod, fq := ModuleName(fd.name), FqJoin(fd.pkg, m.name);
    var start := Registry(map[fq := ClassId(mod, [m.name])], map[], map[]);
    SingleRegistry(fd, m);
    assert [e][..0] == [];
    assert WithNested(start, mod, [e][..0], fq, [m.name]) == start;
    assert WithNested(start, mod, [e], fq, [m.name]) == start.(entries := map[fq + "." + e.name := EntryValue(e.fields)]);
  }

  lemma OnlyDeclared(m: Message, path: seq<string>, x: Message)
    requires Children(m.nested) == [] && DeclaredAt([m], path, x)
    ensures path == [m.name] && x == m
  {
    var top := Descend([m], path, x);
    if |path| > 1 {
      assert false;
    }
  }

  lemma SingleGood(fd: File, m: Message)
    requires Single(fd, m) && ClassName([fd], m.name) && GoodDeclared(RegistryOf([fd]), m) && PlainName(fd.name)
    ensures WellFormed([fd], [fd.name])
  {
    assert ScopeNames(fd.messages, fd.enums) == [m.name];
    forall path, x | DeclaredAt(fd.messages, path, x)
      ensures x == m && Distinct(ScopeNames(Children(x.nested), x.enums))
    {
      OnlyDeclared(m, path, x);
    }
    assert GoodFile([fd], fd);
  }

  lemma NoScope(m: Message)
    requires Children(m.nested) == [] && m.enums == []
    ensures Scope(m) == []
  {
  }

  /** The only module imports nothing. */
  lemma NoImports(fd: File, m: Message, d: string)
    requires Single(fd, m)
    ensures !Refers(fd.messages, RegistryOf([fd]), ModuleName(fd.name), d)
  {
    RegistrySound([fd]);
    forall fq | fq in RegistryOf([fd]).byFQ ensures RegistryOf([fd]).byFQ[fq].mod == ModuleName(fd.name) {
      assert Homes([fd], fq, RegistryOf([fd]).byFQ[fq]);
    }
  }

  lemma SingleClosed(fd: File, m: Message)
    requires Single(fd, m)
    ensures Closed([fd], [fd.name])
  {
    forall d ensures !Refers(fd.messages, RegistryOf([fd]), ModuleName(fd.name), d) {
      NoImports(fd, m, d);
    }
  }

  /** Nothing breaks the file's only class. */
  ghost predicate Unbroken(fd: File, m: Message) {
    Nameable(ModuleName(fd.name)) && m.name !in KEYWORDS && SafeMessage(RegistryOf([fd]), fd, m)
  }

  lemma Unbreak(fd: File, m: Message)
    requires Nameable(ModuleName(fd.name)) && m.name !in KEYWORDS && SafeMessage(RegistryOf([fd]), fd, m)
    ensures Unbroken(fd, m)
  {
  }

  lemma SingleSafe(fd: File, m: Message)
    requires Single(fd, m) && Unbroken(fd, m)
    ensures Safe([fd], [fd.name])
  {
    var reg := RegistryOf([fd]);
    assert ScopeNames(fd.messages, fd.enums) == [m.name];
    forall path, x | DeclaredAt(fd.messages, path, x) ensures NoKeywords(Scope(x)) && SafeMessage(reg, fd, x) {
      OnlyDeclared(m, path, x);
      NoScope(m);
    }
    SingleClosed(fd, m);
    assert SafeFile(reg, fd);
  }

  lemma ModuleOf(base: string)
    requires '/' !in base
    ensures ModuleName(base + ".proto") == base + "_pb"
  {
    var name := base + ".proto";
    assert name[|name| - 6..] == ".proto" && name[..|name| - 6] == base;
  }

  lemma IdentifierModule(base: string)
    requires IsIdentifier(base)
    ensures Nameable(ModuleName(base + ".proto"))
  {
    var mod := base + "_pb";
    ModuleOf(base);
    assert mod[0] == base[0] && forall i :: 0 <= i < |base| ==> mod[i] == base[i];
    assert mod[|base|] == '_' && mod[|base| + 1] == 'p' && mod[|base| + 2] == 'b';
    AsciiNameable(mod);
  }

  lemma SingleGenerates(fd: File, m: Message)
    requires Single(fd, m) && FieldsUpTo(m, |m.fields|, RegistryOf([fd]), ModuleName(fd.name)).Some?
    requires forall f :: f in m.fields ==> FieldResolves(f, RegistryOf([fd]))
    ensures Generate([fd], [fd.name], RegistryOf([fd])).Some?
  {
    var reg := RegistryOf([fd]);
    forall path, x, f | DeclaredAt(fd.messages, path, x) && f in x.fields ensures FieldResolves(f, reg) {
      OnlyDeclared(m, path, x);
    }
    CheckFileExact(fd, reg);
    FlatRenders(m, reg, ModuleName(fd.name));
    TopRenders(m, reg, ModuleName(fd.name));
    assert [fd.name][..0] == [];
    assert FindFile([fd], fd.name) == Some(fd);
  }

  lemma NoMapNoPanic(m: Message, reg: Registry, mod: string)
    requires forall i :: 0 <= i < |m.fields| ==> !IsMap(m.fields[i], reg)
    ensures FieldsUpTo(m, |m.fields|, reg, mod).Some?
  {
  }

  lemma FlatRenders(m: Message, reg: Registry, mod: string)
    requires Children(m.nested) == [] && FieldsUpTo(m, |m.fields|, reg, mod).Some?
    ensures RenderMessage(m, reg, mod).Some?
  {
    NestedRendersChildren(m.nested, reg, mod);
    assert RenderNested(m.nested, reg, mod) == Some([]);
  }

  lemma TopRenders(m: Message, reg: Registry, mod: string)
    requires RenderMessage(m, reg, mod).Some?
    ensures RenderTop([m], reg, mod).Some?
  {
    assert [m][..0] == [];
    assert RenderTop([m][..0], reg, mod) == Some([]);
  }

  /** The only class of the package. */
  lemma SingleTable(fd: File, m: Message)
    requires Single(fd, m)
    ensures var id := ClassId(ModuleName(fd.name), [m.name]);
            id in TableOf([fd], [fd.name]) && TableOf([fd], [fd.name])[id] == m
  {
    var id := ClassId(ModuleName(fd.name), [m.name]);
    TopDeclares([m], m);
    assert Wants([fd], [fd.name], fd);
    assert Declares([fd], [fd.name], id, m);
    var x := MessageOf([fd], [fd.name], id);
    var other := FileOf([fd], [fd.name], id, x);
    OnlyDeclared(m, id.path, x);
  }

  /** Module names end in b. */
  lemma NoModule(fd: File, name: string)
    requires IsIdent(name) && 'A' <= name[0] <= 'Z' && name[|name| - 1] != 'b'
    ensures ClassName([fd], name)
  {
    ModuleEnds(fd.name);
  }

  lemma ModuleEnds(name: string)
    ensures var mod := ModuleName(name); mod != "" && mod[|mod| - 1] == 'b'
  {
  }

  /** A field outside oneofs, with a name protoc takes. */
  lemma FieldGood(m: Message, f: Field, reg: Registry)
    requires reg.entries == map[] && IsIdent(f.name) && !f.typ.TGroup? && !WellKnown(f.typeName)
    requires f.oneofIndex.None? && !f.proto3Optional
    ensures GoodField(m, f, reg)
  {
  }
}
