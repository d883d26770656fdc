/** The zero values of the registry: for every enum the request declares, the name
    of its first value numbered 0. */
module Enums {
  import opened Proto
  import opened Registry
  import opened Py
  import opened Names
  import Schema
  import Entries

  /** The enum e is declared under the name fq, at the top of a file or in a
      message. */
  ghost predicate EnumHome(files: seq<File>, fq: string, e: EnumDecl) {
    exists fd :: fd in files && !WellKnownFile(fd.name) && EnumIn(fd, fq, e)
  }

  ghost predicate EnumIn(fd: File, fq: string, e: EnumDecl) {
    || (e in fd.enums && fq == FqJoin(fd.pkg, e.name))
    || exists path, m :: NestedEnum(fd, path, m, fq, e)
  }

  ghost predicate NestedEnum(fd: File, path: seq<string>, m: Message, fq: string, e: EnumDecl) {
    DeclaredAt(fd.messages, path, m) && path != [] && e in m.enums && fq == FqJoin(FqOf(fd.pkg, path), e.name)
  }

  // ----- every zero is declared -----

  /** name is the zero of an enum declared under fq. */
  ghost predicate ZeroOf(files: seq<File>, fq: string, name: string) {
    exists e :: EnumHome(files, fq, e) && IsFirstZero(e.values, name)
  }

  ghost predicate ZerosSound(files: seq<File>, reg: Registry) {
    forall fq :: fq in reg.enumZero ==> ZeroOf(files, fq, reg.enumZero[fq])
  }

  lemma EnumZero(files: seq<File>, fd: File, reg: Registry, scope: string, e: EnumDecl, id: ClassId)
    requires ZerosSound(files, reg) && fd in files && !WellKnownFile(fd.name) && EnumIn(fd, FqJoin(scope, e.name), e)
    ensures ZerosSound(files, WithEnum(reg, scope, e, id))
  {
    ZeroNameIs(e.values);
    assert EnumHome(files, FqJoin(scope, e.name), e);
    assert ZeroOf(files, FqJoin(scope, e.name), ZeroName(e.values));
  }

  lemma {:induction false} EnumZeros(files: seq<File>, fd: File, reg: Registry, scope: string, es: seq<EnumDecl>,
                                     mod: string, path: seq<string>)
    requires ZerosSound(files, reg) && fd in files && !WellKnownFile(fd.name)
    requires forall e :: e in es ==> EnumIn(fd, FqJoin(scope, e.name), e)
    ensures ZerosSound(files, WithEnums(reg, scope, es, mod, path))
  {
    if es != [] {
      var k := |es| - 1;
      EnumZeros(files, fd, reg, scope, es[..k], mod, path);
      EnumZero(files, fd, WithEnums(reg, scope, es[..k], mod, path), scope, es[k], ClassId(mod, path + [es[k].name]));
    }
  }

  lemma NestedEnums(fd: File, path: seq<string>, m: Message, fq: string)
    requires DeclaredAt(fd.messages, path, m) && path != [] && fq == FqOf(fd.pkg, path)
    ensures forall e :: e in m.enums ==> EnumIn(fd, FqJoin(fq, e.name), e)
  {
    forall e | e in m.enums ensures EnumIn(fd, FqJoin(fq, e.name), e) {
      assert NestedEnum(fd, path, m, FqJoin(fq, e.name), e);
    }
  }

  lemma {:induction false} MessageZeros(files: seq<File>, fd: File, reg: Registry, mod: string, m: Message,
                                        pkg: string, path: seq<string>)
    requires ZerosSound(files, reg) && InFile(files, fd, mod)
    requires DeclaredAt(fd.messages, path, m) && FqJoin(pkg, m.name) == FqOf(fd.pkg, path)
    ensures ZerosSound(files, WithMessage(reg, mod, m, pkg, path))
    decreases m, 1
  {
    var fq := FqJoin(pkg, m.name);
    var r1 := reg.(byFQ := reg.byFQ[fq := ClassId(mod, path)]);
    NestedZeros(files, fd, r1, mod, m, m.nested, path);
    NestedEnums(fd, path, m, fq);
    EnumZeros(files, fd, WithNested(r1, mod, m.nested, fq, path), fq, m.enums, mod, path);
  }

  lemma {:induction false} NestedZeros(files: seq<File>, fd: File, reg: Registry, mod: string, m: Message,
                                       ns: seq<Message>, path: seq<string>)
    requires ZerosSound(files, reg) && InFile(files, fd, mod) && DeclaredAt(fd.messages, path, m)
    requires forall n :: n in ns ==> n in m.nested
    ensures ZerosSound(files, WithNested(reg, mod, ns, FqOf(fd.pkg, path), path))
    decreases ns, 0
  {
    if ns != [] {
      var k := |ns| - 1;
      NestedZeros(files, fd, reg, mod, m, ns[..k], path);
      if !ns[k].mapEntry {
        DeclaredBelow(fd.messages, path, m, ns[k]);
        FqBelow(fd.pkg, path, ns[k].name);
        MessageZeros(files, fd, WithNested(reg, mod, ns[..k], FqOf(fd.pkg, path), path), mod, ns[k],
                     FqOf(fd.pkg, path), path + [ns[k].name]);
      }
    }
  }

  lemma {:induction false} MessagesZeros(files: seq<File>, fd: File, reg: Registry, mod: string, ms: seq<Message>)
    requires ZerosSound(files, reg) && InFile(files, fd, mod)
    requires forall m :: m in ms ==> m in fd.messages
    ensures ZerosSound(files, WithMessages(reg, mod, ms, fd.pkg))
  {
    if ms != [] {
      var k := |ms| - 1;
      MessagesZeros(files, fd, reg, mod, ms[..k]);
      TopDeclares(fd.messages, ms[k]);
      MessageZeros(files, fd, WithMessages(reg, mod, ms[..k], fd.pkg), mod, ms[k], fd.pkg, [ms[k].name]);
    }
  }

  lemma {:induction false} FilesZeros(files: seq<File>, fds: seq<File>)
    requires forall fd :: fd in fds ==> fd in files
    ensures ZerosSound(files, RegistryOf(fds))
  {
    if fds != [] {
      var k := |fds| - 1;
      FilesZeros(files, fds[..k]);
      if !WellKnownFile(fds[k].name) {
        var mod, reg := ModuleName(fds[k].name), RegistryOf(fds[..k]);
        MessagesZeros(files, fds[k], reg, mod, fds[k].messages);
        EnumZeros(files, fds[k], WithMessages(reg, mod, fds[k].messages, fds[k].pkg), fds[k].pkg, fds[k].enums, mod, []);
      }
    }
  }

  // ----- every declared enum has a zero -----

  ghost predicate MoreZeros(before: Registry, after: Registry) {
    before.enumZero.Keys <= after.enumZero.Keys
  }

  lemma {:induction false} EnumsAdd(reg: Registry, scope: string, es: seq<EnumDecl>, mod: string, path: seq<string>)
    ensures MoreZeros(reg, WithEnums(reg, scope, es, mod, path))
    ensures forall e :: e in es ==> FqJoin(scope, e.name) in WithEnums(reg, scope, es, mod, path).enumZero
  {
    if es != [] {
      var k := |es| - 1;
      EnumsAdd(reg, scope, es[..k], mod, path);
      assert forall e :: e in es ==> e == es[k] || e in es[..k];
    }
  }

  lemma {:induction false} MessageAdds(reg: Registry, mod: string, m: Message, pkg: string, path: seq<string>)
    ensures MoreZeros(reg, WithMessage(reg, mod, m, pkg, path))
    decreases m, 1
  {
    var fq := FqJoin(pkg, m.name);
    var r1 := reg.(byFQ := reg.byFQ[fq := ClassId(mod, path)]);
    NestedAdds(r1, mod, m.nested, fq, path);
    EnumsAdd(WithNested(r1, mod, m.nested, fq, path), fq, m.enums, mod, path);
  }

  lemma {:induction false} NestedAdds(reg: Registry, mod: string, ns: seq<Message>, fq: string, path: seq<string>)
    ensures MoreZeros(reg, WithNested(reg, mod, ns, fq, path))
    decreases ns, 0
  {
    if ns != [] {
      var k := |ns| - 1;
      NestedAdds(reg, mod, ns[..k], fq, path);
      if !ns[k].mapEntry {
        MessageAdds(WithNested(reg, mod, ns[..k], fq, path), mod, ns[k], fq, path + [ns[k].name]);
      }
    }
  }

  /** An enum of the message at rel, a path that starts with m, is recorded. */
  lemma {:induction false} MessageRecords(reg: Registry, mod: string, m: Message, pkg: string, path: seq<string>,
                                          rel: seq<string>, x: Message, e: EnumDecl)
    requires Through(m, rel, x) && e in x.enums
    ensures FqJoin(FqOf(pkg, rel), e.name) in WithMessage(reg, mod, m, pkg, path).enumZero
    decreases m, 1
  {
    var fq := FqJoin(pkg, m.name);
    var r1 := reg.(byFQ := reg.byFQ[fq := ClassId(mod, path)]);
    var r2 := WithNested(r1, mod, m.nested, fq, path);
    EnumsAdd(r2, fq, m.enums, mod, path);
    if |rel| > 1 {
      var c := Descend(Children(m.nested), rel[1..], x);
      NestedRecords(r1, mod, m.nested, fq, path, c, rel[1..], x, e);
    }
  }

  lemma {:induction false} NestedRecords(reg: Registry, mod: string, ns: seq<Message>, fq: string, path: seq<string>,
                                         c: Message, rel: seq<string>, x: Message, e: EnumDecl)
    requires c in ns && !c.mapEntry && Through(c, rel, x) && e in x.enums
    ensures FqJoin(FqOf(fq, rel), e.name) in WithNested(reg, mod, ns, fq, path).enumZero
    decreases ns, 0
  {
    var k := |ns| - 1;
    var before := WithNested(reg, mod, ns[..k], fq, path);
    if ns[k] == c {
      MessageRecords(before, mod, ns[k], fq, path + [ns[k].name], rel, x, e);
    } else {
      assert c in ns[..k];
      NestedRecords(reg, mod, ns[..k], fq, path, c, rel, x, e);
      if !ns[k].mapEntry {
        MessageAdds(before, mod, ns[k], fq, path + [ns[k].name]);
      }
    }
  }

  lemma {:induction false} MessagesRecord(reg: Registry, mod: string, ms: seq<Message>, pkg: string,
                                          c: Message, rel: seq<string>, x: Message, e: EnumDecl)
    requires c in ms && Through(c, rel, x) && e in x.enums
    ensures FqJoin(FqOf(pkg, rel), e.name) in WithMessages(reg, mod, ms, pkg).enumZero
  {
    var k := |ms| - 1;
    var before := WithMessages(reg, mod, ms[..k], pkg);
    if ms[k] == c {
      MessageRecords(before, mod, ms[k], pkg, [ms[k].name], rel, x, e);
    } else {
      assert c in ms[..k];
      MessagesRecord(reg, mod, ms[..k], pkg, c, rel, x, e);
      MessageAdds(before, mod, ms[k], pkg, [ms[k].name]);
    }
    Entries.MessagesLast(reg, mod, ms, pkg);
  }

  lemma {:induction false} MessagesAdd(reg: Registry, mod: string, ms: seq<Message>, pkg: string)
    ensures MoreZeros(reg, WithMessages(reg, mod, ms, pkg))
  {
    if ms != [] {
      var k := |ms| - 1;
      MessagesAdd(reg, mod, ms[..k], pkg);
      MessageAdds(WithMessages(reg, mod, ms[..k], pkg), mod, ms[k], pkg, [ms[k].name]);
    }
  }

  lemma FileAdds(reg: Registry, fd: File)
    ensures MoreZeros(reg, WithFile(reg, fd))
  {
    if !WellKnownFile(fd.name) {
      var mod := ModuleName(fd.name);
      MessagesAdd(reg, mod, fd.messages, fd.pkg);
      EnumsAdd(WithMessages(reg, mod, fd.messages, fd.pkg), fd.pkg, fd.enums, mod, []);
    }
  }

  lemma FileRecords(reg: Registry, fd: File, fq: string, e: EnumDecl)
    requires !WellKnownFile(fd.name) && EnumIn(fd, fq, e)
    ensures fq in WithFile(reg, fd).enumZero
  {
    var mod := ModuleName(fd.name);
    var r := WithMessages(reg, mod, fd.messages, fd.pkg);
    EnumsAdd(r, fd.pkg, fd.enums, mod, []);
    if path, m :| NestedEnum(fd, path, m, fq, e) {
      var c := Descend(fd.messages, path, m);
      MessagesRecord(reg, mod, fd.messages, fd.pkg, c, path, m, e);
    }
  }

  lemma {:induction false} FilesRecord(files: seq<File>, fd: File, fq: string, e: EnumDecl)
    requires fd in files && !WellKnownFile(fd.name) && EnumIn(fd, fq, e)
    ensures fq in RegistryOf(files).enumZero
  {
    var k := |files| - 1;
    var before := RegistryOf(files[..k]);
    FileAdds(before, files[k]);
    if files[k] == fd {
      FileRecords(before, fd, fq, e);
    } else {
      assert fd in files[..k];
      FilesRecord(files[..k], fd, fq, e);
    }
  }

  /** The registry has a zero for exactly the declared enums: the name of the first
      value numbered 0 of one declared under that name, or "" when it has none. */
  lemma EnumsExact(files: seq<File>, fq: string)
    ensures fq in RegistryOf(files).enumZero <==> exists e :: EnumHome(files, fq, e)
    ensures fq in RegistryOf(files).enumZero ==> ZeroOf(files, fq, RegistryOf(files).enumZero[fq])
  {
    FilesZeros(files, files);
    if e :| EnumHome(files, fq, e) {
      var fd :| fd in files && !WellKnownFile(fd.name) && EnumIn(fd, fq, e);
      FilesRecord(files, fd, fq, e);
    }
  }

  lemma ZeroReads(f: Field, reg: Registry)
    requires f.typ.TEnum? && f.typeName in reg.enumZero
    ensures Schema.Zero(f, reg) == Py.VStr(reg.enumZero[f.typeName])
  {
  }

  /** The zero of an enum field is the name of the first value numbered 0 of an
      enum declared under the field's type, "" where it has none. */
  lemma ZeroIsDeclared(files: seq<File>, f: Field, e: EnumDecl)
    requires f.typ.TEnum? && EnumHome(files, f.typeName, e)
    ensures Schema.Zero(f, RegistryOf(files)).VStr?
    ensures ZeroOf(files, f.typeName, Schema.Zero(f, RegistryOf(files)).s)
  {
    EnumsExact(files, f.typeName);
    ZeroReads(f, RegistryOf(files));
  }
}
