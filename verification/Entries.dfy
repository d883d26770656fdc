/** The map entries of the registry: exactly the synthetic messages that protoc
    nests in the message of a map field. */
module Entries {
  import opened Wrappers
  import opened Proto
  import opened Registry
  import opened Py
  import opened Names

  /** fq is the name of a map entry nested in a declared message, and value its
      value field. */
  ghost predicate EntryHome(files: seq<File>, fq: string, value: Option<Field>) {
    exists fd, path, m, n :: fd in files && !WellKnownFile(fd.name) && EntryAt(fd, path, m, n, fq, value)
  }

  ghost predicate EntryAt(fd: File, path: seq<string>, m: Message, n: Message, fq: string, value: Option<Field>) {
    && DeclaredAt(fd.messages, path, m) && n in m.nested && n.mapEntry
    && path != [] && fq == FqOf(fd.pkg, path) + "." + n.name && IsEntryValue(n.fields, value)
  }

  // ----- every entry is declared -----

  ghost predicate EntriesSound(files: seq<File>, reg: Registry) {
    forall fq :: fq in reg.entries ==> EntryHome(files, fq, reg.entries[fq])
  }

  lemma {:induction false} EnumsKeepEntries(reg: Registry, scope: string, es: seq<EnumDecl>, mod: string, path: seq<string>)
    ensures WithEnums(reg, scope, es, mod, path).entries == reg.entries
  {
    if es != [] {
      EnumsKeepEntries(reg, scope, es[..|es| - 1], mod, path);
    }
  }

  lemma {:induction false} MessageEntries(files: seq<File>, fd: File, reg: Registry, mod: string, m: Message,
                                          pkg: string, path: seq<string>)
    requires EntriesSound(files, reg) && InFile(files, fd, mod)
    requires DeclaredAt(fd.messages, path, m) && FqJoin(pkg, m.name) == FqOf(fd.pkg, path)
    ensures EntriesSound(files, WithMessage(reg, mod, m, pkg, path))
    decreases m, 1
  {
    var fq := FqJoin(pkg, m.name);
    var r1 := reg.(byFQ := reg.byFQ[fq := ClassId(mod, path)]);
    NestedEntries(files, fd, r1, mod, m, m.nested, path);
    EnumsKeepEntries(WithNested(r1, mod, m.nested, fq, path), fq, m.enums, mod, path);
  }

  lemma OneEntry(files: seq<File>, fd: File, reg: Registry, mod: string, m: Message, n: Message, path: seq<string>)
    requires EntriesSound(files, reg) && InFile(files, fd, mod) && DeclaredAt(fd.messages, path, m)
    requires n in m.nested && n.mapEntry
    ensures path != []
    ensures EntriesSound(files, reg.(entries := reg.entries[FqOf(fd.pkg, path) + "." + n.name := EntryValue(n.fields)]))
  {
    EntryValueIs(n.fields);
    assert EntryAt(fd, path, m, n, FqOf(fd.pkg, path) + "." + n.name, EntryValue(n.fields));
  }

  lemma {:induction false} NestedEntries(files: seq<File>, fd: File, reg: Registry, mod: string, m: Message,
                                         ns: seq<Message>, path: seq<string>)
    requires EntriesSound(files, reg) && InFile(files, fd, mod) && DeclaredAt(fd.messages, path, m)
    requires forall n :: n in ns ==> n in m.nested
    ensures EntriesSound(files, WithNested(reg, mod, ns, FqOf(fd.pkg, path), path))
    decreases ns, 0
  {
    if ns != [] {
      var k := |ns| - 1;
      NestedEntries(files, fd, reg, mod, m, ns[..k], path);
      if ns[k].mapEntry {
        OneEntry(files, fd, WithNested(reg, mod, ns[..k], FqOf(fd.pkg, path), path), mod, m, ns[k], path);
      } else {
        DeclaredBelow(fd.messages, path, m, ns[k]);
        FqBelow(fd.pkg, path, ns[k].name);
        MessageEntries(files, fd, WithNested(reg, mod, ns[..k], FqOf(fd.pkg, path), path), mod, ns[k],
                       FqOf(fd.pkg, path), path + [ns[k].name]);
      }
    }
  }

  lemma {:induction false} MessagesEntries(files: seq<File>, fd: File, reg: Registry, mod: string, ms: seq<Message>)
    requires EntriesSound(files, reg) && InFile(files, fd, mod)
    requires forall m :: m in ms ==> m in fd.messages
    ensures EntriesSound(files, WithMessages(reg, mod, ms, fd.pkg))
  {
    if ms != [] {
      var k := |ms| - 1;
      MessagesEntries(files, fd, reg, mod, ms[..k]);
      TopDeclares(fd.messages, ms[k]);
      MessageEntries(files, fd, WithMessages(reg, mod, ms[..k], fd.pkg), mod, ms[k], fd.pkg, [ms[k].name]);
    }
  }

  lemma {:induction false} FilesEntries(files: seq<File>, fds: seq<File>)
    requires forall fd :: fd in fds ==> fd in files
    ensures EntriesSound(files, RegistryOf(fds))
  {
    if fds != [] {
      var k := |fds| - 1;
      FilesEntries(files, fds[..k]);
      if !WellKnownFile(fds[k].name) {
        var mod, reg := ModuleName(fds[k].name), RegistryOf(fds[..k]);
        MessagesEntries(files, fds[k], reg, mod, fds[k].messages);
        EnumsKeepEntries(WithMessages(reg, mod, fds[k].messages, fds[k].pkg), fds[k].pkg, fds[k].enums, mod, []);
      }
    }
  }

  // ----- every declared entry is recorded -----

  ghost predicate MoreEntries(before: Registry, after: Registry) {
    before.entries.Keys <= after.entries.Keys
  }

  lemma {:induction false} MessageAdds(reg: Registry, mod: string, m: Message, pkg: string, path: seq<string>)
    ensures MoreEntries(reg, WithMessage(reg, mod, m, pkg, path))
    decreases m, 1
  {
    var fq := FqJoin(pkg, m.name);
    var r1 := reg.(byFQ := reg.byFQ[fq := ClassId(mod, path)]);
    NestedAdds(r1, mod, m.nested, fq, path);
    EnumsKeepEntries(WithNested(r1, mod, m.nested, fq, path), fq, m.enums, mod, path);
  }

  lemma {:induction false} NestedAdds(reg: Registry, mod: string, ns: seq<Message>, fq: string, path: seq<string>)
    ensures MoreEntries(reg, WithNested(reg, mod, ns, fq, path))
    ensures forall n :: n in ns && n.mapEntry ==> fq + "." + n.name in WithNested(reg, mod, ns, fq, path).entries
    decreases ns, 0
  {
    if ns != [] {
      var k := |ns| - 1;
      NestedAdds(reg, mod, ns[..k], fq, path);
      if !ns[k].mapEntry {
        MessageAdds(WithNested(reg, mod, ns[..k], fq, path), mod, ns[k], fq, path + [ns[k].name]);
      }
      assert forall n :: n in ns ==> n == ns[k] || n in ns[..k];
    }
  }

  /** An entry of the message at rel, a path that starts with m, is recorded. */
  lemma {:induction false} MessageRecords(reg: Registry, mod: string, m: Message, pkg: string, path: seq<string>,
                                          rel: seq<string>, x: Message, n: Message)
    requires Through(m, rel, x) && n in x.nested && n.mapEntry
    ensures FqOf(pkg, rel) + "." + n.name in WithMessage(reg, mod, m, pkg, path).entries
    decreases m, 1
  {
    var fq := FqJoin(pkg, m.name);
    var r1 := reg.(byFQ := reg.byFQ[fq := ClassId(mod, path)]);
    var r2 := WithNested(r1, mod, m.nested, fq, path);
    EnumsKeepEntries(r2, fq, m.enums, mod, path);
    NestedAdds(r1, mod, m.nested, fq, path);
    if |rel| > 1 {
      var c := Descend(Children(m.nested), rel[1..], x);
      NestedRecords(r1, mod, m.nested, fq, path, c, rel[1..], x, n);
    }
  }

  lemma {:induction false} NestedRecords(reg: Registry, mod: string, ns: seq<Message>, fq: string, path: seq<string>,
                                         c: Message, rel: seq<string>, x: Message, n: Message)
    requires c in ns && !c.mapEntry && Through(c, rel, x) && n in x.nested && n.mapEntry
    ensures FqOf(fq, rel) + "." + n.name in WithNested(reg, mod, ns, fq, path).entries
    decreases ns, 0
  {
    var k := |ns| - 1;
    var before := WithNested(reg, mod, ns[..k], fq, path);
    if ns[k] == c {
      MessageRecords(before, mod, ns[k], fq, path + [ns[k].name], rel, x, n);
    } else {
      assert c in ns[..k];
      NestedRecords(reg, mod, ns[..k], fq, path, c, rel, x, n);
      if !ns[k].mapEntry {
        MessageAdds(before, mod, ns[k], fq, path + [ns[k].name]);
      }
    }
  }

  lemma MessagesLast(reg: Registry, mod: string, ms: seq<Message>, pkg: string)
    requires ms != []
    ensures var k := |ms| - 1;
            WithMessages(reg, mod, ms, pkg) == WithMessage(WithMessages(reg, mod, ms[..k], pkg), mod, ms[k], pkg, [ms[k].name])
  {
  }

  lemma {:induction false} MessagesRecord(reg: Registry, mod: string, ms: seq<Message>, pkg: string,
                                          c: Message, rel: seq<string>, x: Message, n: Message)
    requires c in ms && Through(c, rel, x) && n in x.nested && n.mapEntry
    ensures FqOf(pkg, rel) + "." + n.name in WithMessages(reg, mod, ms, pkg).entries
  {
    var k := |ms| - 1;
    var before := WithMessages(reg, mod, ms[..k], pkg);
    if ms[k] == c {
      MessageRecords(before, mod, ms[k], pkg, [ms[k].name], rel, x, n);
    } else {
      assert c in ms[..k];
      MessagesRecord(reg, mod, ms[..k], pkg, c, rel, x, n);
      MessageAdds(before, mod, ms[k], pkg, [ms[k].name]);
    }
    MessagesLast(reg, mod, ms, pkg);
  }

  lemma {:induction false} MessagesAdd(reg: Registry, mod: string, ms: seq<Message>, pkg: string)
    ensures MoreEntries(reg, WithMessages(reg, mod, ms, pkg))
  {
    if ms != [] {
      var k := |ms| - 1;
      MessagesAdd(reg, mod, ms[..k], pkg);
      MessageAdds(WithMessages(reg, mod, ms[..k], pkg), mod, ms[k], pkg, [ms[k].name]);
    }
  }

  lemma FileAdds(reg: Registry, fd: File)
    ensures MoreEntries(reg, WithFile(reg, fd))
    ensures !WellKnownFile(fd.name) ==>
              WithFile(reg, fd).entries == WithMessages(reg, ModuleName(fd.name), fd.messages, fd.pkg).entries
  {
    if !WellKnownFile(fd.name) {
      var mod := ModuleName(fd.name);
      MessagesAdd(reg, mod, fd.messages, fd.pkg);
      EnumsKeepEntries(WithMessages(reg, mod, fd.messages, fd.pkg), fd.pkg, fd.enums, mod, []);
    }
  }

  lemma FileRecords(reg: Registry, fd: File, path: seq<string>, m: Message, n: Message)
    requires !WellKnownFile(fd.name) && DeclaredAt(fd.messages, path, m) && n in m.nested && n.mapEntry
    ensures path != [] && FqOf(fd.pkg, path) + "." + n.name in WithFile(reg, fd).entries
  {
    var c := Descend(fd.messages, path, m);
    MessagesRecord(reg, ModuleName(fd.name), fd.messages, fd.pkg, c, path, m, n);
    FileAdds(reg, fd);
  }

  lemma {:induction false} FilesRecord(files: seq<File>, fd: File, path: seq<string>, m: Message, n: Message)
    requires fd in files && !WellKnownFile(fd.name) && DeclaredAt(fd.messages, path, m) && n in m.nested && n.mapEntry
    ensures path != [] && FqOf(fd.pkg, path) + "." + n.name in RegistryOf(files).entries
  {
    var k := |files| - 1;
    var before := RegistryOf(files[..k]);
    FileAdds(before, files[k]);
    if files[k] == fd {
      FileRecords(before, fd, path, m, n);
    } else {
      assert fd in files[..k];
      FilesRecord(files[..k], fd, path, m, n);
    }
  }

  /** The registry's map entries are exactly the declared ones, each with the value
      field of one declared under that name. */
  lemma EntriesExact(files: seq<File>, fq: string)
    ensures fq in RegistryOf(files).entries <==> exists value :: EntryHome(files, fq, value)
    ensures fq in RegistryOf(files).entries ==> EntryHome(files, fq, RegistryOf(files).entries[fq])
  {
    FilesEntries(files, files);
    if value :| EntryHome(files, fq, value) {
      var fd, path, m, n :| fd in files && !WellKnownFile(fd.name) && EntryAt(fd, path, m, n, fq, value);
      FilesRecord(files, fd, path, m, n);
    }
  }
}
