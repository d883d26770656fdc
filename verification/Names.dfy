/** The four walks over the descriptors agree: what the registry records,
    checkFile accepts and collectDeps imports is what renderMessage emits. */
module Names {
  import opened Proto
  import opened Registry
  import opened Py

  // ----- paths -----

  /** How a path leads through its first name. */
  ghost predicate Through(top: Message, path: seq<string>, m: Message) {
    && path != [] && top.name == path[0]
    && (if |path| == 1 then m == top else DeclaredAt(Children(top.nested), path[1..], m))
  }

  lemma Descend(ms: seq<Message>, path: seq<string>, m: Message) returns (top: Message)
    requires DeclaredAt(ms, path, m)
    ensures top in ms && Through(top, path, m)
  {
    top :| top in ms && top.name == path[0] &&
      (if |path| == 1 then m == top else DeclaredAt(Children(top.nested), path[1..], m));
  }

  lemma Ascend(ms: seq<Message>, path: seq<string>, m: Message, top: Message)
    requires top in ms && Through(top, path, m)
    ensures DeclaredAt(ms, path, m)
  {
  }

  lemma TopDeclares(ms: seq<Message>, n: Message)
    requires n in ms
    ensures DeclaredAt(ms, [n.name], n)
  {
    Ascend(ms, [n.name], n, n);
  }

  lemma {:induction false} DeclaredBelow(ms: seq<Message>, path: seq<string>, m: Message, n: Message)
    requires DeclaredAt(ms, path, m) && n in Children(m.nested)
    ensures DeclaredAt(ms, path + [n.name], n)
    decreases |path|
  {
    var top := Descend(ms, path, m);
    var longer := path + [n.name];
    assert longer[1..] == path[1..] + [n.name];
    if |path| == 1 {
      assert longer[1..] == [n.name];
      TopDeclares(Children(top.nested), n);
    } else {
      DeclaredBelow(Children(top.nested), path[1..], m, n);
    }
    Ascend(ms, longer, n, top);
  }

  lemma EnumThrough(ms: seq<Message>, es: seq<EnumDecl>, path: seq<string>, top: Message)
    requires |path| > 1 && top in ms && top.name == path[0] && EnumAt(Children(top.nested), top.enums, path[1..])
    ensures EnumAt(ms, es, path)
  {
  }

  lemma EnumHere(ms: seq<Message>, es: seq<EnumDecl>, e: EnumDecl)
    requires e in es
    ensures EnumAt(ms, es, [e.name])
  {
  }

  lemma {:induction false} EnumBelow(ms: seq<Message>, es: seq<EnumDecl>, path: seq<string>, m: Message, e: EnumDecl)
    requires DeclaredAt(ms, path, m) && e in m.enums
    ensures EnumAt(ms, es, path + [e.name])
    decreases |path|
  {
    var top := Descend(ms, path, m);
    var longer := path + [e.name];
    assert longer[1..] == path[1..] + [e.name];
    if |path| == 1 {
      assert longer[1..] == [e.name];
      EnumHere(Children(top.nested), top.enums, e);
    } else {
      EnumBelow(Children(top.nested), top.enums, path[1..], m, e);
    }
    EnumThrough(ms, es, longer, top);
  }

  lemma {:induction false} FqBelow(pkg: string, path: seq<string>, name: string)
    requires path != []
    ensures FqOf(pkg, path + [name]) == FqJoin(FqOf(pkg, path), name)
    decreases |path|
  {
    var longer := path + [name];
    assert longer[1..] == path[1..] + [name];
    if |path| == 1 {
      assert longer[1..] == [name];
    } else {
      FqBelow(FqJoin(pkg, path[0]), path[1..], name);
    }
  }

  // ----- the registry is sound -----

  /** fq is the name of the message declared at id in one of the files. */
  ghost predicate MessageHome(files: seq<File>, fq: string, id: ClassId) {
    exists fd, m :: fd in files && !WellKnownFile(fd.name) && id.mod == ModuleName(fd.name) &&
                    DeclaredAt(fd.messages, id.path, m) && fq == FqOf(fd.pkg, id.path)
  }

  /** Every recorded class is declared where the registry says, under that very
      proto name; one that is not an enum is a message. */
  ghost predicate Sound(files: seq<File>, reg: Registry) {
    forall fq :: fq in reg.byFQ ==>
      && Homes(files, fq, reg.byFQ[fq])
      && (fq !in reg.enumZero ==> MessageHome(files, fq, reg.byFQ[fq]))
  }

  /** The walk stands in file fd. */
  ghost predicate InFile(files: seq<File>, fd: File, mod: string) {
    fd in files && !WellKnownFile(fd.name) && mod == ModuleName(fd.name)
  }

  lemma MessageSound(files: seq<File>, fd: File, reg: Registry, mod: string, m: Message, fq: string, path: seq<string>)
    requires Sound(files, reg) && InFile(files, fd, mod)
    requires DeclaredAt(fd.messages, path, m) && fq == FqOf(fd.pkg, path)
    ensures Sound(files, reg.(byFQ := reg.byFQ[fq := ClassId(mod, path)]))
  {
    var id := ClassId(mod, path);
    assert HomeIn(fd, fq, path);
    assert Homes(files, fq, id) && MessageHome(files, fq, id);
  }

  lemma EnumSound(files: seq<File>, fd: File, reg: Registry, mod: string, scope: string, e: EnumDecl, path: seq<string>)
    requires Sound(files, reg) && InFile(files, fd, mod)
    requires EnumAt(fd.messages, fd.enums, path) && FqJoin(scope, e.name) == FqOf(fd.pkg, path)
    ensures Sound(files, WithEnum(reg, scope, e, ClassId(mod, path)))
  {
    assert HomeIn(fd, FqJoin(scope, e.name), path);
    assert Homes(files, FqJoin(scope, e.name), ClassId(mod, path));
  }

  lemma {:induction false} NestedEnumsSound(files: seq<File>, fd: File, reg: Registry, mod: string, m: Message,
                                            es: seq<EnumDecl>, path: seq<string>)
    requires Sound(files, reg) && InFile(files, fd, mod) && DeclaredAt(fd.messages, path, m)
    requires forall e :: e in es ==> e in m.enums
    ensures Sound(files, WithEnums(reg, FqOf(fd.pkg, path), es, mod, path))
  {
    if es != [] {
      var n := |es| - 1;
      NestedEnumsSound(files, fd, reg, mod, m, es[..n], path);
      EnumBelow(fd.messages, fd.enums, path, m, es[n]);
      FqBelow(fd.pkg, path, es[n].name);
      EnumSound(files, fd, WithEnums(reg, FqOf(fd.pkg, path), es[..n], mod, path), mod, FqOf(fd.pkg, path), es[n],
                path + [es[n].name]);
    }
  }

  lemma {:induction false} TopEnumsSound(files: seq<File>, fd: File, reg: Registry, mod: string, es: seq<EnumDecl>)
    requires Sound(files, reg) && InFile(files, fd, mod)
    requires forall e :: e in es ==> e in fd.enums
    ensures Sound(files, WithEnums(reg, fd.pkg, es, mod, []))
  {
    if es != [] {
      var n := |es| - 1;
      TopEnumsSound(files, fd, reg, mod, es[..n]);
      assert [] + [es[n].name] == [es[n].name];
      assert EnumAt(fd.messages, fd.enums, [es[n].name]);
      EnumSound(files, fd, WithEnums(reg, fd.pkg, es[..n], mod, []), mod, fd.pkg, es[n], [es[n].name]);
    }
  }

  lemma {:induction false} WithMessageSound(files: seq<File>, fd: File, reg: Registry, mod: string, m: Message,
                                            pkg: string, path: seq<string>)
    requires Sound(files, reg) && InFile(files, fd, mod)
    requires DeclaredAt(fd.messages, path, m) && FqJoin(pkg, m.name) == FqOf(fd.pkg, path)
    ensures Sound(files, WithMessage(reg, mod, m, pkg, path))
    decreases m, 1
  {
    var fq := FqJoin(pkg, m.name);
    var r1 := reg.(byFQ := reg.byFQ[fq := ClassId(mod, path)]);
    MessageSound(files, fd, reg, mod, m, fq, path);
    WithNestedSound(files, fd, r1, mod, m, m.nested, path);
    NestedEnumsSound(files, fd, WithNested(r1, mod, m.nested, fq, path), mod, m, m.enums, path);
  }

  lemma {:induction false} WithNestedSound(files: seq<File>, fd: File, reg: Registry, mod: string, m: Message,
                                           ns: seq<Message>, path: seq<string>)
    requires Sound(files, reg) && InFile(files, fd, mod) && DeclaredAt(fd.messages, path, m)
    requires forall n :: n in ns ==> n in m.nested
    ensures Sound(files, WithNested(reg, mod, ns, FqOf(fd.pkg, path), path))
    decreases ns, 0
  {
    if ns != [] {
      var k := |ns| - 1;
      WithNestedSound(files, fd, reg, mod, m, ns[..k], path);
      if !ns[k].mapEntry {
        DeclaredBelow(fd.messages, path, m, ns[k]);
        FqBelow(fd.pkg, path, ns[k].name);
        WithMessageSound(files, fd, WithNested(reg, mod, ns[..k], FqOf(fd.pkg, path), path), mod, ns[k],
                         FqOf(fd.pkg, path), path + [ns[k].name]);
      }
    }
  }

  lemma {:induction false} WithMessagesSound(files: seq<File>, fd: File, reg: Registry, mod: string, ms: seq<Message>)
    requires Sound(files, reg) && InFile(files, fd, mod)
    requires forall m :: m in ms ==> m in fd.messages
    ensures Sound(files, WithMessages(reg, mod, ms, fd.pkg))
  {
    if ms != [] {
      var k := |ms| - 1;
      WithMessagesSound(files, fd, reg, mod, ms[..k]);
      assert DeclaredAt(fd.messages, [ms[k].name], ms[k]);
      WithMessageSound(files, fd, WithMessages(reg, mod, ms[..k], fd.pkg), mod, ms[k], fd.pkg, [ms[k].name]);
    }
  }

  lemma {:induction false} FilesSound(files: seq<File>, fds: seq<File>)
    requires forall fd :: fd in fds ==> fd in files
    ensures Sound(files, RegistryOf(fds))
  {
    if fds != [] {
      var k := |fds| - 1;
      FilesSound(files, fds[..k]);
      if !WellKnownFile(fds[k].name) {
        var mod, reg := ModuleName(fds[k].name), RegistryOf(fds[..k]);
        WithMessagesSound(files, fds[k], reg, mod, fds[k].messages);
        TopEnumsSound(files, fds[k], WithMessages(reg, mod, fds[k].messages, fds[k].pkg), mod, fds[k].enums);
      }
    }
  }

  /** The registry names, for each proto name, the class declared under it. */
  lemma RegistrySound(files: seq<File>)
    ensures Sound(files, RegistryOf(files))
  {
    FilesSound(files, files);
  }

  // ----- the registry is complete -----

  ghost predicate Grows(before: Registry, after: Registry) {
    before.byFQ.Keys <= after.byFQ.Keys
  }

  lemma {:induction false} EnumsGrow(reg: Registry, scope: string, es: seq<EnumDecl>, mod: string, path: seq<string>)
    ensures Grows(reg, WithEnums(reg, scope, es, mod, path))
    ensures forall e :: e in es ==> FqJoin(scope, e.name) in WithEnums(reg, scope, es, mod, path).byFQ
  {
    if es != [] {
      EnumsGrow(reg, scope, es[..|es| - 1], mod, path);
    }
  }

  lemma {:induction false} MessageGrows(reg: Registry, mod: string, m: Message, pkg: string, path: seq<string>)
    ensures Grows(reg, WithMessage(reg, mod, m, pkg, path)) && FqJoin(pkg, m.name) in WithMessage(reg, mod, m, pkg, path).byFQ
    decreases m, 1
  {
    var fq := FqJoin(pkg, m.name);
    var r1 := reg.(byFQ := reg.byFQ[fq := ClassId(mod, path)]);
    NestedGrows(r1, mod, m.nested, fq, path);
    EnumsGrow(WithNested(r1, mod, m.nested, fq, path), fq, m.enums, mod, path);
  }

  lemma {:induction false} NestedGrows(reg: Registry, mod: string, ns: seq<Message>, fq: string, path: seq<string>)
    ensures Grows(reg, WithNested(reg, mod, ns, fq, path))
    decreases ns, 0
  {
    if ns != [] {
      var k := |ns| - 1;
      NestedGrows(reg, mod, ns[..k], fq, path);
      if !ns[k].mapEntry {
        MessageGrows(WithNested(reg, mod, ns[..k], fq, path), mod, ns[k], fq, path + [ns[k].name]);
      }
    }
  }

  /** Something is declared at rest among these messages and enums. */
  ghost predicate Something(ms: seq<Message>, es: seq<EnumDecl>, rest: seq<string>) {
    (exists x :: DeclaredAt(ms, rest, x)) || EnumAt(ms, es, rest)
  }

  /** Something is declared at rel, a path that starts with m. */
  ghost predicate Below(m: Message, rel: seq<string>) {
    && rel != [] && rel[0] == m.name
    && (|rel| == 1 || Something(Children(m.nested), m.enums, rel[1..]))
  }

  ghost predicate EnumNamed(es: seq<EnumDecl>, name: string) {
    exists e :: e in es && e.name == name
  }

  lemma SomethingIs(ms: seq<Message>, es: seq<EnumDecl>, rest: seq<string>)
    requires Something(ms, es, rest)
    ensures rest != []
    ensures (|rest| == 1 && EnumNamed(es, rest[0])) || exists n :: n in ms && Below(n, rest)
  {
    if x :| DeclaredAt(ms, rest, x) {
      var n :| n in ms && n.name == rest[0] &&
        (if |rest| == 1 then x == n else DeclaredAt(Children(n.nested), rest[1..], x));
      assert Below(n, rest);
    } else if |rest| > 1 {
      var n :| n in ms && n.name == rest[0] && EnumAt(Children(n.nested), n.enums, rest[1..]);
      assert Below(n, rest);
    }
  }

  lemma {:induction false} MessageCovers(reg: Registry, mod: string, m: Message, pkg: string, path: seq<string>, rel: seq<string>)
    requires Below(m, rel)
    ensures FqOf(pkg, rel) in WithMessage(reg, mod, m, pkg, path).byFQ
    decreases m, 1
  {
    MessageGrows(reg, mod, m, pkg, path);
    if |rel| > 1 {
      var fq, rest := FqJoin(pkg, m.name), rel[1..];
      var r1 := reg.(byFQ := reg.byFQ[fq := ClassId(mod, path)]);
      var r2 := WithNested(r1, mod, m.nested, fq, path);
      EnumsGrow(r2, fq, m.enums, mod, path);
      SomethingIs(Children(m.nested), m.enums, rest);
      if !(|rest| == 1 && EnumNamed(m.enums, rest[0])) {
        var n :| n in Children(m.nested) && Below(n, rest);
        NestedCovers(r1, mod, m.nested, fq, path, n, rest);
      }
    }
  }

  lemma {:induction false} NestedCovers(reg: Registry, mod: string, ns: seq<Message>, fq: string, path: seq<string>, n: Message, rel: seq<string>)
    requires n in ns && !n.mapEntry && Below(n, rel)
    ensures FqOf(fq, rel) in WithNested(reg, mod, ns, fq, path).byFQ
    decreases ns, 0
  {
    var k := |ns| - 1;
    var before := WithNested(reg, mod, ns[..k], fq, path);
    if ns[k] == n {
      MessageCovers(before, mod, ns[k], fq, path + [ns[k].name], rel);
    } else {
      assert n in ns[..k];
      NestedCovers(reg, mod, ns[..k], fq, path, n, rel);
      if !ns[k].mapEntry {
        MessageGrows(before, mod, ns[k], fq, path + [ns[k].name]);
      }
    }
  }

  lemma {:induction false} MessagesGrow(reg: Registry, mod: string, ms: seq<Message>, pkg: string)
    ensures Grows(reg, WithMessages(reg, mod, ms, pkg))
  {
    if ms != [] {
      var k := |ms| - 1;
      MessagesGrow(reg, mod, ms[..k], pkg);
      MessageGrows(WithMessages(reg, mod, ms[..k], pkg), mod, ms[k], pkg, [ms[k].name]);
    }
  }

  lemma {:induction false} MessagesCover(reg: Registry, mod: string, ms: seq<Message>, pkg: string, n: Message, rel: seq<string>)
    requires n in ms && Below(n, rel)
    ensures FqOf(pkg, rel) in WithMessages(reg, mod, ms, pkg).byFQ
  {
    var k := |ms| - 1;
    var before := WithMessages(reg, mod, ms[..k], pkg);
    if ms[k] == n {
      MessageCovers(before, mod, n, pkg, [n.name], rel);
    } else {
      assert n in ms[..k];
      MessagesCover(reg, mod, ms[..k], pkg, n, rel);
      MessageGrows(before, mod, ms[k], pkg, [ms[k].name]);
    }
  }

  lemma FileGrows(reg: Registry, fd: File)
    ensures Grows(reg, WithFile(reg, fd))
  {
    if !WellKnownFile(fd.name) {
      var mod := ModuleName(fd.name);
      MessagesGrow(reg, mod, fd.messages, fd.pkg);
      EnumsGrow(WithMessages(reg, mod, fd.messages, fd.pkg), fd.pkg, fd.enums, mod, []);
    }
  }

  lemma FileCovers(reg: Registry, fd: File, rel: seq<string>)
    requires !WellKnownFile(fd.name) && Something(fd.messages, fd.enums, rel)
    ensures rel != [] && FqOf(fd.pkg, rel) in WithFile(reg, fd).byFQ
  {
    var mod := ModuleName(fd.name);
    EnumsGrow(WithMessages(reg, mod, fd.messages, fd.pkg), fd.pkg, fd.enums, mod, []);
    SomethingIs(fd.messages, fd.enums, rel);
    if !(|rel| == 1 && EnumNamed(fd.enums, rel[0])) {
      var n :| n in fd.messages && Below(n, rel);
      MessagesCover(reg, mod, fd.messages, fd.pkg, n, rel);
    }
  }

  lemma {:induction false} FilesCover(files: seq<File>, fd: File, rel: seq<string>)
    requires fd in files && !WellKnownFile(fd.name) && Something(fd.messages, fd.enums, rel)
    ensures rel != [] && FqOf(fd.pkg, rel) in RegistryOf(files).byFQ
  {
    var k := |files| - 1;
    var before := RegistryOf(files[..k]);
    if files[k] == fd {
      FileCovers(before, fd, rel);
    } else {
      assert fd in files[..k];
      FilesCover(files[..k], fd, rel);
      FileGrows(before, files[k]);
    }
  }

  /** A message or enum of the request carries the name fq. */
  ghost predicate DeclaredName(files: seq<File>, fq: string) {
    exists id :: Homes(files, fq, id)
  }

  /** The registry's names are exactly the declared ones. */
  lemma RegistryExact(files: seq<File>, fq: string)
    ensures fq in RegistryOf(files).byFQ <==> DeclaredName(files, fq)
  {
    if fq in RegistryOf(files).byFQ {
      RegistrySound(files);
      assert Homes(files, fq, RegistryOf(files).byFQ[fq]);
    }
    if DeclaredName(files, fq) {
      var id :| Homes(files, fq, id);
      var fd :| fd in files && !WellKnownFile(fd.name) && id.mod == ModuleName(fd.name) && HomeIn(fd, fq, id.path);
      FilesCover(files, fd, id.path);
    }
  }
}
