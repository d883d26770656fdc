/** The plugin as a whole: the generated program, its names and its codec. */
module Generator {
  import opened Wrappers
  import opened Proto
  import opened Registry
  import opened Py
  import opened Render
  import opened Schema
  import opened Json
  import opened Names
  import opened Links
  import opened ObjectCodec
  import opened RoundTrip
  import opened Loading
  import opened Entries
  import opened Wire

  // ----- generate -----

  function FindFile(files: seq<File>, name: string): (r: Option<File>)
    ensures r.Some? ==> r.value in files && r.value.name == name
    ensures r.None? ==> forall fd :: fd in files ==> fd.name != name
  {
    if files == [] then None
    else if files[0].name == name then Some(files[0])
    else FindFile(files[1..], name)
  }

  /** The module of one file; None when the file is absent or unresolved, or when
      rendering panics. */
  function ModuleOfFile(files: seq<File>, name: string, reg: Registry): Option<PyModule> {
    match FindFile(files, name)
    case None => None
    case Some(fd) => if CheckFile(fd, reg).Some? then None else RenderModule(fd, reg)
  }

  /** One module per wanted file, unless one fails. */
  function Generate(files: seq<File>, wanted: seq<string>, reg: Registry): Option<Program> {
    if wanted == [] then Some(map[])
    else
      var last := wanted[|wanted| - 1];
      match Generate(files, wanted[..|wanted| - 1], reg)
      case None => None
      case Some(p) =>
        match ModuleOfFile(files, last, reg)
        case None => None
        case Some(m) => Some(p[ModuleName(last) := m])
  }

  method Run(files: seq<File>, wanted: seq<string>) returns (r: Option<Program>)
    ensures r == Generate(files, wanted, RegistryOf(files))
  {
    var builder := BuildRegistry(files);
    var reg := builder.Value();
    var p: Program := map[];
    for i := 0 to |wanted|
      invariant Generate(files, wanted[..i], reg) == Some(p)
    {
      assert wanted[..i + 1][..i] == wanted[..i];
      var fd := FindFile(files, wanted[i]);
      var failed := fd == None || CheckFile(fd.value, reg).Some? || RenderModule(fd.value, reg) == None;
      if failed {
        FailureEnds(files, wanted, i + 1, reg);
        return None;
      }
      p := p[ModuleName(fd.value.name) := RenderModule(fd.value, reg).value];
    }
    assert wanted[..|wanted|] == wanted;
    return Some(p);
  }

  lemma FailureEnds(files: seq<File>, wanted: seq<string>, i: nat, reg: Registry)
    requires i <= |wanted| && Generate(files, wanted[..i], reg) == None
    ensures Generate(files, wanted, reg) == None
  {
    FailureStays(files, wanted[..i], wanted[i..], reg);
    assert wanted[..i] + wanted[i..] == wanted;
  }

  lemma {:induction false} FailureStays(files: seq<File>, before: seq<string>, after: seq<string>, reg: Registry)
    requires Generate(files, before, reg) == None
    ensures Generate(files, before + after, reg) == None
    decreases |after|
  {
    if after == [] {
      assert before + after == before;
    } else {
      var k := |after| - 1;
      FailureStays(files, before, after[..k], reg);
      assert before + after == (before + after[..k]) + [after[k]];
      FailureStep(files, before + after[..k], after[k], reg);
    }
  }

  lemma FailureStep(files: seq<File>, before: seq<string>, name: string, reg: Registry)
    requires Generate(files, before, reg) == None
    ensures Generate(files, before + [name], reg) == None
  {
    assert (before + [name])[..|before|] == before;
  }

  /** A map entry of that name is declared in the request. */
  ghost predicate DeclaredEntry(files: seq<File>, fq: string) {
    exists value :: EntryHome(files, fq, value)
  }

  /** A reference to a message, enum or map entry the request declares, or to a
      time type. */
  ghost predicate FieldDeclared(files: seq<File>, f: Field) {
    f.typ.TMessage? || f.typ.TEnum? ==>
      DeclaredName(files, f.typeName) || DeclaredEntry(files, f.typeName) || WellKnown(f.typeName)
  }

  ghost predicate AllDeclared(files: seq<File>, fd: File) {
    forall path, m, f :: DeclaredAt(fd.messages, path, m) && f in m.fields ==> FieldDeclared(files, f)
  }

  /** A file is accepted exactly when everything its fields name is declared
      somewhere in the request. */
  lemma AcceptsDeclared(files: seq<File>, fd: File)
    ensures CheckFile(fd, RegistryOf(files)).None? <==> AllDeclared(files, fd)
  {
    CheckFileExact(fd, RegistryOf(files));
    forall f ensures FieldResolves(f, RegistryOf(files)) <==> FieldDeclared(files, f) {
      RegistryExact(files, f.typeName);
      EntriesExact(files, f.typeName);
    }
  }

  // ----- schemas -----

  /** Every enum has a value, and identifiers for the names of its values. */
  ghost predicate GoodEnums(es: seq<EnumDecl>) {
    forall i :: 0 <= i < |es| ==> es[i].values != [] && forall j :: 0 <= j < |es[i].values| ==> IsIdent(es[i].values[j].0)
  }

  /** The file's name can stand in the module's docstring as it is. */
  predicate PlainName(name: string) {
    '"' !in name && '\\' !in name
  }

  ghost predicate GoodFile(files: seq<File>, fd: File) {
    && PlainName(fd.name) && GoodEnums(fd.enums)
    && Distinct(ScopeNames(fd.messages, fd.enums)) && DistinctBelow(fd.messages)
    && (forall i :: 0 <= i < |ScopeNames(fd.messages, fd.enums)| ==> ClassName(files, ScopeNames(fd.messages, fd.enums)[i]))
    && (forall path, m :: DeclaredAt(fd.messages, path, m) ==> GoodDeclared(RegistryOf(files), m))
  }

  /** A CamelCase name that is not also the name of a generated module. */
  ghost predicate ClassName(files: seq<File>, name: string) {
    && IsIdent(name) && 'A' <= name[0] <= 'Z'
    && forall fd :: fd in files ==> name != ModuleName(fd.name)
  }

  /** A message protoc lets through: its message fields name no enum, its nested
      messages and enums have identifiers for names. */
  ghost predicate GoodDeclared(reg: Registry, m: Message) {
    && GoodMessage(m, reg) && Idents(Scope(m)) && GoodEnums(m.enums)
    && forall i :: 0 <= i < |m.fields| ==> (m.fields[i].typ.TMessage? ==> m.fields[i].typeName !in reg.enumZero)
  }

  /** The request asks for this file. */
  ghost predicate Wants(files: seq<File>, wanted: seq<string>, fd: File) {
    fd in files && fd.name in wanted
  }

  /** The file enters the registry or is rendered. */
  ghost predicate Takes(files: seq<File>, wanted: seq<string>, fd: File) {
    fd in files && (fd.name in wanted || !WellKnownFile(fd.name))
  }

  ghost predicate SameModule(a: File, b: File) {
    ModuleName(a.name) == ModuleName(b.name)
  }

  /** The files have distinct module names, and those asked for good contents. */
  ghost predicate WellFormed(files: seq<File>, wanted: seq<string>) {
    && (forall a, b :: Takes(files, wanted, a) && Takes(files, wanted, b) && SameModule(a, b) ==> a == b)
    && (forall fd :: Wants(files, wanted, fd) ==> GoodFile(files, fd))
  }

  // ----- what makes a schema safe -----

  /** The module can be named, no class is called like a keyword, every message's
      names are safe, every oneof has two arms, and no class hides the oneof error
      where a oneof may raise it. */
  ghost predicate SafeFile(reg: Registry, fd: File) {
    && Nameable(ModuleName(fd.name))
    && NoKeywords(ScopeNames(fd.messages, fd.enums)) && KeywordFree(fd.messages)
    && (forall path, m :: DeclaredAt(fd.messages, path, m) ==> SafeMessage(reg, fd, m))
  }

  ghost predicate SafeMessage(reg: Registry, fd: File, m: Message) {
    && SafeNames(m, reg) && ArmsPaired(m)
    && (HasArms(m) ==> "ValueError" !in ScopeNames(fd.messages, fd.enums))
  }

  /** mod is the module of a file asked for. */
  ghost predicate WantedModule(files: seq<File>, wanted: seq<string>, mod: string) {
    exists fd :: Wants(files, wanted, fd) && mod == ModuleName(fd.name)
  }

  /** With a file, the request asks for the files it refers to. */
  ghost predicate Closed(files: seq<File>, wanted: seq<string>) {
    forall fd, d :: Wants(files, wanted, fd) && Refers(fd.messages, RegistryOf(files), ModuleName(fd.name), d) ==>
      WantedModule(files, wanted, d)
  }

  ghost predicate Safe(files: seq<File>, wanted: seq<string>) {
    && Closed(files, wanted)
    && forall fd :: Wants(files, wanted, fd) ==> SafeFile(RegistryOf(files), fd)
  }

  /** id is the class of message m of a file asked for. */
  ghost predicate Declares(files: seq<File>, wanted: seq<string>, id: ClassId, m: Message) {
    exists fd :: Wants(files, wanted, fd) && id.mod == ModuleName(fd.name) && DeclaredAt(fd.messages, id.path, m)
  }

  ghost predicate HasMessage(files: seq<File>, wanted: seq<string>, id: ClassId) {
    exists m :: Declares(files, wanted, id, m)
  }

  ghost function MessageOf(files: seq<File>, wanted: seq<string>, id: ClassId): (m: Message)
    requires HasMessage(files, wanted, id)
    ensures Declares(files, wanted, id, m)
  {
    var m :| Declares(files, wanted, id, m);
    m
  }

  /** The message declared for each class of the files asked for. */
  ghost function TableOf(files: seq<File>, wanted: seq<string>): Table {
    imap id | HasMessage(files, wanted, id) :: MessageOf(files, wanted, id)
  }

  /** The file that declares a class of the table. */
  lemma FileOf(files: seq<File>, wanted: seq<string>, id: ClassId, m: Message) returns (fd: File)
    requires Declares(files, wanted, id, m)
    ensures Wants(files, wanted, fd) && Takes(files, wanted, fd)
    ensures id.mod == ModuleName(fd.name) && DeclaredAt(fd.messages, id.path, m)
  {
    fd :| Wants(files, wanted, fd) && id.mod == ModuleName(fd.name) && DeclaredAt(fd.messages, id.path, m);
  }

  // ----- the generated program links -----

  /** The file passed checkFile and is rendered in p. */
  ghost predicate InProgram(p: Program, reg: Registry, fd: File) {
    var mod := ModuleName(fd.name);
    CheckFile(fd, reg).None? && mod in p && RenderModule(fd, reg) == Some(p[mod])
  }

  lemma GenerateStep(files: seq<File>, wanted: seq<string>, reg: Registry, p: Program) returns (before: Program, fd: File)
    requires wanted != [] && Generate(files, wanted, reg) == Some(p)
    ensures Generate(files, wanted[..|wanted| - 1], reg) == Some(before)
    ensures fd in files && fd.name == wanted[|wanted| - 1] && InProgram(p, reg, fd)
    ensures forall mod :: mod != ModuleName(fd.name) && mod in before ==> mod in p && p[mod] == before[mod]
    ensures forall mod :: mod in p ==> mod in before || mod == ModuleName(fd.name)
  {
    before := Generate(files, wanted[..|wanted| - 1], reg).value;
    fd := FindFile(files, wanted[|wanted| - 1]).value;
  }

  /** Every file asked for is in the program. */
  lemma {:induction false} GeneratedModule(files: seq<File>, wanted: seq<string>, asked: seq<string>, reg: Registry, p: Program, fd: File)
    requires WellFormed(files, wanted) && Generate(files, asked, reg) == Some(p)
    requires (forall name :: name in asked ==> name in wanted) && fd in files && fd.name in asked
    ensures InProgram(p, reg, fd)
    decreases |asked|
  {
    var k := |asked| - 1;
    var before, last := GenerateStep(files, asked, reg, p);
    assert Takes(files, wanted, fd) && Takes(files, wanted, last);
    if SameModule(last, fd) {
      assert last == fd;
    } else {
      assert fd.name in asked[..k];
      GeneratedModule(files, wanted, asked[..k], reg, before, fd);
    }
  }

  lemma ModuleIsNoLocal(name: string)
    ensures ModuleName(name) !in LOCALS
  {
    var s := ModuleName(name);
    assert s[|s| - 1] == 'b';
  }

  lemma CamelIsNoLocal(name: string)
    requires name != "" && 'A' <= name[0] <= 'Z'
    ensures name !in LOCALS
  {
  }

  lemma ScopeName(files: seq<File>, fd: File, n: Message)
    requires GoodFile(files, fd) && n in fd.messages
    ensures ClassName(files, n.name)
  {
    var k :| 0 <= k < |fd.messages| && fd.messages[k] == n;
    assert ScopeNames(fd.messages, fd.enums)[|fd.enums| + k] == n.name;
  }

  lemma TopName(files: seq<File>, fd: File, path: seq<string>, m: Message) returns (n: Message)
    requires GoodFile(files, fd) && DeclaredAt(fd.messages, path, m)
    ensures n in fd.messages && n.name == path[0] && ClassName(files, n.name)
  {
    n :| n in fd.messages && n.name == path[0] &&
      (if |path| == 1 then m == n else DeclaredAt(Children(n.nested), path[1..], m));
    ScopeName(files, fd, n);
  }

  /** A class of the module itself is reached by its path. */
  lemma LocalRef(files: seq<File>, reg: Registry, p: Program, fd: File, path: seq<string>, m: Message)
    requires GoodFile(files, fd) && InProgram(p, reg, fd)
    requires DeclaredAt(fd.messages, path, m)
    ensures Resolve(p, ModuleName(fd.name), path) == Some(ClassId(ModuleName(fd.name), path))
  {
    var n := TopName(files, fd, path, m);
    CamelIsNoLocal(n.name);
    var cs := RenderTop(fd.messages, reg, ModuleName(fd.name)).value;
    ScopeBinds(fd.messages, fd.enums, reg, ModuleName(fd.name), cs, n);
  }

  lemma NoClassNamed(files: seq<File>, reg: Registry, fd: File, mod: string, other: File)
    requires GoodFile(files, fd) && RenderModule(fd, reg).Some? && other in files && mod == ModuleName(other.name)
    ensures Named(RenderModule(fd, reg).value.classes, mod) == None
  {
    var current := ModuleName(fd.name);
    var cs := RenderTop(fd.messages, reg, current).value;
    ScopeClasses(fd.messages, fd.enums, reg, current, cs);
    assert forall i :: 0 <= i < |ScopeNames(fd.messages, fd.enums)| ==> ScopeNames(fd.messages, fd.enums)[i] != mod;
    NamedNone(EnumClasses(fd.enums) + cs, mod);
  }

  /** A class of an imported sibling is reached through the module's name. */
  lemma SiblingRef(files: seq<File>, reg: Registry, p: Program, fd: File, other: File, path: seq<string>)
    requires GoodFile(files, fd) && InProgram(p, reg, fd)
    requires other in files && ModuleName(other.name) in p[ModuleName(fd.name)].imports
    ensures Resolve(p, ModuleName(fd.name), [ModuleName(other.name)] + path) == Some(ClassId(ModuleName(other.name), path))
  {
    var mod := ModuleName(other.name);
    ModuleIsNoLocal(other.name);
    NoClassNamed(files, reg, fd, mod, other);
    var ref := [mod] + path;
    assert ref[0] == mod && ref[1..] == path;
  }

  /** The home of a message field's type. */
  lemma FieldHome(files: seq<File>, fd: File, path: seq<string>, m: Message, f: Field) returns (home: File, target: Message)
    requires CheckFile(fd, RegistryOf(files)).None? && DeclaredAt(fd.messages, path, m) && f in m.fields
    requires f.typ.TMessage? && !WellKnown(f.typeName) && !IsMap(f, RegistryOf(files))
    requires f.typeName !in RegistryOf(files).enumZero
    ensures f.typeName in RegistryOf(files).byFQ
    ensures var id := RegistryOf(files).byFQ[f.typeName];
            && InFile(files, home, id.mod) && DeclaredAt(home.messages, id.path, target)
            && f.typeName == FqOf(home.pkg, id.path)
  {
    var reg := RegistryOf(files);
    CheckedField(fd.messages, fd.pkg, reg, path, m, f);
    RegistrySound(files);
    var id := reg.byFQ[f.typeName];
    assert MessageHome(files, f.typeName, id);
    home, target :| home in files && !WellKnownFile(home.name) && id.mod == ModuleName(home.name) &&
      DeclaredAt(home.messages, id.path, target) && f.typeName == FqOf(home.pkg, id.path);
  }

  lemma FieldIsLinked(files: seq<File>, wanted: seq<string>, p: Program, fd: File, path: seq<string>, m: Message, f: Field)
    requires WellFormed(files, wanted) && Closed(files, wanted) && Wants(files, wanted, fd)
    requires InProgram(p, RegistryOf(files), fd)
    requires DeclaredAt(fd.messages, path, m) && f in m.fields && GoodDeclared(RegistryOf(files), m)
    ensures FieldLinks(p, RegistryOf(files), TableOf(files, wanted), ModuleName(fd.name), f)
  {
    var reg, current := RegistryOf(files), ModuleName(fd.name);
    TimeReachesField(files, p, fd, path, m, f);
    if f.typ.TMessage? && !WellKnown(f.typeName) && !IsMap(f, reg) {
      ReferenceLinks(files, wanted, p, fd, path, m, f);
    }
  }

  /** A module whose fields use time types has the time helpers. */
  lemma TimeReachesField(files: seq<File>, p: Program, fd: File, path: seq<string>, m: Message, f: Field)
    requires InProgram(p, RegistryOf(files), fd) && DeclaredAt(fd.messages, path, m) && f in m.fields
    ensures FieldUsesTime(f, RegistryOf(files), ModuleName(fd.name)) ==> HasTime(p, ModuleName(fd.name))
  {
    if FieldUsesTime(f, RegistryOf(files), ModuleName(fd.name)) {
      TimeReaches(fd.messages, RegistryOf(files), ModuleName(fd.name), path, m, f);
    }
  }

  /** Distinct module names: a taken file with the module of a wanted one is that
      file. */
  lemma OneModule(files: seq<File>, wanted: seq<string>, home: File, fd: File)
    requires WellFormed(files, wanted) && Takes(files, wanted, home) && Wants(files, wanted, fd) && SameModule(home, fd)
    ensures Wants(files, wanted, home) && home == fd
  {
    assert Takes(files, wanted, fd);
  }

  lemma RefersTo(ms: seq<Message>, reg: Registry, current: string, d: string, path: seq<string>, m: Message, f: Field)
    requires DeclaredAt(ms, path, m) && f in m.fields && d in FieldDep(f, reg, current)
    ensures Refers(ms, reg, current, d)
  {
  }

  lemma ReferredIsWanted(files: seq<File>, wanted: seq<string>, fd: File, d: string) returns (other: File)
    requires Closed(files, wanted) && Wants(files, wanted, fd)
    requires Refers(fd.messages, RegistryOf(files), ModuleName(fd.name), d)
    ensures Wants(files, wanted, other) && d == ModuleName(other.name)
  {
    assert WantedModule(files, wanted, d);
    other :| Wants(files, wanted, other) && d == ModuleName(other.name);
  }

  /** A file that declares what a wanted one refers to is wanted. */
  lemma HomeIsWanted(files: seq<File>, wanted: seq<string>, fd: File, home: File)
    requires WellFormed(files, wanted) && Closed(files, wanted) && Wants(files, wanted, fd) && Takes(files, wanted, home)
    requires Refers(fd.messages, RegistryOf(files), ModuleName(fd.name), ModuleName(home.name))
    ensures Wants(files, wanted, home)
  {
    var other := ReferredIsWanted(files, wanted, fd, ModuleName(home.name));
    OneModule(files, wanted, home, other);
  }

  lemma ReferenceLinks(files: seq<File>, wanted: seq<string>, p: Program, fd: File, path: seq<string>, m: Message, f: Field)
    requires WellFormed(files, wanted) && Closed(files, wanted) && Wants(files, wanted, fd)
    requires InProgram(p, RegistryOf(files), fd)
    requires DeclaredAt(fd.messages, path, m) && f in m.fields && GoodDeclared(RegistryOf(files), m)
    requires f.typ.TMessage? && !WellKnown(f.typeName) && !IsMap(f, RegistryOf(files))
    ensures var reg := RegistryOf(files);
            && f.typeName in reg.byFQ && reg.byFQ[f.typeName] in TableOf(files, wanted)
            && Resolve(p, ModuleName(fd.name), RefTo(reg.byFQ[f.typeName], ModuleName(fd.name))) == Some(reg.byFQ[f.typeName])
  {
    var reg, current := RegistryOf(files), ModuleName(fd.name);
    var home, target := FieldHome(files, fd, path, m, f);
    var id := reg.byFQ[f.typeName];
    if id.mod == current {
      OneModule(files, wanted, home, fd);
      LocalRef(files, reg, p, fd, id.path, target);
    } else {
      assert FieldDep(f, reg, current) == {id.mod};
      RefersTo(fd.messages, reg, current, id.mod, path, m, f);
      HomeIsWanted(files, wanted, fd, home);
      ImportsCover(fd.messages, reg, current, path, m, f);
      SiblingRef(files, reg, p, fd, home, id.path);
    }
    assert Declares(files, wanted, id, target);
  }

  lemma ClassIsLinked(files: seq<File>, wanted: seq<string>, p: Program, id: ClassId, m: Message)
    requires WellFormed(files, wanted) && Closed(files, wanted)
    requires Generate(files, wanted, RegistryOf(files)) == Some(p) && Declares(files, wanted, id, m)
    ensures ClassRendered(p, RegistryOf(files), TableOf(files, wanted), id, m)
  {
    var reg := RegistryOf(files);
    var fd := FileOf(files, wanted, id, m);
    GeneratedModule(files, wanted, wanted, reg, p, fd);
    EmittedAt(fd.messages, fd.enums, reg, id.mod, RenderTop(fd.messages, reg, id.mod).value, id.path, m);
    assert GoodDeclared(reg, m);
    forall i | 0 <= i < |m.fields| ensures FieldLinks(p, reg, TableOf(files, wanted), id.mod, m.fields[i]) {
      FieldIsLinked(files, wanted, p, fd, id.path, m, m.fields[i]);
    }
  }

  /** The modules of a request that asks for all it refers to run the code of the
      schema's messages, and every class they name is the one the schema means. */
  lemma GeneratedLinks(files: seq<File>, wanted: seq<string>, p: Program)
    requires GeneratedFrom(files, wanted, p) && Closed(files, wanted)
    ensures Linked(p, RegistryOf(files), TableOf(files, wanted))
  {
    var reg, t := RegistryOf(files), TableOf(files, wanted);
    forall id | id in t ensures ClassRendered(p, reg, t, id, t[id]) {
      ClassIsLinked(files, wanted, p, id, t[id]);
    }
  }

  // ----- the generated classes run -----

  /** p is generated from a well-formed request. */
  ghost predicate GeneratedFrom(files: seq<File>, wanted: seq<string>, p: Program) {
    WellFormed(files, wanted) && Generate(files, wanted, RegistryOf(files)) == Some(p)
  }

  lemma FileInProgram(files: seq<File>, wanted: seq<string>, p: Program, fd: File)
    requires GeneratedFrom(files, wanted, p) && Wants(files, wanted, fd)
    ensures InProgram(p, RegistryOf(files), fd)
  {
    GeneratedModule(files, wanted, wanted, RegistryOf(files), p, fd);
  }

  lemma FileIsGood(files: seq<File>, wanted: seq<string>, fd: File)
    requires WellFormed(files, wanted) && Wants(files, wanted, fd)
    ensures AllGood(fd.messages, RegistryOf(files))
  {
    assert GoodFile(files, fd);
    forall path, x | DeclaredAt(fd.messages, path, x) ensures GoodMessage(x, RegistryOf(files)) {
      assert GoodDeclared(RegistryOf(files), x);
    }
  }

  lemma BodiesAreSafe(files: seq<File>, wanted: seq<string>, fd: File)
    requires Safe(files, wanted) && Wants(files, wanted, fd)
    ensures BodiesLoad(fd.messages, RegistryOf(files))
  {
    assert SafeFile(RegistryOf(files), fd);
    forall path, x | DeclaredAt(fd.messages, path, x) ensures BodyLoads(x, RegistryOf(files)) {
      assert SafeMessage(RegistryOf(files), fd, x);
    }
  }

  lemma {:induction false} BodiesBelow(ms: seq<Message>, reg: Registry, path: seq<string>, m: Message)
    requires AllGood(ms, reg) && BodiesLoad(ms, reg) && DeclaredAt(ms, path, m)
    ensures AllGood(Children(m.nested), reg) && BodiesLoad(Children(m.nested), reg)
    decreases |path|
  {
    var n := Descend(ms, path, m);
    AllGoodInside(ms, reg, n);
    BodiesLoadSplits(ms, reg);
    if |path| > 1 {
      BodiesBelow(Children(n.nested), reg, path[1..], m);
    }
  }

  lemma ErrorIsFree(files: seq<File>, p: Program, fd: File)
    requires InProgram(p, RegistryOf(files), fd)
    ensures HidesErrors(p, ModuleName(fd.name)) <==> "ValueError" in ScopeNames(fd.messages, fd.enums)
  {
    var reg, mod := RegistryOf(files), ModuleName(fd.name);
    var cs := RenderTop(fd.messages, reg, mod).value;
    ScopeClasses(fd.messages, fd.enums, reg, mod, cs);
    NamedSome(EnumClasses(fd.enums) + cs, "ValueError");
    NamesOf(ScopeNames(fd.messages, fd.enums), EnumClasses(fd.enums) + cs, "ValueError");
  }

  lemma NamesOf(names: seq<string>, classes: seq<PyClass>, name: string)
    requires |names| == |classes| && forall i :: 0 <= i < |names| ==> classes[i].name == names[i]
    ensures name in names <==> exists i :: 0 <= i < |classes| && classes[i].name == name
  {
    if name in names {
      var i :| 0 <= i < |names| && names[i] == name;
      assert classes[i].name == name;
    }
  }

  lemma ClassIsRun(files: seq<File>, wanted: seq<string>, p: Program, id: ClassId)
    requires GeneratedFrom(files, wanted, p) && Safe(files, wanted) && id in TableOf(files, wanted)
    ensures ClassRuns(p, RegistryOf(files), id, TableOf(files, wanted)[id])
  {
    var reg, m := RegistryOf(files), TableOf(files, wanted)[id];
    GeneratedLinks(files, wanted, p);
    assert ClassRendered(p, reg, TableOf(files, wanted), id, m);
    var gs := ClassBody(p, reg, TableOf(files, wanted), id);
    var fd := FileOf(files, wanted, id, m);
    assert SafeFile(reg, fd) && SafeMessage(reg, fd, m);
    FileIsGood(files, wanted, fd);
    BodiesAreSafe(files, wanted, fd);
    BodiesBelow(fd.messages, reg, id.path, m);
    MessageMeans(m, reg, id.mod, ClassOf(p, id).value, gs);
    FileInProgram(files, wanted, p, fd);
    ErrorIsFree(files, p, fd);
  }

  lemma ProgramRuns(files: seq<File>, wanted: seq<string>, p: Program)
    requires GeneratedFrom(files, wanted, p) && Safe(files, wanted)
    ensures AllRun(p, RegistryOf(files), TableOf(files, wanted))
  {
    forall id | id in TableOf(files, wanted) ensures ClassRuns(p, RegistryOf(files), id, TableOf(files, wanted)[id]) {
      ClassIsRun(files, wanted, p, id);
    }
  }

  // ----- the theorems -----

  /** For every value of every message type of a safe request: a set fixed32 or
      fixed64 field, or a datetime without a reading in UTC, makes to_dict raise;
      else to_dict raises exactly on a oneof set twice, and otherwise emits exactly
      the present fields, each in the form of its proto type, from which from_dict gives the value back, up to -0.0 in a
      plain float, time zones and, through JSON text, the type of map keys. */
  lemma CodecBehaves(files: seq<File>, wanted: seq<string>, p: Program, id: ClassId, v: Val)
    requires GeneratedFrom(files, wanted, p) && Safe(files, wanted) && ObjTyped(TableOf(files, wanted), RegistryOf(files), id, v)
    ensures Behaves(p, RegistryOf(files), TableOf(files, wanted), id, v)
    ensures WritesWire(p, RegistryOf(files), TableOf(files, wanted), v)
  {
    var reg, t := RegistryOf(files), TableOf(files, wanted);
    GeneratedLinks(files, wanted, p);
    ProgramRuns(files, wanted, p);
    ObjectRoundTrip(p, reg, t, id, v);
    if !Conflict(t, v) && !Stuck(t, v) {
      ObjectWritten(p, reg, t, id, v);
    }
  }

  /** What can be encoded is written in its wire form. */
  ghost predicate WritesWire(p: Program, reg: Registry, t: Table, v: Val) {
    !Conflict(t, v) && !Stuck(t, v) ==> RunToDict(p, v).Ok? && ObjectWire(t, reg, v, RunToDict(p, v).value)
  }

  lemma CodecRoundTrips(files: seq<File>, wanted: seq<string>, p: Program, id: ClassId, v: Val)
    requires GeneratedFrom(files, wanted, p) && Safe(files, wanted) && ObjTyped(TableOf(files, wanted), RegistryOf(files), id, v)
    requires !Stuck(TableOf(files, wanted), v)
    ensures RoundTrips(p, RegistryOf(files), TableOf(files, wanted), id, v)
  {
    CodecBehaves(files, wanted, p, id, v);
  }

  /** to_dict succeeds exactly where no oneof is set twice, no fixed32 or fixed64
      field is set and every datetime has a reading in UTC, anywhere in the value. */
  lemma EncodesExactly(files: seq<File>, wanted: seq<string>, p: Program, id: ClassId, v: Val)
    requires GeneratedFrom(files, wanted, p) && Safe(files, wanted) && ObjTyped(TableOf(files, wanted), RegistryOf(files), id, v)
    ensures RunToDict(p, v).Ok? <==> !Conflict(TableOf(files, wanted), v) && !Stuck(TableOf(files, wanted), v)
  {
    CodecBehaves(files, wanted, p, id, v);
    BehavingEncodes(p, RegistryOf(files), TableOf(files, wanted), id, v);
  }

  lemma BehavingEncodes(p: Program, reg: Registry, t: Table, id: ClassId, v: Val)
    requires Behaves(p, reg, t, id, v)
    ensures RunToDict(p, v).Ok? <==> !Conflict(t, v) && !Stuck(t, v)
  {
  }

  /** to_dict yields exactly the wire form that the proto types of the value's
      fields call for: nothing else is one. */
  lemma ToDictExact(files: seq<File>, wanted: seq<string>, p: Program, id: ClassId, v: Val)
    requires GeneratedFrom(files, wanted, p) && Safe(files, wanted) && ObjTyped(TableOf(files, wanted), RegistryOf(files), id, v)
    requires !Conflict(TableOf(files, wanted), v) && !Stuck(TableOf(files, wanted), v)
    ensures RunToDict(p, v).Ok?
    ensures forall w :: ObjectWire(TableOf(files, wanted), RegistryOf(files), v, w) <==> RunToDict(p, v) == Ok(w)
  {
    var reg, t := RegistryOf(files), TableOf(files, wanted);
    CodecBehaves(files, wanted, p, id, v);
    OnlyWire(t, reg, v, RunToDict(p, v).value);
  }

  /** The round trip is the identity exactly on the values whose times are in
      UTC and whose plain floats are not -0.0. */
  lemma CodecIdentity(files: seq<File>, wanted: seq<string>, p: Program, id: ClassId, v: Val)
    requires GeneratedFrom(files, wanted, p) && Safe(files, wanted) && ObjTyped(TableOf(files, wanted), RegistryOf(files), id, v)
    requires !Conflict(TableOf(files, wanted), v) && !Stuck(TableOf(files, wanted), v)
    ensures RunToDict(p, v).Ok?
    ensures RunFromDict(p, id, RunToDict(p, v).value) == Ok(v) <==> Canonical(TableOf(files, wanted), v)
  {
    CodecRoundTrips(files, wanted, p, id, v);
    NormFixes(TableOf(files, wanted), v);
    RoundTripIs(p, RegistryOf(files), TableOf(files, wanted), id, v);
  }

  lemma RoundTripIs(p: Program, reg: Registry, t: Table, id: ClassId, v: Val)
    requires RoundTrips(p, reg, t, id, v) && !Conflict(t, v) && Fixes(t, v)
    ensures RunToDict(p, v).Ok?
    ensures RunFromDict(p, id, RunToDict(p, v).value) == Ok(v) <==> Canonical(t, v)
  {
  }

  /** Through JSON text, a value comes back with the keys of its maps as strings:
      the value itself, up to normal form, exactly when they all were. */
  lemma JsonTextExact(files: seq<File>, wanted: seq<string>, p: Program, id: ClassId, v: Val)
    requires GeneratedFrom(files, wanted, p) && Safe(files, wanted) && ObjTyped(TableOf(files, wanted), RegistryOf(files), id, v)
    requires !Conflict(TableOf(files, wanted), v) && !Stuck(TableOf(files, wanted), v)
    ensures RunToDict(p, v).Ok?
    ensures var read := RunFromDict(p, id, OverJson(RunToDict(p, v).value));
            && read == Ok(OverJson(Norm(TableOf(files, wanted), v)))
            && (read == Ok(Norm(TableOf(files, wanted), v)) <==> StringKeys(v))
  {
    var t := TableOf(files, wanted);
    CodecBehaves(files, wanted, p, id, v);
    TextIs(p, RegistryOf(files), t, id, v);
    JsonKeeps(Norm(t, v));
    NormKeepsKeys(t, v);
  }

  lemma TextIs(p: Program, reg: Registry, t: Table, id: ClassId, v: Val)
    requires Behaves(p, reg, t, id, v) && !Conflict(t, v) && !Stuck(t, v)
    ensures RunToDict(p, v).Ok? && RunFromDict(p, id, OverJson(RunToDict(p, v).value)) == Ok(OverJson(Norm(t, v)))
  {
  }

  /** The expression calls from_dict on the class spelled ref. */
  predicate Mentions(e: Expr, ref: seq<string>) {
    match e
    case FromDict(r) => r == ref
    case ListComp(x) => Mentions(x, ref)
    case DictComp(x) => Mentions(x, ref)
    case _ => false
  }

  lemma KindMentions(m: Message, f: Field, reg: Registry, current: string, g: GenField, ref: seq<string>)
    requires Rendered(m, f, reg, current, g) && Mentions(DecodeExpr(g.kind), ref) && !Fixed(f)
    ensures f.typ.TMessage? && !WellKnown(f.typeName) && !IsMap(f, reg)
    ensures f.typeName in reg.byFQ ==> ref == RefTo(reg.byFQ[f.typeName], current)
  {
    MentionsMessage(g.kind, ref);
    KindIsMessage(m, f, reg, current, g);
  }

  /** The message a codec tag names, if it names one. */
  function RefOf(k: Kind): seq<string> {
    if k.KMsg? then k.ref else if k.KList? && k.inner.KMsg? then k.inner.ref else []
  }

  predicate NamesMessage(k: Kind) {
    k.KMsg? || (k.KList? && k.inner.KMsg?)
  }

  lemma MentionsMessage(k: Kind, ref: seq<string>)
    requires Mentions(DecodeExpr(k), ref)
    ensures NamesMessage(k) && RefOf(k) == ref
  {
  }

  lemma KindIsMessage(m: Message, f: Field, reg: Registry, current: string, g: GenField)
    requires Rendered(m, f, reg, current, g) && !Fixed(f) && NamesMessage(g.kind)
    ensures f.typ.TMessage? && !WellKnown(f.typeName) && !IsMap(f, reg)
    ensures f.typeName in reg.byFQ ==> RefOf(g.kind) == RefTo(reg.byFQ[f.typeName], current)
  {
  }

  /** target is a message class that a module's code reaches: its own or an
      imported sibling's, emitted at exactly that path, and declared under the
      proto name the field spells. */
  ghost predicate Reaches(files: seq<File>, wanted: seq<string>, p: Program, from: ClassId, f: Field, target: ClassId) {
    && from.mod in p && (target.mod == from.mod || target.mod in p[from.mod].imports)
    && target in TableOf(files, wanted)
    && ClassOf(p, target).Some?
    && ClassOf(p, target) == RenderMessage(TableOf(files, wanted)[target], RegistryOf(files), target.mod)
    && MessageHome(files, f.typeName, target)
  }

  /** The field behind a class path that a linked class names. */
  lemma NamedField(p: Program, reg: Registry, t: Table, id: ClassId, load: Load, ref: seq<string>) returns (f: Field)
    requires Linked(p, reg, t) && id in t
    requires ClassOf(p, id).Some? && ClassOf(p, id).value.Dataclass? && load in ClassOf(p, id).value.fromDict
    requires Mentions(load.expr, ref)
    ensures f in t[id].fields && f.jsonName == load.wire
    ensures !Fixed(f) ==>
              && f.typ.TMessage? && f.typeName in reg.byFQ && reg.byFQ[f.typeName] in t
              && Resolve(p, id.mod, ref) == Some(reg.byFQ[f.typeName])
  {
    assert ClassRendered(p, reg, t, id, t[id]);
    var gs := ClassBody(p, reg, t, id);
    var i :| 0 <= i < |gs| && LoadsOf(gs)[i] == load;
    f := t[id].fields[i];
    assert Rendered(t[id], f, reg, id.mod, gs[i]) && FieldLinks(p, reg, t, id.mod, f);
    if !Fixed(f) {
      KindMentions(t[id], f, reg, id.mod, gs[i], ref);
    }
  }

  lemma ResolvedModule(p: Program, current: string, ref: seq<string>, target: ClassId)
    requires Resolve(p, current, ref) == Some(target)
    ensures current in p && (target.mod == current || target.mod in p[current].imports)
  {
  }

  /** Every class path a generated from_dict names, but for those of fixed32 and
      fixed64 fields, resolves to the class of the message its field declares. */
  lemma NamesResolve(files: seq<File>, wanted: seq<string>, p: Program, id: ClassId, load: Load, ref: seq<string>) returns (f: Field)
    requires GeneratedFrom(files, wanted, p) && Closed(files, wanted) && id in TableOf(files, wanted)
    requires ClassOf(p, id).Some? && ClassOf(p, id).value.Dataclass? && load in ClassOf(p, id).value.fromDict
    requires Mentions(load.expr, ref)
    ensures f in TableOf(files, wanted)[id].fields && f.jsonName == load.wire
    ensures !Fixed(f) ==> exists target :: Resolve(p, id.mod, ref) == Some(target) && Reaches(files, wanted, p, id, f, target)
  {
    var reg, t := RegistryOf(files), TableOf(files, wanted);
    GeneratedLinks(files, wanted, p);
    f := NamedField(p, reg, t, id, load, ref);
    if !Fixed(f) {
      var target := reg.byFQ[f.typeName];
      ResolvedModule(p, id.mod, ref, target);
      FieldNamesMessage(files, wanted, p, id, f);
      assert ClassRendered(p, reg, t, target, t[target]);
      assert Reaches(files, wanted, p, id, f, target);
    }
  }

  lemma FieldNamesMessage(files: seq<File>, wanted: seq<string>, p: Program, id: ClassId, f: Field)
    requires GeneratedFrom(files, wanted, p) && Closed(files, wanted)
    requires id in TableOf(files, wanted) && f in TableOf(files, wanted)[id].fields
    requires f.typeName in RegistryOf(files).byFQ && f.typ.TMessage?
    ensures MessageHome(files, f.typeName, RegistryOf(files).byFQ[f.typeName])
  {
    RegistrySound(files);
    var fd := FileOf(files, wanted, id, TableOf(files, wanted)[id]);
    assert GoodDeclared(RegistryOf(files), TableOf(files, wanted)[id]);
  }

  // ----- the types scalarKind leaves out -----

  /** from_dict of a fixed32 or fixed64 field calls from_dict on UNKNOWN: a value
      on the wire raises NameError, unless the module has a class of that name. */
  lemma FixedWidthDecodes(p: Program, reg: Registry, current: string, m: Message, f: Field, g: GenField, w: Val)
    requires Rendered(m, f, reg, current, g) && Fixed(f) && f.typeName !in reg.byFQ
    requires current in p && "UNKNOWN" !in p[current].imports && Named(p[current].classes, "UNKNOWN").None?
    ensures !f.repeated ==> Eval(p, current, DecodeExpr(g.kind), w) == Raise(NameError)
    ensures f.repeated && w.VList? && w.xs != [] ==> Eval(p, current, DecodeExpr(g.kind), w) == Raise(NameError)
  {
    UnknownKind(m, f, reg, current, g);
    UnknownRaises(p, current, w);
  }

  lemma UnknownKind(m: Message, f: Field, reg: Registry, current: string, g: GenField)
    requires Rendered(m, f, reg, current, g) && Fixed(f) && f.typeName !in reg.byFQ
    ensures DecodeExpr(g.kind) == if f.repeated then ListComp(FromDict(["UNKNOWN"])) else FromDict(["UNKNOWN"])
  {
    NoFixedMaps(m, reg, current, f, g);
    if f.repeated {
      ListKind(m, f, reg, current, g);
    } else {
      SingleKind(m, f, reg, current, g);
    }
  }

  lemma UnknownRaises(p: Program, current: string, w: Val)
    requires current in p && "UNKNOWN" !in p[current].imports && Named(p[current].classes, "UNKNOWN").None?
    ensures Eval(p, current, FromDict(["UNKNOWN"]), w) == Raise(NameError)
    ensures w.VList? && w.xs != [] ==> Eval(p, current, ListComp(FromDict(["UNKNOWN"])), w) == Raise(NameError)
  {
    assert Resolve(p, current, ["UNKNOWN"]) == None;
    if w.VList? && w.xs != [] {
      assert Eval(p, current, FromDict(["UNKNOWN"]), w.xs[0]) == Raise(NameError);
    }
  }
}
