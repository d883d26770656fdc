/** Protobuf descriptors as protoc hands them to the plugin, and the names the
    generator derives from them. */
module Proto {
  import opened Wrappers

  datatype FieldType =
    | TDouble | TFloat | TInt64 | TUint64 | TInt32 | TFixed64 | TFixed32 | TBool | TString
    | TGroup | TMessage | TBytes | TUint32 | TEnum | TSfixed32 | TSfixed64 | TSint32 | TSint64

  datatype Field = Field(
    name: string, jsonName: string, number: int, typ: FieldType, typeName: string,
    repeated: bool, oneofIndex: Option<int>, proto3Optional: bool)

  datatype EnumDecl = EnumDecl(name: string, values: seq<(string, int)>)

  datatype Message = Message(
    name: string, fields: seq<Field>, nested: seq<Message>, enums: seq<EnumDecl>,
    oneofs: seq<string>, mapEntry: bool)

  datatype File = File(name: string, pkg: string, messages: seq<Message>, enums: seq<EnumDecl>)

  const TIMESTAMP := ".google.protobuf.Timestamp"
  const DURATION := ".google.protobuf.Duration"

  predicate WellKnown(typeName: string) {
    typeName == TIMESTAMP || typeName == DURATION
  }

  predicate WellKnownFile(name: string) {
    "google/protobuf/" <= name
  }

  /** The text after the last '/'. */
  function BaseName(name: string): string {
    if '/' !in name then name
    else if name[0] == '/' && '/' !in name[1..] then name[1..]
    else assert name == [name[0]] + name[1..]; BaseName(name[1..])
  }

  function TrimProto(base: string): string {
    if |base| >= 6 && base[|base| - 6..] == ".proto" then base[..|base| - 6] else base
  }

  /** rafiki/v1/control.proto is generated as module control_pb. */
  function ModuleName(name: string): string {
    TrimProto(BaseName(name)) + "_pb"
  }

  /** The leading-dot fully-qualified name of a name in a scope. */
  function FqJoin(scope: string, name: string): string {
    var s := if scope != [] && scope[0] == '.' then scope[1..] else scope;
    if s == [] then "." + name else "." + s + "." + name
  }

  /** The nested messages that become classes: every one but the map entries. */
  function Children(ms: seq<Message>): (r: seq<Message>)
    ensures forall n :: n in r <==> n in ms && !n.mapEntry
  {
    if ms == [] then []
    else
      var last := ms[|ms| - 1];
      Children(ms[..|ms| - 1]) + (if last.mapEntry then [] else [last])
  }

  /** m is the message declared at a path of names below ms. */
  ghost predicate DeclaredAt(ms: seq<Message>, path: seq<string>, m: Message)
    decreases |path|
  {
    && path != []
    && (exists n :: n in ms && n.name == path[0] &&
          (if |path| == 1 then m == n else DeclaredAt(Children(n.nested), path[1..], m)))
  }

  /** An enum of that name is declared at a path below a file or message. */
  ghost predicate EnumAt(ms: seq<Message>, es: seq<EnumDecl>, path: seq<string>)
    decreases |path|
  {
    && path != []
    && if |path| == 1 then exists e :: e in es && e.name == path[0]
       else exists n :: n in ms && n.name == path[0] && EnumAt(Children(n.nested), n.enums, path[1..])
  }

  /** The fully-qualified proto name of a path in a package. */
  function FqOf(pkg: string, path: seq<string>): string
    requires path != []
    decreases |path|
  {
    if |path| == 1 then FqJoin(pkg, path[0]) else FqOf(FqJoin(pkg, path[0]), path[1..])
  }

  // ----- what the names are -----

  /** Directories do not count. */
  lemma {:induction false} BaseNameIs(dir: string, base: string)
    requires '/' !in base
    ensures BaseName(base) == base && BaseName(dir + "/" + base) == base
  {
    var name := dir + "/" + base;
    assert name[|dir|] == '/';
    if dir == "" {
      assert name[1..] == base;
    } else {
      assert name[1..] == dir[1..] + "/" + base;
      assert name[1..][|dir| - 1] == '/';
      BaseNameIs(dir[1..], base);
    }
  }

  /** The module of a file in any directory is its base name with `_pb` for the
      suffix, or after a name that has no such suffix. */
  lemma ModuleNameIs(dir: string, base: string)
    requires '/' !in base
    ensures ModuleName(base + ".proto") == base + "_pb" == ModuleName(dir + "/" + (base + ".proto"))
    ensures !Suffixed(base) ==> ModuleName(base) == base + "_pb" == ModuleName(dir + "/" + base)
  {
    var name := base + ".proto";
    BaseNameIs(dir, base);
    BaseNameIs(dir, name);
    assert name[|name| - 6..] == ".proto" && name[..|name| - 6] == base;
    if |base| >= 6 && base[|base| - 6..] == ".proto" {
      assert base == base[..|base| - 6] + ".proto";
      assert Suffixed(base);
    }
  }

  ghost predicate Suffixed(base: string) {
    exists stem :: base == stem + ".proto"
  }

  /** The names of a path, each after a dot. */
  ghost function Dotted(path: seq<string>): string {
    if path == [] then "" else "." + path[0] + Dotted(path[1..])
  }

  /** A package after a dot, if there is one. */
  ghost function Lead(pkg: string): string {
    if pkg == "" || pkg[0] == '.' then pkg else "." + pkg
  }

  /** A full name is the package, if there is one, and the path, each after a dot. */
  lemma {:induction false} FqSpells(pkg: string, path: seq<string>)
    requires pkg != "." && path != [] && forall i :: 0 <= i < |path| ==> path[i] != ""
    ensures FqOf(pkg, path) == Lead(pkg) + Dotted(path)
    decreases |path|
  {
    var first, rest := FqJoin(pkg, path[0]), path[1..];
    JoinSpells(pkg, path[0]);
    if rest == [] {
      assert Dotted(rest) == "" && Lead(pkg) + Dotted(path) == first;
    } else {
      assert first[0] == '.' && first != ".";
      FqSpells(first, rest);
      Regroup(Lead(pkg), "." + path[0], Dotted(rest));
    }
  }

  lemma Regroup(a: string, b: string, c: string)
    ensures (a + b) + c == a + (b + c)
  {
  }

  lemma JoinSpells(pkg: string, name: string)
    requires pkg != "."
    ensures FqJoin(pkg, name) == Lead(pkg) + ("." + name)
  {
    if pkg != "" && pkg[0] == '.' {
      assert "." + pkg[1..] == pkg;
    }
  }
}
