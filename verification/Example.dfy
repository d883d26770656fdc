/** Three requests taken through the generator: a message that refers to itself,
    whose linked values come back from the wire as they were; one whose field names
    break the generated class; and a file whose module cannot be named. */
module Example {
  import opened Wrappers
  import opened Proto
  import opened Registry
  import opened Py
  import opened Render
  import opened Schema
  import opened Names
  import opened Loading
  import opened Generator
  import opened Exactness
  import opened SingleFile

  // ----- the schema -----

  const TEXT := Field("text", "text", 1, TString, "", false, None, false)
  const NEXT := Field("next", "next", 2, TMessage, ".p.Node", false, None, false)
  const NODE := Message("Node", [TEXT, NEXT], [], [], [], false)
  const FILE := File("node.proto", "p", [NODE], [])

  /** Node("...", next): any text, and another node or nothing. */
  function Node(text: string, next: Val): Val {
    VObj(ClassId(ModuleName("node.proto"), ["Node"]), map["text" := VStr(text), "next" := next])
  }

  /** The linked list of these texts, shortest last. */
  function Nodes(texts: seq<string>): Val {
    if texts == [] then VNone else Node(texts[0], Nodes(texts[1..]))
  }

  function NodeId(): ClassId {
    ClassId(ModuleName("node.proto"), ["Node"])
  }

  lemma NodeFile()
    ensures Single(FILE, NODE) && FqJoin("p", "Node") == ".p.Node"
  {
    assert !WellKnownFile("node.proto");
  }

  lemma NodeRegistry()
    ensures Single(FILE, NODE)
    ensures RegistryOf([FILE]) == Registry(map[".p.Node" := NodeId()], map[], map[])
  {
    NodeFile();
    FlatRegistry(FILE, NODE);
  }

  lemma NoReserved()
    ensures PyAttr("text") == "text" && PyAttr("next") == "next" && PyAttr("list") == "list" && PyAttr("tags") == "tags"
  {
  }

  lemma NodeAttrNames()
    ensures AttrAt(NODE, 0) == "text" && AttrAt(NODE, 1) == "next"
  {
    NoReserved();
  }

  lemma NodeFieldsGood(reg: Registry)
    requires reg.entries == map[]
    ensures GoodMessage(NODE, reg) && Idents(Scope(NODE))
  {
    NoScope(NODE);
    NodeAttrNames();
    NodeNames();
    FieldGood(NODE, TEXT, reg);
    FieldGood(NODE, NEXT, reg);
    TwoFields(NODE, reg);
  }

  lemma TwoFields(m: Message, reg: Registry)
    requires |m.fields| == 2 && m.oneofs == [] && GoodField(m, m.fields[0], reg) && GoodField(m, m.fields[1], reg)
    requires AttrAt(m, 0) != AttrAt(m, 1) && m.fields[0].jsonName != m.fields[1].jsonName
    ensures GoodMessage(m, reg)
  {
    forall i, j | 0 <= i < j < |m.fields|
      ensures PyAttr(m.fields[i].name) != PyAttr(m.fields[j].name) && m.fields[i].jsonName != m.fields[j].jsonName
    {
      assert i == 0 && j == 1 && AttrAt(m, 0) != AttrAt(m, 1);
    }
    forall i | 0 <= i < |m.fields| ensures GoodField(m, m.fields[i], reg) {
      assert i == 0 || i == 1;
    }
  }

  lemma NodeNames()
    ensures IsIdent("text") && IsIdent("next") && IsIdent("Node") && IsIdent("list") && IsIdent("tags") && IsIdent("Page")
  {
  }

  lemma NodeIsGood()
    ensures WellFormed([FILE], [FILE.name])
  {
    NodeRegistry();
    NodeFieldsGood(RegistryOf([FILE]));
    NodeName();
    SingleGood(FILE, NODE);
  }

  lemma PlainFiles()
    ensures PlainName("node.proto") && PlainName("page.proto") && PlainName("node.v1.proto")
  {
  }

  lemma NodeName()
    ensures ClassName([FILE], NODE.name) && PlainName(FILE.name)
  {
    NodeNames();
    assert "Node"[3] == 'e';
    NoModule(FILE, "Node");
    PlainFiles();
  }

  /** A flat message with no oneof, no list and no map, and plain names, is safe. */
  lemma FlatIsSafe(reg: Registry, fd: File, m: Message)
    requires m.nested == [] && m.enums == []
    requires forall i :: 0 <= i < |m.fields| ==>
               && FactoryOf(m.fields[i], reg) == "" && !IsArm(m.fields[i])
               && AttrAt(m, i) !in METHODS && AttrAt(m, i) != "classmethod"
    ensures SafeMessage(reg, fd, m)
  {
    NoScope(m);
  }

  lemma NodeNamesSafe(reg: Registry)
    requires reg.entries == map[]
    ensures SafeMessage(reg, FILE, NODE)
  {
    NodeAttrNames();
    forall i | 0 <= i < |NODE.fields|
      ensures FactoryOf(NODE.fields[i], reg) == "" && !IsArm(NODE.fields[i])
      ensures AttrAt(NODE, i) !in METHODS && AttrAt(NODE, i) != "classmethod"
    {
      assert NODE.fields[i] == if i == 0 then TEXT else NEXT;
    }
    FlatIsSafe(reg, FILE, NODE);
  }

  lemma NodeModule()
    ensures Nameable(ModuleName(FILE.name))
  {
    assert IsIdentifier("node");
    assert "node.proto" == "node" + ".proto";
    IdentifierModule("node");
  }

  lemma NodeSound()
    ensures Unbroken(FILE, NODE)
  {
    NodeRegistry();
    NodeNamesSafe(RegistryOf([FILE]));
    NodeModule();
  }

  lemma NodeIsSafe()
    ensures Safe([FILE], [FILE.name])
  {
    NodeSound();
    NodeFile();
    SingleSafe(FILE, NODE);
  }

  /** The schema is one the theorems speak of. */
  lemma NodeGenerates() returns (p: Program)
    ensures GeneratedFrom([FILE], [FILE.name], p)
  {
    NodeRegistry();
    NodeIsGood();
    NoMapNoPanic(NODE, RegistryOf([FILE]), ModuleName(FILE.name));
    SingleGenerates(FILE, NODE);
    p := Generate([FILE], [FILE.name], RegistryOf([FILE])).value;
  }

  lemma NodeTable()
    ensures NodeId() in TableOf([FILE], [FILE.name]) && TableOf([FILE], [FILE.name])[NodeId()] == NODE
  {
    NodeFile();
    SingleTable(FILE, NODE);
  }

  ghost predicate GoodNodes(t: Table, reg: Registry, v: Val) {
    && (v == VNone || ObjTyped(t, reg, NodeId(), v))
    && !Conflict(t, v) && !Stuck(t, v) && Canonical(t, v)
  }

  ghost predicate Knows(t: Table, reg: Registry) {
    && NodeId() in t && t[NodeId()] == NODE
    && ".p.Node" in reg.byFQ && reg.byFQ[".p.Node"] == NodeId() && reg.entries == map[]
  }

  lemma TwoAttrs(m: Message, a: string, b: string)
    requires |m.fields| == 2 && AttrAt(m, 0) == a && AttrAt(m, 1) == b
    ensures (set i | 0 <= i < |m.fields| :: PyAttr(m.fields[i].name)) == {a, b}
  {
    var names := set i | 0 <= i < |m.fields| :: PyAttr(m.fields[i].name);
    assert PyAttr(m.fields[0].name) in names && PyAttr(m.fields[1].name) in names;
  }

  lemma NodeAttrs(text: string, next: Val)
    ensures Node(text, next).attrs.Keys == (set i | 0 <= i < |NODE.fields| :: PyAttr(NODE.fields[i].name))
  {
    NodeAttrNames();
    TwoAttrs(NODE, "text", "next");
    assert Node(text, next).attrs.Keys == {"text", "next"};
  }

  lemma NodeTyped(t: Table, reg: Registry, text: string, next: Val)
    requires Knows(t, reg) && (next == VNone || ObjTyped(t, reg, NodeId(), next))
    ensures ObjTyped(t, reg, NodeId(), Node(text, next))
  {
    var v := Node(text, next);
    NodeAttrs(text, next);
    NodeAttrNames();
    TextTyped(t, reg, text);
    NextTyped(t, reg, next);
    forall i | 0 <= i < |NODE.fields| ensures FieldTyped(t, reg, NODE.fields[i], v.attrs[PyAttr(NODE.fields[i].name)]) {
      assert PyAttr(NODE.fields[i].name) == AttrAt(NODE, i);
    }
  }

  lemma TextTyped(t: Table, reg: Registry, text: string)
    requires reg.entries == map[]
    ensures FieldTyped(t, reg, TEXT, VStr(text))
  {
  }

  lemma NextTyped(t: Table, reg: Registry, next: Val)
    requires Knows(t, reg) && (next == VNone || ObjTyped(t, reg, NodeId(), next))
    ensures FieldTyped(t, reg, NEXT, next)
  {
  }

  lemma NodeClean(t: Table, reg: Registry, text: string, next: Val)
    requires Knows(t, reg) && !Conflict(t, next) && !Stuck(t, next) && Canonical(t, next)
    ensures !Conflict(t, Node(text, next)) && !Stuck(t, Node(text, next)) && Canonical(t, Node(text, next))
  {
    var v := Node(text, next);
    assert !NodeConflict(NODE, v.attrs) && !NodeFixed(NODE, v.attrs);
    assert !Conflict(t, VStr(text)) && !Stuck(t, VStr(text)) && Canonical(t, VStr(text));
    assert forall a :: !PlainFloat(t, NodeId(), a);
  }

  lemma NodeStep(t: Table, reg: Registry, text: string, next: Val)
    requires Knows(t, reg) && GoodNodes(t, reg, next)
    ensures GoodNodes(t, reg, Node(text, next)) && ObjTyped(t, reg, NodeId(), Node(text, next))
  {
    NodeTyped(t, reg, text, next);
    NodeClean(t, reg, text, next);
  }

  lemma {:induction false} NodesAreGood(texts: seq<string>)
    ensures GoodNodes(TableOf([FILE], [FILE.name]), RegistryOf([FILE]), Nodes(texts))
    ensures texts != [] ==> ObjTyped(TableOf([FILE], [FILE.name]), RegistryOf([FILE]), NodeId(), Nodes(texts))
  {
    if texts != [] {
      NodesAreGood(texts[1..]);
      NodeRegistry();
      NodeTable();
      NodeStep(TableOf([FILE], [FILE.name]), RegistryOf([FILE]), texts[0], Nodes(texts[1..]));
    }
  }

  /** Every linked list of nodes survives the generated codec. */
  lemma NodesRoundTrip(texts: seq<string>) returns (p: Program)
    requires texts != []
    ensures GeneratedFrom([FILE], [FILE.name], p)
    ensures RunToDict(p, Nodes(texts)).Ok?
    ensures RunFromDict(p, NodeId(), RunToDict(p, Nodes(texts)).value) == Ok(Nodes(texts))
  {
    p := NodeGenerates();
    NodeIsSafe();
    NodesAreGood(texts);
    CodecIdentity([FILE], [FILE.name], p, NodeId(), Nodes(texts));
  }

  // ----- a schema that breaks -----

  const LIST := Field("list", "list", 1, TString, "", true, None, false)
  const TAGS := Field("tags", "tags", 2, TString, "", true, None, false)
  const PAGE := Message("Page", [LIST, TAGS], [], [], [], false)
  const PAGES := File("page.proto", "p", [PAGE], [])

  function PageId(): ClassId {
    ClassId(ModuleName("page.proto"), ["Page"])
  }

  lemma PageFile()
    ensures Single(PAGES, PAGE) && FqJoin("p", "Page") == ".p.Page"
  {
    assert !WellKnownFile("page.proto");
  }

  lemma PageRegistry()
    ensures Single(PAGES, PAGE) && RegistryOf([PAGES]) == Registry(map[".p.Page" := PageId()], map[], map[])
  {
    PageFile();
    FlatRegistry(PAGES, PAGE);
  }

  lemma PageAttrs()
    ensures AttrAt(PAGE, 0) == "list" && AttrAt(PAGE, 1) == "tags"
  {
    NoReserved();
  }

  lemma PageFieldsGood(reg: Registry)
    requires reg.entries == map[]
    ensures GoodMessage(PAGE, reg) && Idents(Scope(PAGE))
  {
    NoScope(PAGE);
    PageAttrs();
    NodeNames();
    FieldGood(PAGE, LIST, reg);
    FieldGood(PAGE, TAGS, reg);
    TwoFields(PAGE, reg);
  }

  lemma PageIsGood()
    ensures WellFormed([PAGES], [PAGES.name])
  {
    PageRegistry();
    PageFieldsGood(RegistryOf([PAGES]));
    PageName();
    SingleGood(PAGES, PAGE);
  }

  lemma PageName()
    ensures ClassName([PAGES], PAGE.name) && PlainName(PAGES.name)
  {
    NodeNames();
    assert "Page"[3] == 'e';
    NoModule(PAGES, "Page");
    PlainFiles();
  }

  lemma PageHides(reg: Registry)
    requires reg.entries == map[]
    ensures FactoryOf(PAGE.fields[1], reg) == "list" == AttrAt(PAGE, 0) && !FactoriesBuiltIn(PAGE, reg)
  {
    PageAttrs();
  }

  /** A list field called `list` before another one: the schema is well-formed and
      generates, and the generated package does not work. */
  lemma PageFails() returns (p: Program)
    ensures GeneratedFrom([PAGES], [PAGES.name], p) && !Works([PAGES], [PAGES.name], p)
  {
    PageRegistry();
    PageIsGood();
    NoMapNoPanic(PAGE, RegistryOf([PAGES]), ModuleName(PAGES.name));
    SingleGenerates(PAGES, PAGE);
    p := Generate([PAGES], [PAGES.name], RegistryOf([PAGES])).value;
    PageNotSafe();
    CodecWorksExactly([PAGES], [PAGES.name], p);
  }

  lemma PageNotSafe()
    ensures !Safe([PAGES], [PAGES.name])
  {
    PageRegistry();
    if Safe([PAGES], [PAGES.name]) {
      TopDeclares([PAGE], PAGE);
      assert SafeFile(RegistryOf([PAGES]), PAGES);
      PageHides(RegistryOf([PAGES]));
    }
  }

  /** Everything else about the message is fine. */
  lemma PageOwnsNames(reg: Registry)
    requires reg.entries == map[]
    ensures AttrsOwn(PAGE) && MethodsOwn(PAGE) && BodyLoads(PAGE, reg) && Scope(PAGE) == []
  {
    NoScope(PAGE);
    PageAttrs();
    forall i | 0 <= i < |PAGE.fields|
      ensures AttrAt(PAGE, i) !in METHODS && AttrAt(PAGE, i) != "dataclasses" && AttrAt(PAGE, i) != "classmethod"
    {
      assert AttrAt(PAGE, i) == if i == 0 then "list" else "tags";
    }
  }

  lemma PageTable()
    ensures PageId() in TableOf([PAGES], [PAGES.name]) && TableOf([PAGES], [PAGES.name])[PageId()] == PAGE
  {
    PageFile();
    SingleTable(PAGES, PAGE);
  }

  /** Every call of the generated from_dict raises TypeError. */
  lemma PageRaises(p: Program, w: Val)
    requires GeneratedFrom([PAGES], [PAGES.name], p)
    ensures RunFromDict(p, PageId(), w) == Raise(TypeError)
  {
    PageRegistry();
    PageTable();
    SingleClosed(PAGES, PAGE);
    GeneratedLinks([PAGES], [PAGES.name], p);
    PageHides(RegistryOf([PAGES]));
    PageOwnsNames(RegistryOf([PAGES]));
    HiddenFactoryRaises(p, RegistryOf([PAGES]), TableOf([PAGES], [PAGES.name]), PageId(), 0, 1, w);
  }

  // ----- a file whose module cannot be named -----

  const DOTTED := File("node.v1.proto", "p", [NODE], [])

  lemma DottedFile()
    ensures Single(DOTTED, NODE) && PlainName(DOTTED.name)
  {
    NodeFile();
    PlainFiles();
    assert !WellKnownFile("node.v1.proto");
  }

  lemma DottedRegistry()
    ensures RegistryOf([DOTTED]) == Registry(map[".p.Node" := ClassId(ModuleName("node.v1.proto"), ["Node"])], map[], map[])
  {
    DottedFile();
    NodeFile();
    FlatRegistry(DOTTED, NODE);
  }

  lemma DottedModule()
    ensures !Nameable(ModuleName(DOTTED.name))
  {
    assert "node.v1.proto" == "node.v1" + ".proto";
    ModuleOf("node.v1");
    var mod := "node.v1" + "_pb";
    assert mod[4] == '.';
    NotNameable(mod, 4);
  }

  /** A dot in a file's name: the request is well-formed and generates a module that
      no import statement can name. */
  lemma DottedFails() returns (p: Program)
    ensures GeneratedFrom([DOTTED], [DOTTED.name], p) && !Works([DOTTED], [DOTTED.name], p)
  {
    DottedFile();
    DottedRegistry();
    NodeFieldsGood(RegistryOf([DOTTED]));
    NodeNames();
    NoModule(DOTTED, "Node");
    SingleGood(DOTTED, NODE);
    NoMapNoPanic(NODE, RegistryOf([DOTTED]), ModuleName(DOTTED.name));
    SingleGenerates(DOTTED, NODE);
    p := Generate([DOTTED], [DOTTED.name], RegistryOf([DOTTED])).value;
    DottedModule();
    assert Wants([DOTTED], [DOTTED.name], DOTTED);
    CodecWorksExactly([DOTTED], [DOTTED.name], p);
  }
}
