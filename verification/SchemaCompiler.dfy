/**
  Generating a header and a source file from the trees of a schema file, and the whole way from
  schema text to code (tools/pycppjson/jsongen.py, tools/pycppjson.py:60-89).
 */
module SchemaCompiler {
  import opened Common
  import opened Schemas
  import opened SchemaParser

  /** The four kinds that are known. */
  function TypeName(kind: string): (t: Option<string>)
    ensures t.Some? <==> kind in {"bool", "int", "float", "string"}
    ensures t.Some? ==> t.value == if kind == "string" then "std::string" else kind
  {
    if kind == "bool" then Some("bool") else if kind == "int" then Some("int")
    else if kind == "float" then Some("float") else if kind == "string" then Some("std::string") else None
  }

  function AccessCall(kind: string): (call: string)
    ensures kind == "bool" ==> call == "asBool()"
    ensures kind == "int" ==> call == "asInt()"
    ensures kind == "float" ==> call == "asFloat()"
    ensures kind == "string" ==> call == "asString()"
  {
    if kind == "bool" then "asBool()" else if kind == "int" then "asInt()"
    else if kind == "float" then "asFloat()" else "asString()"
  }

  // ---------------------------------------------------------------- the source file

  /** The kinds of all primitives are known; the source generator fails on any other, and skips arrays. */
  predicate SourceKinds(node: Node) {
    match node
    case Class(_, members) => forall i :: 0 <= i < |members| ==> SourceKinds(members[i])
    case Primitive(kind, _, _) => TypeName(kind).Some?
    case Array(_, _, _, _) => true
  }

  function Joined(path: seq<string>): string {
    if path == [] then "" else if |path| == 1 then path[0] else path[0] + "::" + Joined(path[1..])
  }

  /** A qualified name lists the outer classes first. */
  lemma {:induction false} QualifiedName(scope: seq<string>, inner: string)
    ensures Joined([inner]) == inner
    ensures scope != [] ==> Joined(scope + [inner]) == Joined(scope) + "::" + inner
  {
    if |scope| > 1 {
      QualifiedName(scope[1..], inner);
      assert (scope + [inner])[1..] == scope[1..] + [inner];
    } else if |scope| == 1 {
      assert (scope + [inner])[1..] == [inner];
    }
  }

  function Constructor(scope: seq<string>, title: string): seq<string> {
    [Joined(scope) + "::" + title + "(const ValuePtr &root) : m_root(root) {", "", "}", ""]
  }

  function ClassGetter(scope: seq<string>, title: string): seq<string> {
    [Joined(scope) + "::" + title + " " + Joined(scope) + "::get" + title + "() const {",
     "\treturn " + title + "(m_root);", "}", ""]
  }

  /** A getter that returns the element of the document under the index expression `access`. */
  function Getter(scope: seq<string>, title: string, kind: string, access: string): seq<string>
    requires TypeName(kind).Some?
  {
    [TypeName(kind).value + " " + Joined(scope) + "::get" + title + "() const {",
     "\treturn (*m_root)" + access + "." + AccessCall(kind) + ";", "}", ""]
  }

  function LeafGetter(scope: seq<string>, title: string, kind: string, path: string): seq<string>
    requires TypeName(kind).Some?
  {
    Getter(scope, title, kind, PathAccess(path))
  }

  /** The code for a node in the scope of the enclosing classes. */
  function Generated(node: Node, scope: seq<string>, title: string -> string): seq<string>
    requires SourceKinds(node)
  {
    match node
    case Class(name, members) =>
      var t := title(name);
      Constructor(scope + [t], t) + GeneratedAll(members, scope + [t], title) + ClassGetter(scope, t)
    case Primitive(kind, name, path) => LeafGetter(scope, title(name), kind, path)
    case Array(_, _, _, _) => []
  }

  function GeneratedAll(members: seq<Node>, scope: seq<string>, title: string -> string): seq<string>
    requires forall i :: 0 <= i < |members| ==> SourceKinds(members[i])
  {
    if members == [] then []
    else
      var n := |members| - 1;
      GeneratedAll(members[..n], scope, title) + Generated(members[n], scope, title)
  }

  lemma NoMembers(scope: seq<string>, title: string -> string)
    ensures GeneratedAll([], scope, title) == []
  {
  }

  lemma NextMember(members: seq<Node>, i: nat, scope: seq<string>, title: string -> string)
    requires i < |members| && forall k :: 0 <= k <= i ==> SourceKinds(members[k])
    ensures GeneratedAll(members[..i + 1], scope, title) ==
            GeneratedAll(members[..i], scope, title) + Generated(members[i], scope, title)
  {
    hide Generated;
    assert members[..i + 1][..i] == members[..i];
  }

  lemma ClassCode(name: string, members: seq<Node>, scope: seq<string>, title: string -> string)
    requires forall k :: 0 <= k < |members| ==> SourceKinds(members[k])
    ensures SourceKinds(Class(name, members))
    ensures var t := title(name);
            Generated(Class(name, members), scope, title) ==
            Constructor(scope + [t], t) + GeneratedAll(members, scope + [t], title) + ClassGetter(scope, t)
  {
  }

  class SrcGenVisitor {
    const title: string -> string
    var path: seq<string>
    var code: seq<string>

    constructor (classname: string, title: string -> string)
      ensures this.title == title && path == [classname] && code == []
    {
      this.title := title;
      path, code := [classname], [];
    }

    method Gen(lines: seq<string>)
      modifies this`code
      ensures code == old(code) + lines
    {
      code := code + lines;
    }

    /**
      Emit the code of a class, restoring the stack of enclosing classes; the result is false
      where the code raises an exception.
     */
    method VisitClass(name: string, members: seq<Node>) returns (ok: bool)
      modifies this
      ensures ok == SourceKinds(Class(name, members))
      ensures ok ==> path == old(path) && code == old(code) + Generated(Class(name, members), old(path), title)
      decreases members, 1
    {
      hide Constructor, ClassGetter, Generated, GeneratedAll;
      var clstitle := title(name);
      path := path + [clstitle];
      Gen(Constructor(path, clstitle));
      ghost var scope, before := path, code;
      NoMembers(scope, title);
      assert before + [] == before;
      for i := 0 to |members|
        invariant path == scope && forall k :: 0 <= k < i ==> SourceKinds(members[k])
        invariant code == before + GeneratedAll(members[..i], scope, title)
      {
        ok := Visit(members[i]);
        if !ok {
          return;
        }
        NextMember(members, i, scope, title);
      }
      assert members[..|members|] == members;
      ClassCode(name, members, old(path), title);
      path := path[..|path| - 1];
      Gen(ClassGetter(path, clstitle));
      ok := true;
    }

    method Visit(node: Node) returns (ok: bool)
      modifies this
      ensures ok == SourceKinds(node)
      ensures ok ==> path == old(path) && code == old(code) + Generated(node, old(path), title)
      decreases node, 0
    {
      ok := true;
      match node
      case Class(name, members) =>
        ok := VisitClass(name, members);
      case Primitive(kind, name, p) =>
        if TypeName(kind).None? {
          return false;
        }
        Gen(LeafGetter(path, title(name), kind, p));
      case Array(_, _, _, _) =>
    }
  }

  // ---------------------------------------------------------------- the header

  /** The kinds of all primitives and arrays are known; the header generator fails on any other. */
  predicate KnownKinds(node: Node) {
    match node
    case Class(_, members) => forall i :: 0 <= i < |members| ==> KnownKinds(members[i])
    case Primitive(kind, _, _) => TypeName(kind).Some?
    case Array(kind, _, _, _) => TypeName(kind).Some?
  }

  function Indented(level: nat, line: string): string {
    if level == 0 then line else "\t" + Indented(level - 1, line)
  }

  function ClassHead(level: nat, t: string): seq<string> {
    ["", Indented(level, "class " + t + " {"), Indented(level, "public:"),
     Indented(level, "\t" + t + "() = default;"), Indented(level, "\t" + t + "(const " + t + "& other) = default;"),
     Indented(level, "\t" + t + "(const ValuePtr &root);"), ""]
  }

  function ClassTail(level: nat, t: string): seq<string> {
    [Indented(level, "private:"), Indented(level, "\tValuePtr m_root;"), Indented(level, "};"),
     Indented(level, t + " get" + t + "() const;")]
  }

  function Declaration(level: nat, kind: string, star: string, t: string): seq<string>
    requires TypeName(kind).Some?
  {
    [Indented(level, TypeName(kind).value + star + " get" + t + "() const;")]
  }

  /** The declarations for a node at a level of nesting. */
  function Declared(node: Node, level: nat, title: string -> string): seq<string>
    requires KnownKinds(node)
  {
    match node
    case Class(name, members) =>
      ClassHead(level, title(name)) + DeclaredAll(members, level + 1, title) + ClassTail(level, title(name))
    case Primitive(kind, name, _) => Declaration(level, kind, "", title(name))
    case Array(kind, _, name, _) => Declaration(level, kind, "*", title(name))
  }

  function DeclaredAll(members: seq<Node>, level: nat, title: string -> string): seq<string>
    requires forall i :: 0 <= i < |members| ==> KnownKinds(members[i])
  {
    if members == [] then []
    else
      var n := |members| - 1;
      DeclaredAll(members[..n], level, title) + Declared(members[n], level, title)
  }

  lemma NoDeclarations(level: nat, title: string -> string)
    ensures DeclaredAll([], level, title) == []
  {
  }

  lemma NextDeclaration(members: seq<Node>, i: nat, level: nat, title: string -> string)
    requires i < |members| && forall k :: 0 <= k <= i ==> KnownKinds(members[k])
    ensures DeclaredAll(members[..i + 1], level, title) ==
            DeclaredAll(members[..i], level, title) + Declared(members[i], level, title)
  {
    hide Declared;
    assert members[..i + 1][..i] == members[..i];
  }

  lemma ClassDeclaration(name: string, members: seq<Node>, level: nat, title: string -> string)
    requires forall k :: 0 <= k < |members| ==> KnownKinds(members[k])
    ensures KnownKinds(Class(name, members))
    ensures Declared(Class(name, members), level, title) ==
            ClassHead(level, title(name)) + DeclaredAll(members, level + 1, title) + ClassTail(level, title(name))
  {
  }

  class HdrGenVisitor {
    const title: string -> string
    var level: nat
    var code: seq<string>

    constructor (title: string -> string)
      ensures this.title == title && level == 1 && code == []
    {
      this.title := title;
      level, code := 1, [];
    }

    method Gen(lines: seq<string>)
      modifies this`code
      ensures code == old(code) + lines
    {
      code := code + lines;
    }

    /** Declare a class, restoring the level; the result is false where the code raises an exception. */
    method VisitClass(name: string, members: seq<Node>) returns (ok: bool)
      modifies this
      ensures ok == KnownKinds(Class(name, members))
      ensures ok ==> level == old(level) && code == old(code) + Declared(Class(name, members), old(level), title)
      decreases members, 1
    {
      hide ClassHead, ClassTail, Declared, DeclaredAll;
      var clstitle := title(name);
      Gen(ClassHead(level, clstitle));
      level := level + 1;
      ghost var inner, before := level, code;
      NoDeclarations(inner, title);
      assert before + [] == before;
      for i := 0 to |members|
        invariant level == inner && forall k :: 0 <= k < i ==> KnownKinds(members[k])
        invariant code == before + DeclaredAll(members[..i], inner, title)
      {
        ok := Visit(members[i]);
        if !ok {
          return;
        }
        NextDeclaration(members, i, inner, title);
      }
      assert members[..|members|] == members;
      ClassDeclaration(name, members, old(level), title);
      level := level - 1;
      Gen(ClassTail(level, clstitle));
      ok := true;
    }

    method Visit(node: Node) returns (ok: bool)
      modifies this
      ensures ok == KnownKinds(node)
      ensures ok ==> level == old(level) && code == old(code) + Declared(node, old(level), title)
      decreases node, 0
    {
      ok := true;
      match node
      case Class(name, members) =>
        ok := VisitClass(name, members);
      case Primitive(kind, name, _) =>
        if TypeName(kind).None? {
          return false;
        }
        Gen(Declaration(level, kind, "", title(name)));
      case Array(kind, _, name, _) =>
        if TypeName(kind).None? {
          return false;
        }
        Gen(Declaration(level, kind, "*", title(name)));
    }
  }

  // ---------------------------------------------------------------- compiling a file

  ghost predicate AllKnown(nodes: seq<Node>) {
    forall i :: 0 <= i < |nodes| ==> KnownKinds(nodes[i])
  }

  ghost predicate AllSource(nodes: seq<Node>) {
    forall i :: 0 <= i < |nodes| ==> SourceKinds(nodes[i])
  }

  /** What the header generator accepts the source generator accepts. */
  lemma {:induction false} KnownIsSource(node: Node)
    requires KnownKinds(node)
    ensures SourceKinds(node)
  {
    if node.Class? {
      forall i | 0 <= i < |node.members|
        ensures SourceKinds(node.members[i])
      {
        KnownIsSource(node.members[i]);
      }
    }
  }

  lemma AllKnownIsSource(nodes: seq<Node>)
    requires AllKnown(nodes)
    ensures AllSource(nodes)
  {
    forall i | 0 <= i < |nodes|
      ensures SourceKinds(nodes[i])
    {
      KnownIsSource(nodes[i]);
    }
  }

  datatype Files = Files(header: seq<string>, source: seq<string>)

  /** The generated parts of both files; `Error` where the program stops with an exception. */
  ghost function Compiled(lines: seq<TextLine>, classname: string, title: string -> string): Result<Files>
    requires Text(lines)
  {
    var root := ParseFile(lines, 0);
    if root.Error? || !AllKnown(root.value) then Error
    else
      AllKnownIsSource(root.value);
      Ok(Files(DeclaredAll(root.value, 1, title), GeneratedAll(root.value, [classname], title)))
  }

  method DeclareNodes(nodes: seq<Node>, title: string -> string) returns (ok: bool, code: seq<string>)
    ensures ok == AllKnown(nodes) && (ok ==> code == DeclaredAll(nodes, 1, title))
  {
    hide KnownKinds, Declared, DeclaredAll;
    var visitor := new HdrGenVisitor(title);
    code := [];
    NoDeclarations(1, title);
    for i := 0 to |nodes|
      invariant (forall k :: 0 <= k < i ==> KnownKinds(nodes[k])) && visitor.title == title && visitor.level == 1
      invariant visitor.code == DeclaredAll(nodes[..i], 1, title)
    {
      ok := visitor.Visit(nodes[i]);
      if !ok {
        return;
      }
      NextDeclaration(nodes, i, 1, title);
    }
    assert nodes[..|nodes|] == nodes;
    ok, code := true, visitor.code;
  }

  method GenerateNodes(nodes: seq<Node>, classname: string, title: string -> string)
    returns (ok: bool, code: seq<string>)
    ensures ok == AllSource(nodes) && (ok ==> code == GeneratedAll(nodes, [classname], title))
  {
    hide SourceKinds, Generated, GeneratedAll;
    var visitor := new SrcGenVisitor(classname, title);
    code := [];
    NoMembers([classname], title);
    for i := 0 to |nodes|
      invariant (forall k :: 0 <= k < i ==> SourceKinds(nodes[k])) && visitor.title == title
      invariant visitor.path == [classname] && visitor.code == GeneratedAll(nodes[..i], [classname], title)
    {
      ok := visitor.Visit(nodes[i]);
      if !ok {
        return;
      }
      NextMember(nodes, i, [classname], title);
    }
    assert nodes[..|nodes|] == nodes;
    ok, code := true, visitor.code;
  }

  /** The main program: the header is generated first, and its failure stops the program. */
  method Compile(lines: seq<TextLine>, classname: string, title: string -> string) returns (files: Result<Files>)
    requires Text(lines)
    ensures files == Compiled(lines, classname, title)
  {
    hide ParseFile, DeclaredAll, GeneratedAll, AllKnown, AllSource;
    var root := ReadFile(lines);
    if root.Error? {
      return Error;
    }
    var ok, header := DeclareNodes(root.value, title);
    if !ok {
      return Error;
    }
    AllKnownIsSource(root.value);
    var source;
    ok, source := GenerateNodes(root.value, classname, title);
    if !ok {
      return Error;
    }
    return Ok(Files(header, source));
  }

  // ---------------------------------------------------------------- the code that is wanted

  /** The kinds of all leaves and vectors of a schema are known. */
  predicate Compilable(s: Schema) {
    match s
    case Leaf(kind, _) => TypeName(kind).Some?
    case Vector(kind, _, _) => TypeName(kind).Some?
    case Group(_, members) => forall i :: 0 <= i < |members| ==> Compilable(members[i])
    case _ => true
  }

  /**
    The code for a schema inside the classes `scope`, below the path `above`: every leaf has a
    getter that indexes the document by all segments from the root down to the leaf.
   */
  function Wanted(s: Schema, scope: seq<string>, above: seq<Segment>, title: string -> string): seq<string>
    requires GoodSchema(s) && Compilable(s)
  {
    match s
    case Leaf(kind, path) => Getter(scope, title(NameOf(path)), kind, SegmentsAccess(above + path))
    case Group(path, members) =>
      var t := title(NameOf(path));
      Constructor(scope + [t], t) + WantedAll(members, scope + [t], above + path, title) + ClassGetter(scope, t)
    case _ => []
  }

  function WantedAll(members: seq<Schema>, scope: seq<string>, above: seq<Segment>, title: string -> string): seq<string>
    requires forall i :: 0 <= i < |members| ==> GoodSchema(members[i]) && Compilable(members[i])
  {
    if members == [] then []
    else Wanted(members[0], scope, above, title) + WantedAll(members[1..], scope, above, title)
  }

  /** The header for a schema: a class per group, and a declared getter for every leaf and vector. */
  function WantedHeader(s: Schema, level: nat, title: string -> string): seq<string>
    requires GoodSchema(s) && Compilable(s)
  {
    match s
    case Remark(_) => []
    case Leaf(kind, path) => Declaration(level, kind, "", title(NameOf(path)))
    case Vector(kind, _, path) => Declaration(level, kind, "*", title(NameOf(path)))
    case Group(path, members) =>
      var t := title(NameOf(path));
      ClassHead(level, t) + WantedHeaders(members, level + 1, title) + ClassTail(level, t)
  }

  function WantedHeaders(members: seq<Schema>, level: nat, title: string -> string): seq<string>
    requires forall i :: 0 <= i < |members| ==> GoodSchema(members[i]) && Compilable(members[i])
  {
    if members == [] then []
    else WantedHeader(members[0], level, title) + WantedHeaders(members[1..], level, title)
  }

  /** The generator fails on the tree of a schema exactly when a kind of the schema is unknown. */
  lemma {:induction false} TreeKnown(s: Schema, address: string)
    requires GoodSchema(s)
    ensures AllKnown(Listed(Tree(s, address))) <==> Compilable(s)
    decreases s, 1
  {
    hide PathText, GoodPath, NameOf;
    if !s.Remark? {
      AllKnownOne(Tree(s, address).value);
    }
    if s.Group? {
      TreesKnown(s.members, address + "/" + PathText(s.path));
    }
  }

  lemma AllKnownOne(node: Node)
    ensures AllKnown([node]) <==> KnownKinds(node)
  {
    if AllKnown([node]) {
      assert KnownKinds([node][0]);
    }
  }

  lemma {:induction false} TreesKnown(members: seq<Schema>, address: string)
    requires forall k :: 0 <= k < |members| ==> GoodSchema(members[k])
    ensures AllKnown(Trees(members, address)) <==> forall k :: 0 <= k < |members| ==> Compilable(members[k])
    decreases members, 0
  {
    hide Tree, GoodSchema, KnownKinds, Compilable;
    if members != [] {
      TreeKnown(members[0], address);
      TreesKnown(members[1..], address);
      AllKnownConcat(Listed(Tree(members[0], address)), Trees(members[1..], address));
      assert members == [members[0]] + members[1..];
    }
  }

  lemma AllKnownConcat(a: seq<Node>, b: seq<Node>)
    ensures AllKnown(a + b) <==> AllKnown(a) && AllKnown(b)
  {
    hide KnownKinds;
    if AllKnown(a + b) {
      assert forall i :: 0 <= i < |a| ==> (a + b)[i] == a[i];
      assert forall i :: 0 <= i < |b| ==> (a + b)[i + |a|] == b[i];
    }
  }

  lemma AllSourceConcat(a: seq<Node>, b: seq<Node>)
    requires AllSource(a) && AllSource(b)
    ensures AllSource(a + b)
  {
  }

  lemma {:induction false} DeclaredConcat(a: seq<Node>, b: seq<Node>, level: nat, title: string -> string)
    requires AllKnown(a) && AllKnown(b) && AllKnown(a + b)
    ensures DeclaredAll(a + b, level, title) == DeclaredAll(a, level, title) + DeclaredAll(b, level, title)
  {
    hide Declared, DeclaredAll, KnownKinds;
    if b == [] {
      NoDeclarations(level, title);
      assert a + b == a;
    } else {
      var n := |b| - 1;
      assert (a + b)[..|a| + n] == a + b[..n] && (a + b)[..|a| + n + 1] == a + b && b[..n + 1] == b;
      AllKnownConcat(a, b[..n]);
      DeclaredConcat(a, b[..n], level, title);
      NextDeclaration(a + b, |a| + n, level, title);
      NextDeclaration(b, n, level, title);
    }
  }

  lemma DeclaredOne(node: Node, level: nat, title: string -> string)
    requires KnownKinds(node)
    ensures DeclaredAll([node], level, title) == Declared(node, level, title)
  {
    hide Declared, KnownKinds;
    assert [node][..0] == [];
  }

  lemma {:induction false} GeneratedConcat(a: seq<Node>, b: seq<Node>, scope: seq<string>, title: string -> string)
    requires AllSource(a) && AllSource(b) && AllSource(a + b)
    ensures GeneratedAll(a + b, scope, title) == GeneratedAll(a, scope, title) + GeneratedAll(b, scope, title)
  {
    hide Generated, GeneratedAll, SourceKinds;
    if b == [] {
      NoMembers(scope, title);
      assert a + b == a;
    } else {
      var n := |b| - 1;
      assert (a + b)[..|a| + n] == a + b[..n] && (a + b)[..|a| + n + 1] == a + b && b[..n + 1] == b;
      AllSourceConcat(a, b[..n]);
      GeneratedConcat(a, b[..n], scope, title);
      NextMember(a + b, |a| + n, scope, title);
      NextMember(b, n, scope, title);
    }
  }

  lemma GeneratedOne(node: Node, scope: seq<string>, title: string -> string)
    requires SourceKinds(node)
    ensures GeneratedAll([node], scope, title) == Generated(node, scope, title)
  {
    hide Generated, SourceKinds;
    assert [node][..0] == [];
  }

  lemma ExtendedAddress(path: seq<Segment>, address: string, above: seq<Segment>)
    requires GoodPath(path) && PathAccess(address) == SegmentsAccess(above)
    ensures PathAccess(address + "/" + PathText(path)) == SegmentsAccess(above + path)
  {
    hide PathAccess, SegmentsAccess, PathText, GoodSegment;
    JoinedAccess(address, path);
    SegmentsAccessConcat(above, path);
  }

  /** The trees of a compilable schema pass both generators. */
  lemma TreePasses(s: Schema, address: string)
    requires GoodSchema(s) && Compilable(s)
    ensures AllKnown(Listed(Tree(s, address))) && AllSource(Listed(Tree(s, address)))
  {
    hide Tree, GoodSchema, Compilable;
    TreeKnown(s, address);
    AllKnownIsSource(Listed(Tree(s, address)));
  }

  lemma TreesPass(members: seq<Schema>, address: string)
    requires forall k :: 0 <= k < |members| ==> GoodSchema(members[k]) && Compilable(members[k])
    ensures AllKnown(Trees(members, address)) && AllSource(Trees(members, address))
  {
    hide Trees, GoodSchema, Compilable;
    TreesKnown(members, address);
    AllKnownIsSource(Trees(members, address));
  }

  /** The emitted code is the wanted code: getters index the document by the segments above and at their leaf. */
  lemma {:induction false} CodeFollowsPaths(s: Schema, scope: seq<string>, address: string, above: seq<Segment>,
                                            title: string -> string)
    requires GoodSchema(s) && Compilable(s) && PathAccess(address) == SegmentsAccess(above)
    ensures AllSource(Listed(Tree(s, address)))
    ensures GeneratedAll(Listed(Tree(s, address)), scope, title) == Wanted(s, scope, above, title)
    decreases s, 1
  {
    hide PathAccess, SegmentsAccess, PathText, GoodPath, Getter, Constructor, ClassGetter, GeneratedAll;
    TreePasses(s, address);
    NoMembers(scope, title);
    if !s.Remark? {
      var node := Tree(s, address).value;
      assert SourceKinds(Listed(Tree(s, address))[0]);
      GeneratedOne(node, scope, title);
      ExtendedAddress(s.path, address, above);
      if s.Group? {
        AllCodeFollowsPaths(s.members, scope + [title(node.name)], address + "/" + PathText(s.path), above + s.path, title);
        ClassCode(node.name, node.members, scope, title);
      }
    }
  }

  lemma {:induction false} AllCodeFollowsPaths(members: seq<Schema>, scope: seq<string>, address: string,
                                               above: seq<Segment>, title: string -> string)
    requires forall k :: 0 <= k < |members| ==> GoodSchema(members[k]) && Compilable(members[k])
    requires PathAccess(address) == SegmentsAccess(above)
    ensures AllSource(Trees(members, address))
    ensures GeneratedAll(Trees(members, address), scope, title) == WantedAll(members, scope, above, title)
    decreases members, 0
  {
    hide PathAccess, SegmentsAccess, Tree, Wanted, GoodSchema, Compilable, GeneratedAll, SourceKinds;
    NoMembers(scope, title);
    TreesPass(members, address);
    if members != [] {
      CodeFollowsPaths(members[0], scope, address, above, title);
      AllCodeFollowsPaths(members[1..], scope, address, above, title);
      GeneratedConcat(Listed(Tree(members[0], address)), Trees(members[1..], address), scope, title);
    }
  }

  /** The emitted header is the wanted header, whatever the address. */
  lemma {:induction false} HeaderFollowsSchema(s: Schema, level: nat, address: string, title: string -> string)
    requires GoodSchema(s) && Compilable(s)
    ensures AllKnown(Listed(Tree(s, address)))
    ensures DeclaredAll(Listed(Tree(s, address)), level, title) == WantedHeader(s, level, title)
    decreases s, 1
  {
    hide PathText, GoodPath, Declaration, ClassHead, ClassTail, DeclaredAll;
    TreePasses(s, address);
    NoDeclarations(level, title);
    if !s.Remark? {
      var node := Tree(s, address).value;
      assert KnownKinds(Listed(Tree(s, address))[0]);
      DeclaredOne(node, level, title);
      if s.Group? {
        HeadersFollowSchemas(s.members, level + 1, address + "/" + PathText(s.path), title);
        ClassDeclaration(node.name, node.members, level, title);
      }
    }
  }

  lemma {:induction false} HeadersFollowSchemas(members: seq<Schema>, level: nat, address: string, title: string -> string)
    requires forall k :: 0 <= k < |members| ==> GoodSchema(members[k]) && Compilable(members[k])
    ensures AllKnown(Trees(members, address))
    ensures DeclaredAll(Trees(members, address), level, title) == WantedHeaders(members, level, title)
    decreases members, 0
  {
    hide Tree, WantedHeader, GoodSchema, Compilable, DeclaredAll, KnownKinds;
    NoDeclarations(level, title);
    TreesPass(members, address);
    if members != [] {
      HeaderFollowsSchema(members[0], level, address, title);
      HeadersFollowSchemas(members[1..], level, address, title);
      DeclaredConcat(Listed(Tree(members[0], address)), Trees(members[1..], address), level, title);
    }
  }

  /**
    From text to code: a file of schemas compiles to the wanted header and source, unless a
    class has a blank line or a leaf or vector an unknown kind; then it fails.
   */
  lemma CompiledSchemas(schemas: seq<Schema>, classname: string, title: string -> string)
    requires forall k :: 0 <= k < |schemas| ==> GoodSchema(schemas[k])
    ensures Text(PrintAll(schemas))
    ensures Compiled(PrintAll(schemas), classname, title) ==
            if forall k :: 0 <= k < |schemas| ==> Dense(schemas[k]) && Compilable(schemas[k])
            then Ok(Files(WantedHeaders(schemas, 1, title), WantedAll(schemas, [classname], [], title))) else Error
  {
    hide ParseFile, GoodSchema, Trees, AllKnown, AllSource, GeneratedAll, DeclaredAll, WantedAll, WantedHeaders, PrintAll, Dense, Compilable, Text;
    var lines := PrintAll(schemas);
    PrintedAllText(schemas);
    assert lines[0..] == lines;
    ParsePrintedFile(schemas, lines, 0);
    TreesKnown(schemas, "/");
    if forall k :: 0 <= k < |schemas| ==> Compilable(schemas[k]) {
      RootAddress();
      AllCodeFollowsPaths(schemas, [classname], "/", [], title);
      HeadersFollowSchemas(schemas, 1, "/", title);
    }
  }

  lemma RootAddress()
    ensures PathAccess("/") == SegmentsAccess([])
  {
    assert "/"[1..] == "";
    assert SplitPath("/", "") == [] + SplitPath("", "");
  }
}
