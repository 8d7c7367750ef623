/** Parsing schema text into trees (tools/pycppjson.py). */
module SchemaParser {
  import opened Common
  import opened Schemas

  // ---------------------------------------------------------------- the parser

  datatype Node =
    | Class(name: string, members: seq<Node>)
    | Primitive(kind: string, name: string, path: string)
    | Array(kind: string, size: string, name: string, path: string)

  /** The words of a line are not empty. */
  ghost predicate Text(lines: seq<TextLine>) {
    forall i, j :: 0 <= i < |lines| && 0 <= j < |lines[i]| ==> lines[i][j] != ""
  }

  function Listed(node: Option<Node>): seq<Node> {
    if node.Some? then [node.value] else []
  }

  function ParsePrimitive(kind: string, args: seq<string>, address: string): Result<Option<Node>> {
    if args == [] then Error
    else
      var name := GetName(args[0]);
      if name.Error? then Error else Ok(Some(Primitive(kind, name.value, address + "/" + args[0])))
  }

  function ParseArray(kind: string, args: seq<string>, address: string): Result<Option<Node>>
    requires kind != "" && kind[|kind| - 1] == ']'
  {
    var n := |WordPrefix(kind)|;
    if n == 0 || n >= |kind| - 1 || kind[n] != '[' || args == [] then Error
    else
      var name := GetName(args[0]);
      if name.Error? then Error
      else Ok(Some(Array(kind[..n], kind[n + 1..|kind| - 1], name.value, address + "/" + args[0])))
  }

  /** Parse the line at `i` and, for a class, the lines up to its end; also the line to go on with. */
  function ParseLine(lines: seq<TextLine>, i: nat, address: string): (r: Result<(Option<Node>, nat)>)
    requires Text(lines) && i < |lines|
    ensures r.Ok? ==> i < r.value.1 <= |lines|
    decreases |lines| - i, 0
  {
    var words := lines[i];
    if words == [] || words[0][0] == '#' then Ok((None, i + 1))
    else if words[0] == "class" then
      if |words| == 1 then Error
      else
        var name := GetName(words[1]);
        if name.Error? then Error
        else
          var members := ParseMembers(lines, i + 1, address + "/" + words[1]);
          if members.Error? then Error
          else Ok((Some(Class(name.value, members.value.0)), members.value.1))
    else
      var node := if words[0][|words[0]| - 1] == ']' then ParseArray(words[0], words[1..], address)
                  else ParsePrimitive(words[0], words[1..], address);
      if node.Error? then Error else Ok((node.value, i + 1))
  }

  /** Parse the lines of a class body up to the closing brace; a blank line is an error. */
  function ParseMembers(lines: seq<TextLine>, i: nat, address: string): (r: Result<(seq<Node>, nat)>)
    requires Text(lines) && i <= |lines|
    ensures r.Ok? ==> i <= r.value.1 <= |lines|
    decreases |lines| - i, 1
  {
    if i == |lines| then Ok(([], i))
    else if lines[i] == [] then Error
    else if lines[i][0][0] == '}' then Ok(([], i + 1))
    else
      var node := ParseLine(lines, i, address);
      if node.Error? then Error
      else
        var rest := ParseMembers(lines, node.value.1, address);
        if rest.Error? then Error
        else Ok((Listed(node.value.0) + rest.value.0, rest.value.1))
  }

  // ---------------------------------------------------------------- schemas and their text

  /** A schema as it is written, with its comments and blank lines. */
  datatype Schema =
    | Remark(words: TextLine)
    | Leaf(kind: string, path: seq<Segment>)
    | Vector(kind: string, size: string, path: seq<Segment>)
    | Group(path: seq<Segment>, members: seq<Schema>)

  ghost predicate GoodPath(path: seq<Segment>) {
    && path != []
    && (forall i :: 0 <= i < |path| ==> GoodSegment(path[i]))
    && WordPrefix(SegmentText(path[|path| - 1])) != ""
  }

  ghost predicate GoodKind(kind: string) {
    kind != "" && kind != "class" && kind[0] != '#' && kind[0] != '}' && kind[|kind| - 1] != ']'
  }

  ghost predicate GoodSchema(s: Schema) {
    match s
    case Remark(words) => (forall i :: 0 <= i < |words| ==> words[i] != "") && (words != [] ==> words[0][0] == '#')
    case Leaf(kind, path) => GoodPath(path) && GoodKind(kind)
    case Vector(kind, _, path) => GoodPath(path) && kind != "" && WordPrefix(kind) == kind
    case Group(path, members) => GoodPath(path) && forall i :: 0 <= i < |members| ==> GoodSchema(members[i])
  }

  /** There is no blank line inside a class. */
  predicate Dense(s: Schema) {
    s.Group? ==> forall i :: 0 <= i < |s.members| ==> Dense(s.members[i]) && s.members[i] != Remark([])
  }

  /** The text of a schema, one line per leaf and a brace after each class. */
  function Print(s: Schema): seq<TextLine> {
    match s
    case Remark(words) => [words]
    case Leaf(kind, path) => [[kind, PathText(path)]]
    case Vector(kind, size, path) => [[kind + "[" + size + "]", PathText(path)]]
    case Group(path, members) => [["class", PathText(path), "{"]] + PrintAll(members) + [["}"]]
  }

  function PrintAll(members: seq<Schema>): seq<TextLine> {
    if members == [] then [] else Print(members[0]) + PrintAll(members[1..])
  }

  function NameOf(path: seq<Segment>): string
    requires path != []
  {
    WordPrefix(SegmentText(path[|path| - 1]))
  }

  /** The tree of a schema below an address: leaves carry the concatenation of all paths above them. */
  function Tree(s: Schema, address: string): Option<Node>
    requires GoodSchema(s)
  {
    match s
    case Remark(_) => None
    case Leaf(kind, path) => Some(Primitive(kind, NameOf(path), address + "/" + PathText(path)))
    case Vector(kind, size, path) => Some(Array(kind, size, NameOf(path), address + "/" + PathText(path)))
    case Group(path, members) => Some(Class(NameOf(path), Trees(members, address + "/" + PathText(path))))
  }

  function Trees(members: seq<Schema>, address: string): (r: seq<Node>)
    requires forall i :: 0 <= i < |members| ==> GoodSchema(members[i])
  {
    if members == [] then [] else Listed(Tree(members[0], address)) + Trees(members[1..], address)
  }

  // ---------------------------------------------------------------- parsing what was printed

  lemma {:induction false} LastSegment(path: seq<Segment>)
    requires path != [] && forall i :: 0 <= i < |path| ==> GoodSegment(path[i])
    ensures AfterLastSlash(PathText(path)) == SegmentText(path[|path| - 1]) && PathText(path) != ""
  {
    hide GoodSegment, SegmentText;
    SegmentTextClean(path[0]);
    if |path| > 1 {
      var rest := path[1..];
      LastSegment(rest);
      var cut := PathText(rest);
      var front := SegmentText(path[0]);
      LastPartOfJoin(front, cut);
    }
  }

  lemma {:induction false} LastPartOfJoin(a: string, b: string)
    requires '/' !in a && b != ""
    ensures AfterLastSlash(a + "/" + b) == AfterLastSlash(b)
    decreases |a|
  {
    var s := a + "/" + b;
    assert s[|a|] == '/';
    if a == "" {
      assert s[1..] == b;
    } else {
      assert s[1..] == a[1..] + "/" + b;
      LastPartOfJoin(a[1..], b);
    }
  }

  lemma PathName(path: seq<Segment>)
    requires GoodPath(path)
    ensures GetName(PathText(path)) == Ok(NameOf(path)) && PathText(path) != ""
  {
    hide PathText, AfterLastSlash, WordPrefix;
    LastSegment(path);
  }

  lemma {:induction false} WordPrefixStops(word: string, rest: string)
    requires WordPrefix(word) == word && (rest == "" || !IsWord(rest[0]))
    ensures WordPrefix(word + rest) == word
  {
    if word == "" {
      assert word + rest == rest;
    } else {
      assert (word + rest)[1..] == word[1..] + rest;
      assert word == [word[0]] + word[1..];
      WordPrefixStops(word[1..], rest);
    }
  }

  lemma ParsePrintedVector(kind: string, size: string, path: seq<Segment>, address: string)
    requires GoodPath(path) && kind != "" && WordPrefix(kind) == kind
    ensures var word := kind + "[" + size + "]";
            ParseArray(word, [PathText(path)], address) ==
            Ok(Some(Array(kind, size, NameOf(path), address + "/" + PathText(path))))
  {
    hide PathText, GoodPath, GetName, WordPrefix, NameOf;
    var word := kind + "[" + size + "]";
    var n := |kind|;
    assert word == kind + ("[" + size + "]");
    WordPrefixStops(kind, "[" + size + "]");
    PathName(path);
    assert word[..n] == kind && word[n + 1..|word| - 1] == size;
  }

  lemma TextConcat(a: seq<TextLine>, b: seq<TextLine>)
    requires Text(a) && Text(b)
    ensures Text(a + b)
  {
  }

  lemma {:induction false} PrintedText(s: Schema)
    requires GoodSchema(s)
    ensures Text(Print(s))
    decreases s, 1
  {
    hide GoodPath, PathText, WordPrefix;
    if !s.Remark? {
      PathName(s.path);
    }
    if s.Group? {
      PrintedAllText(s.members);
    }
  }

  lemma {:induction false} PrintedAllText(members: seq<Schema>)
    requires forall k :: 0 <= k < |members| ==> GoodSchema(members[k])
    ensures Text(PrintAll(members))
    decreases members, 0
  {
    hide Print, GoodSchema, Text;
    if members == [] {
      NoText();
    } else {
      PrintedText(members[0]);
      PrintedAllText(members[1..]);
      TextConcat(Print(members[0]), PrintAll(members[1..]));
    }
  }

  lemma NoText()
    ensures Text([])
  {
  }

  /** The lines from `i` on start with `text`. */
  ghost predicate At(lines: seq<TextLine>, i: nat, text: seq<TextLine>) {
    i + |text| <= |lines| && lines[i..i + |text|] == text
  }

  lemma AtSplit(lines: seq<TextLine>, i: nat, a: seq<TextLine>, b: seq<TextLine>)
    requires At(lines, i, a + b)
    ensures At(lines, i, a) && At(lines, i + |a|, b)
  {
    var both := lines[i..i + |a + b|];
    assert both[..|a|] == a && both[|a|..] == b;
    assert lines[i..i + |a|] == both[..|a|];
    assert lines[i + |a|..i + |a| + |b|] == both[|a|..];
  }

  lemma FirstChar(kind: string, size: string)
    requires kind != "" && WordPrefix(kind) == kind
    ensures IsWord(kind[0]) && kind + "[" + size + "]" != "class"
  {
    var word := kind + "[" + size + "]";
    assert word[|word| - 1] == ']';
    assert "class"[4] == 's';
  }

  /**
    Parsing the text of a schema gives its tree back, wherever the text stands; it fails when
    there is a blank line inside a class, and only then.
   */
  lemma {:induction false} ParsePrinted(s: Schema, lines: seq<TextLine>, i: nat, address: string)
    requires GoodSchema(s) && Text(lines) && At(lines, i, Print(s))
    ensures |Print(s)| > 0 && ParseLine(lines, i, address) ==
                             if Dense(s) then Ok((Tree(s, address), i + |Print(s)|)) else Error
    ensures s != Remark([]) ==> lines[i] != [] && lines[i][0][0] != '}'
    decreases s, 1
  {
    hide GetName, PathText, GoodPath, NameOf, ParseArray, ParseMembers, WordPrefix;
    assert Print(s)[0] == lines[i..i + |Print(s)|][0] == lines[i];
    if !s.Remark? {
      PathName(s.path);
    }
    match s
    case Remark(_) =>
    case Leaf(kind, path) =>
      assert lines[i][1..] == [PathText(path)];
    case Vector(kind, size, path) =>
      FirstChar(kind, size);
      ParsePrintedVector(kind, size, path, address);
      assert lines[i][1..] == [PathText(path)];
    case Group(path, members) =>
      var head := [["class", PathText(path), "{"]];
      assert Print(s) == head + (PrintAll(members) + [["}"]]);
      AtSplit(lines, i, head, PrintAll(members) + [["}"]]);
      ParsePrintedMembers(members, lines, i + 1, address + "/" + PathText(path));
  }

  lemma {:induction false} ParsePrintedMembers(members: seq<Schema>, lines: seq<TextLine>, i: nat, address: string)
    requires (forall k :: 0 <= k < |members| ==> GoodSchema(members[k])) && Text(lines)
    requires At(lines, i, PrintAll(members) + [["}"]])
    ensures ParseMembers(lines, i, address) ==
            if forall k :: 0 <= k < |members| ==> Dense(members[k]) && members[k] != Remark([])
            then Ok((Trees(members, address), i + |PrintAll(members)| + 1)) else Error
    decreases members, 0
  {
    hide ParseLine, ParseMembers, Print, GoodSchema, Tree, Dense;
    if members == [] {
      assert lines[i] == lines[i..i + 1][0] == ["}"];
      ParseClosing(lines, i, address);
    } else {
      var first, rest := Print(members[0]), members[1..];
      assert PrintAll(members) + [["}"]] == first + (PrintAll(rest) + [["}"]]);
      AtSplit(lines, i, first, PrintAll(rest) + [["}"]]);
      ParsePrinted(members[0], lines, i, address);
      ParsePrintedMembers(rest, lines, i + |first|, address);
      if members[0] == Remark([]) {
        BlankLine(lines, i, address);
      } else {
        ParseMember(lines, i, address);
      }
      assert members == [members[0]] + rest;
    }
  }

  lemma BlankLine(lines: seq<TextLine>, i: nat, address: string)
    requires Text(lines) && At(lines, i, Print(Remark([])))
    ensures ParseMembers(lines, i, address) == Error
  {
    assert lines[i] == lines[i..i + 1][0] == [];
  }

  lemma ParseClosing(lines: seq<TextLine>, i: nat, address: string)
    requires Text(lines) && i < |lines| && lines[i] != [] && lines[i][0][0] == '}'
    ensures var r := ParseMembers(lines, i, address); r.Ok? && r.value.0 == [] && r.value.1 == i + 1
  {
  }

  lemma ParseMember(lines: seq<TextLine>, i: nat, address: string)
    requires Text(lines) && i < |lines| && lines[i] != [] && lines[i][0][0] != '}'
    ensures var node := ParseLine(lines, i, address);
            ParseMembers(lines, i, address) ==
            if node.Error? then Error else Prepended(Listed(node.value.0), ParseMembers(lines, node.value.1, address))
  {
    hide ParseLine;
  }

  /** The loop of `parseClass` over the lines of the body. */
  method ParseClassBody(lines: seq<TextLine>, start: nat, address: string) returns (r: Result<(seq<Node>, nat)>)
    requires Text(lines) && start <= |lines|
    ensures r == ParseMembers(lines, start, address)
    decreases |lines| - start
  {
    hide ParseLine;
    var members: seq<Node> := [];
    var i := start;
    PrependNone(ParseMembers(lines, start, address));
    while i < |lines|
      invariant start <= i <= |lines|
      invariant Prepended(members, ParseMembers(lines, i, address)) == ParseMembers(lines, start, address)
      decreases |lines| - i
    {
      if lines[i] == [] {
        return Error;
      }
      if lines[i][0][0] == '}' {
        assert members + [] == members;
        return Ok((members, i + 1));
      }
      var node := ParseLine(lines, i, address);
      if node.Error? {
        return Error;
      }
      PrependTwice(members, Listed(node.value.0), ParseMembers(lines, node.value.1, address));
      members := members + Listed(node.value.0);
      i := node.value.1;
    }
    assert members + [] == members;
    return Ok((members, i));
  }

  ghost function Prepended(nodes: seq<Node>, r: Result<(seq<Node>, nat)>): Result<(seq<Node>, nat)> {
    if r.Error? then Error else Ok((nodes + r.value.0, r.value.1))
  }

  lemma PrependNone(r: Result<(seq<Node>, nat)>)
    ensures Prepended([], r) == r
  {
    if r.Ok? {
      assert [] + r.value.0 == r.value.0;
    }
  }

  lemma PrependTwice(a: seq<Node>, b: seq<Node>, r: Result<(seq<Node>, nat)>)
    ensures Prepended(a, Prepended(b, r)) == Prepended(a + b, r)
  {
    if r.Ok? {
      assert a + (b + r.value.0) == (a + b) + r.value.0;
    }
  }

  /** The nodes of the lines from `i` on, as the main loop collects them. */
  function ParseFile(lines: seq<TextLine>, i: nat): Result<seq<Node>>
    requires Text(lines) && i <= |lines|
    decreases |lines| - i
  {
    if i == |lines| then Ok([])
    else
      var node := ParseLine(lines, i, "/");
      if node.Error? then Error
      else
        var rest := ParseFile(lines, node.value.1);
        if rest.Error? then Error else Ok(Listed(node.value.0) + rest.value)
  }

  /** The main loop; blank lines and comments between the classes are skipped. */
  method ReadFile(lines: seq<TextLine>) returns (root: Result<seq<Node>>)
    requires Text(lines)
    ensures root == ParseFile(lines, 0)
  {
    hide ParseLine;
    var nodes: seq<Node> := [];
    var i := 0;
    if ParseFile(lines, 0).Ok? {
      assert nodes + ParseFile(lines, 0).value == ParseFile(lines, 0).value;
    }
    while i < |lines|
      invariant i <= |lines|
      invariant ParseFile(lines, 0) ==
                var rest := ParseFile(lines, i); if rest.Error? then Error else Ok(nodes + rest.value)
      decreases |lines| - i
    {
      var node := ParseLine(lines, i, "/");
      if node.Error? {
        return Error;
      }
      var rest := ParseFile(lines, node.value.1);
      if rest.Ok? {
        assert nodes + (Listed(node.value.0) + rest.value) == nodes + Listed(node.value.0) + rest.value;
      }
      nodes := nodes + Listed(node.value.0);
      i := node.value.1;
    }
    assert nodes + [] == nodes;
    return Ok(nodes);
  }

  /** A file is parsed into the trees of its schemas, with any remarks and blank lines between them. */
  lemma {:induction false} ParsePrintedFile(schemas: seq<Schema>, lines: seq<TextLine>, i: nat)
    requires (forall k :: 0 <= k < |schemas| ==> GoodSchema(schemas[k])) && Text(lines)
    requires i + |PrintAll(schemas)| == |lines| && lines[i..] == PrintAll(schemas)
    ensures ParseFile(lines, i) ==
            if forall k :: 0 <= k < |schemas| ==> Dense(schemas[k]) then Ok(Trees(schemas, "/")) else Error
    decreases schemas
  {
    hide ParseLine, Print, GoodSchema, Tree, Dense;
    if schemas != [] {
      var first, rest := Print(schemas[0]), schemas[1..];
      assert lines[i..i + |first + PrintAll(rest)|] == lines[i..];
      AtSplit(lines, i, first, PrintAll(rest));
      assert lines[i + |first|..] == PrintAll(rest);
      ParsePrinted(schemas[0], lines, i, "/");
      ParsePrintedFile(rest, lines, i + |first|);
      assert schemas == [schemas[0]] + rest;
    }
  }
}
