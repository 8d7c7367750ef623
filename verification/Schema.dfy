/**
  The schema compiler (tools/pycppjson.py, tools/pycppjson/jsongen.py): schema text is parsed
  into a tree, and the tree is compiled to accessors that index a JSON document.

  A line of text is represented by its white-space separated words; a blank line has none.
 */
module Schemas {

  datatype Result<T> = Ok(value: T) | Error

  type TextLine = seq<string>

  // ---------------------------------------------------------------- names and paths

  predicate IsWord(c: char) {
    'a' <= c <= 'z' || 'A' <= c <= 'Z' || '0' <= c <= '9' || c == '_'
  }

  function WordPrefix(s: string): (r: string)
    ensures |r| <= |s|
  {
    if s == "" || !IsWord(s[0]) then "" else [s[0]] + WordPrefix(s[1..])
  }

  function AfterLastSlash(s: string): string {
    if s == "" then ""
    else if '/' !in s then s
    else AfterLastSlash(s[1..])
  }

  /** The leading word characters of the last part of an address. */
  function GetName(address: string): Result<string> {
    var name := WordPrefix(AfterLastSlash(address));
    if name == "" then Error else Ok(name)
  }

  /** One part of a path: a member name, possibly with an array index. */
  datatype Segment = Plain(name: string) | Indexed(name: string, index: string)

  predicate Clean(s: string) {
    '/' !in s && '[' !in s && ']' !in s
  }

  predicate GoodSegment(s: Segment) {
    s.name != "" && Clean(s.name) && (s.Indexed? ==> Clean(s.index))
  }

  function SegmentText(s: Segment): string {
    match s
    case Plain(name) => name
    case Indexed(name, index) => name + "[" + index + "]"
  }

  function PathText(segments: seq<Segment>): string {
    if segments == [] then ""
    else if |segments| == 1 then SegmentText(segments[0])
    else SegmentText(segments[0]) + "/" + PathText(segments[1..])
  }

  // ---------------------------------------------------------------- generated index expressions

  /** `filter(None, path.split('/'))` */
  function SplitPath(path: string, current: string): seq<string> {
    if path == "" then (if current == "" then [] else [current])
    else if path[0] == '/' then (if current == "" then [] else [current]) + SplitPath(path[1..], "")
    else SplitPath(path[1..], current + [path[0]])
  }

  function LastIndexOf(s: string, c: char, end: nat): int
    requires end <= |s|
    ensures -1 <= LastIndexOf(s, c, end) < end
  {
    if end == 0 then -1 else if s[end - 1] == c then end - 1 else LastIndexOf(s, c, end - 1)
  }

  function KeyText(name: string): string {
    "[\"" + name + "\"]"
  }

  function IndexText(index: string): string {
    "[" + index + "]"
  }

  /** The index expression of one path element; a trailing `[n]` becomes an array index. */
  function ElementAccess(elem: string): string {
    var close := LastIndexOf(elem, ']', |elem|);
    var open := if close < 0 then -1 else LastIndexOf(elem, '[', close);
    if close >= 0 && open >= 0 then KeyText(elem[..open]) + IndexText(elem[open + 1..close])
    else KeyText(elem)
  }

  function ElementsAccess(elems: seq<string>): string {
    if elems == [] then "" else ElementAccess(elems[0]) + ElementsAccess(elems[1..])
  }

  function PathAccess(path: string): string {
    ElementsAccess(SplitPath(path, ""))
  }

  /** What the accessor of a path should be: one key per segment, followed by its array index. */
  function SegmentAccess(s: Segment): string {
    match s
    case Plain(name) => KeyText(name)
    case Indexed(name, index) => KeyText(name) + IndexText(index)
  }

  function SegmentsAccess(segments: seq<Segment>): string {
    if segments == [] then "" else SegmentAccess(segments[0]) + SegmentsAccess(segments[1..])
  }

  lemma {:induction false} LastIndexNone(s: string, c: char, end: nat)
    requires end <= |s| && forall i :: 0 <= i < end ==> s[i] != c
    ensures LastIndexOf(s, c, end) == -1
  {
    if end > 0 {
      LastIndexNone(s, c, end - 1);
    }
  }

  lemma {:induction false} LastIndexIs(s: string, c: char, end: nat, k: nat)
    requires k < end <= |s| && s[k] == c && forall i :: k < i < end ==> s[i] != c
    ensures LastIndexOf(s, c, end) == k
  {
    if k < end - 1 {
      LastIndexIs(s, c, end - 1, k);
    }
  }

  lemma CleanChars(s: string)
    requires Clean(s)
    ensures forall i :: 0 <= i < |s| ==> s[i] != '/' && s[i] != '[' && s[i] != ']'
  {
  }

  lemma PlainElement(name: string)
    requires Clean(name)
    ensures ElementAccess(name) == KeyText(name)
  {
    CleanChars(name);
    LastIndexNone(name, ']', |name|);
  }

  /** The positions of the brackets. */
  lemma IndexedChars(name: string, index: string)
    requires Clean(index)
    ensures var e, n := name + "[" + index + "]", |name|;
            && |e| == n + |index| + 2 && e[n] == '[' && e[|e| - 1] == ']'
            && (forall i :: n < i < |e| - 1 ==> e[i] != '[')
            && e[..n] == name && e[n + 1..|e| - 1] == index
  {
    var e, n := name + "[" + index + "]", |name|;
    assert forall i :: n < i < |e| - 1 ==> e[i] == index[i - n - 1];
  }

  lemma IndexedElement(name: string, index: string)
    requires Clean(name) && Clean(index)
    ensures ElementAccess(name + "[" + index + "]") == KeyText(name) + IndexText(index)
  {
    hide LastIndexOf, Clean, KeyText, IndexText;
    IndexedChars(name, index);
    var e, n := name + "[" + index + "]", |name|;
    LastIndexIs(e, ']', |e|, |e| - 1);
    LastIndexIs(e, '[', |e| - 1, n);
  }

  /** The element of a segment is compiled to exactly that segment. */
  lemma ElementOfSegment(s: Segment)
    requires GoodSegment(s)
    ensures ElementAccess(SegmentText(s)) == SegmentAccess(s)
  {
    hide ElementAccess, Clean, KeyText, IndexText;
    match s
    case Plain(name) => PlainElement(name);
    case Indexed(name, index) => IndexedElement(name, index);
  }

  lemma {:induction false} SplitPlain(a: string, b: string, current: string)
    requires '/' !in a
    ensures SplitPath(a + b, current) == SplitPath(b, current + a)
  {
    if a == "" {
      assert a + b == b && current + a == current;
    } else {
      assert (a + b)[0] == a[0] && (a + b)[1..] == a[1..] + b;
      SplitPlain(a[1..], b, current + [a[0]]);
      assert current + [a[0]] + a[1..] == current + a;
    }
  }

  lemma SegmentTextClean(s: Segment)
    requires GoodSegment(s)
    ensures '/' !in SegmentText(s) && SegmentText(s) != ""
  {
  }

  /** Splitting the text of a path gives its segments. */
  lemma {:induction false} SplitPathText(segments: seq<Segment>)
    requires forall i :: 0 <= i < |segments| ==> GoodSegment(segments[i])
    ensures ElementsAccess(SplitPath(PathText(segments), "")) == SegmentsAccess(segments)
  {
    hide GoodSegment, SegmentText, ElementAccess, SegmentAccess;
    if segments != [] {
      var e, rest := SegmentText(segments[0]), segments[1..];
      SegmentTextClean(segments[0]);
      ElementOfSegment(segments[0]);
      SplitPathText(rest);
      if rest == [] {
        SplitPlain(e, "", "");
        assert e + "" == e && "" + e == e;
        assert SplitPath("", e) == [e];
        assert [e][1..] == [];
      } else {
        var tail := PathText(rest);
        SplitPlain(e, "/" + tail, "");
        assert e + "/" + tail == e + ("/" + tail) && "" + e == e;
        assert ("/" + tail)[1..] == tail;
        assert SplitPath("/" + tail, e) == [e] + SplitPath(tail, "");
        assert ([e] + SplitPath(tail, ""))[1..] == SplitPath(tail, "");
      }
    }
  }

  lemma {:induction false} SplitJoined(a: string, b: string, current: string)
    ensures SplitPath(a + "/" + b, current) == SplitPath(a, current) + SplitPath(b, "")
  {
    var whole := a + "/" + b;
    if a == "" {
      assert whole[1..] == b;
    } else {
      assert whole[1..] == a[1..] + "/" + b;
      if a[0] == '/' {
        SplitJoined(a[1..], b, "");
      } else {
        SplitJoined(a[1..], b, current + [a[0]]);
      }
    }
  }

  lemma {:induction false} ElementsAccessConcat(a: seq<string>, b: seq<string>)
    ensures ElementsAccess(a + b) == ElementsAccess(a) + ElementsAccess(b)
  {
    hide ElementAccess;
    if a == [] {
      assert a + b == b;
    } else {
      assert (a + b)[1..] == a[1..] + b;
      ElementsAccessConcat(a[1..], b);
    }
  }

  lemma {:induction false} SegmentsAccessConcat(a: seq<Segment>, b: seq<Segment>)
    ensures SegmentsAccess(a + b) == SegmentsAccess(a) + SegmentsAccess(b)
  {
    hide SegmentAccess;
    if a == [] {
      assert a + b == b;
    } else {
      assert (a + b)[1..] == a[1..] + b;
      SegmentsAccessConcat(a[1..], b);
    }
  }

  /** Appending a path to an address appends its index expressions. */
  lemma JoinedAccess(address: string, segments: seq<Segment>)
    requires forall i :: 0 <= i < |segments| ==> GoodSegment(segments[i])
    ensures PathAccess(address + "/" + PathText(segments)) == PathAccess(address) + SegmentsAccess(segments)
  {
    hide SplitPath, ElementsAccess, GoodSegment, PathText, SegmentsAccess;
    SplitJoined(address, PathText(segments), "");
    ElementsAccessConcat(SplitPath(address, ""), SplitPath(PathText(segments), ""));
    SplitPathText(segments);
  }
}
