/** `PointGrid` as it runs (lib/calibration/pointgrid.cpp). */
module PointGrids {
  import opened Common
  import opened OrderedMap
  import opened LineGrids
  import opened PointLines
  import opened PointSweep
  import opened PointGridSpec
  import opened PointGridTheorems
  import opened ColumnGrids

  /** Insert a point into a sorted line, after its equals. */
  function InsertSorted(points: seq<Point>, p: Point, c: Coordinate): (r: seq<Point>)
    requires SortedBy(points, c)
    ensures SortedBy(r, c) && multiset(r) == multiset(points) + multiset{p}
    ensures forall i :: 0 <= i < |r| ==> r[i] == p || r[i] in points
  {
    var n := |points|;
    if n == 0 || At(points[n - 1], c) <= At(p, c) then points + [p]
    else
      assert points == points[..n - 1] + [points[n - 1]];
      InsertSorted(points[..n - 1], p, c) + [points[n - 1]]
  }

  /** Stands for `std::sort`: callers rely on the result being some sorted rearrangement. */
  method SortPoints(points: seq<Point>, c: Coordinate) returns (r: seq<Point>)
    ensures SortedBy(r, c) && multiset(r) == multiset(points)
  {
    r := [];
    for i := 0 to |points|
      invariant SortedBy(r, c) && multiset(r) == multiset(points[..i])
    {
      assert points[..i + 1] == points[..i] + [points[i]];
      r := InsertSorted(r, points[i], c);
    }
    assert points[..|points|] == points;
  }

  /** A temporary map from position to line. */
  class TmpLineMap {
    var slots: Slots

    constructor ()
      ensures slots == []
    {
      slots := [];
    }

    /** Add the point to the nearest line, opening a line when that is further away than MAX_DIFF. */
    method MapAddConstruct(p: Point, c: Coordinate)
      requires Sorted(slots)
      modifies this
      ensures slots == AddedConstruct(old(slots), p, c)
    {
      hide Sorted, Emplace, Erase, LowerBound, PushBack;
      var position := At(p, c);
      if slots == [] {
        slots := [Slot(position, [p])];
        return;
      }
      var chosen := ChooseNearest(slots, position);
      if Abs(slots[chosen].key - position) > MAX_DIFF {
        slots := Emplace(slots, position, []);
      } else {
        var line := slots[chosen].value;
        slots := Erase(slots, chosen);
        slots := Emplace(slots, position, line);
      }
      slots := PushBack(slots, position, p);
    }

    /** Add the point to the nearest line if that is closer than MAX_DIFF. */
    method MapAdd(p: Point, c: Coordinate)
      requires Sorted(slots) && slots != []
      modifies this
      ensures slots == Added(old(slots), p, c)
    {
      hide Sorted, Emplace, Erase, LowerBound, PushBack;
      var position := At(p, c);
      var chosen := ChooseNearest(slots, position);
      if Abs(slots[chosen].key - position) < MAX_DIFF {
        var line := slots[chosen].value;
        slots := Erase(slots, chosen);
        slots := Emplace(slots, position, line);
        slots := PushBack(slots, position, p);
      }
    }

    method Add(op: Op, c: Coordinate)
      requires Sorted(slots) && (slots == [] ==> op.construct)
      modifies this
      ensures slots == Step(old(slots), op, c)
    {
      if op.construct {
        MapAddConstruct(op.point, c);
      } else {
        MapAdd(op.point, c);
      }
    }

    /** Store every line under the coordinate of its first point. */
    method Rekey(c: Coordinate)
      requires NonEmptyLines(slots)
      modifies this
      ensures slots == Rekeyed(old(slots), c)
    {
      hide Emplace, Sorted;
      var tmp: Slots := [];
      for i := 0 to |slots|
        invariant slots == old(slots) && tmp == RekeyedTo(slots, c, i)
      {
        tmp := Emplace(tmp, At(slots[i].value[0], c), slots[i].value);
      }
      slots := tmp;
    }

    /** Sort the points of every line. */
    method SortLines(c: Coordinate)
      modifies this
      ensures Rearranged(old(slots), slots, c)
    {
      hide SortedBy;
      for i := 0 to |slots|
        invariant |slots| == |old(slots)|
        invariant forall k :: i <= k < |slots| ==> slots[k] == old(slots)[k]
        invariant forall k :: 0 <= k < i ==>
                    && slots[k].key == old(slots)[k].key
                    && multiset(slots[k].value) == multiset(old(slots)[k].value)
                    && SortedBy(slots[k].value, c)
      {
        var line := SortPoints(slots[i].value, c);
        slots := slots[i := Slot(slots[i].key, line)];
      }
    }
  }

  /** The choice between the slot at the lower bound and the one before it. */
  method ChooseNearest(m: Slots, position: real) returns (chosen: nat)
    requires Sorted(m) && m != []
    ensures chosen == Nearest(m, position)
  {
    var ub := LowerBound(m, position);
    chosen := ub;
    if ub == |m| {
      chosen := ub - 1;
    } else if ub > 0 && Abs(m[ub - 1].key - position) < Abs(m[ub].key - position) {
      chosen := ub - 1;
    }
  }

  // ---------------------------------------------------------------- phases of finalize

  lemma ForwardOps(acc: seq<Point>)
    requires HasConstructEnd(acc)
    ensures var start, f := |acc| / 3, HorizontalForward(acc);
            && |f| == |acc| - start && start < ConstructEnd(acc, start) < |acc|
            && (forall k :: 0 <= k < |f| ==> f[k] == Op(acc[start + k], start + k < ConstructEnd(acc, start)))
            && Startable([], f) && Startable([], f[..0])
  {
  }

  /** Horizontal lines, first pass: construct from the first third on, then only add. */
  method SweepForward(acc: seq<Point>, m: TmpLineMap)
    requires HasConstructEnd(acc) && m.slots == []
    modifies m
    ensures Startable([], HorizontalForward(acc)) && m.slots == Run([], HorizontalForward(acc), X)
  {
    hide Sorted, Step, Run, HorizontalForward, HasConstructEnd;
    ForwardOps(acc);
    ghost var forward := HorizontalForward(acc);
    var start := |acc| / 3;
    var i := start;
    assert forward[..0] == [];
    while acc[i].y < acc[start].y + CONSTRUCT_LIM
      invariant start <= i <= ConstructEnd(acc, start) < |acc|
      invariant Startable([], forward[..i - start]) && m.slots == Run([], forward[..i - start], X)
      decreases |acc| - i
    {
      RunNext([], forward, i - start, X);
      m.Add(Op(acc[i], true), X);
      i := i + 1;
    }
    while i < |acc|
      invariant ConstructEnd(acc, start) <= i <= |acc|
      invariant Startable([], forward[..i - start]) && m.slots == Run([], forward[..i - start], X)
    {
      RunNext([], forward, i - start, X);
      m.Add(Op(acc[i], false), X);
      i := i + 1;
    }
    assert forward[..|forward|] == forward;
  }

  lemma BackwardOps(acc: seq<Point>)
    requires acc != []
    ensures |HorizontalBackward(acc)| == |acc| / 3 + 1
    ensures forall k :: 0 <= k <= |acc| / 3 ==> HorizontalBackward(acc)[k] == Op(acc[|acc| / 3 - k], false)
  {
  }

  /** Horizontal lines, second pass: from the start back to the first point. */
  method SweepBackward(acc: seq<Point>, m: TmpLineMap)
    requires acc != [] && Sorted(m.slots) && m.slots != []
    modifies m
    ensures m.slots == Run(old(m.slots), HorizontalBackward(acc), X)
  {
    hide Sorted, Step, Run, HorizontalBackward;
    var start := |acc| / 3;
    ghost var backward, before := HorizontalBackward(acc), m.slots;
    BackwardOps(acc);
    assert backward[..0] == [];
    var i := start;
    while i >= 0
      invariant -1 <= i <= start
      invariant Startable(before, backward[..start - i])
      invariant m.slots == Run(before, backward[..start - i], X)
    {
      RunNext(before, backward, start - i, X);
      m.Add(Op(acc[i], false), X);
      i := i - 1;
    }
    assert backward[..|backward|] == backward;
  }

  method BuildHorizontal(acc: seq<Point>) returns (m: TmpLineMap)
    requires HasConstructEnd(acc)
    ensures fresh(m) && m.slots == HorizontalSlots(acc)
  {
    hide Sorted, Run, RekeyedTo, GoodLines, AllKeyedByLast, ConstructEnd;
    m := new TmpLineMap();
    SweepForward(acc, m);
    ForwardGood(HorizontalForward(acc), X);
    m.Rekey(X);
    SweepBackward(acc, m);
  }

  lemma RunNext(m: Slots, ops: seq<Op>, k: nat, c: Coordinate)
    requires Startable(m, ops) && k < |ops|
    ensures Startable(m, ops[..k]) && Startable(m, ops[..k + 1])
    ensures Run(m, ops[..k], c) == [] ==> ops[k].construct
    ensures Run(m, ops[..k + 1], c) == Step(Run(m, ops[..k], c), ops[k], c)
  {
    assert ops[..k + 1] == ops[..k] + [ops[k]];
    RunAppend(m, ops[..k], ops[k], c);
  }

  /** Add all points of one horizontal line. */
  method AddLine(m: TmpLineMap, points: seq<Point>, construct: bool)
    requires Sorted(m.slots) && (m.slots == [] ==> construct)
    modifies m
    ensures Startable(old(m.slots), LineOps(points, construct))
    ensures m.slots == Run(old(m.slots), LineOps(points, construct), Y)
  {
    ghost var ops := LineOps(points, construct);
    assert ops[..0] == [];
    hide Sorted, Step, Run;
    for k := 0 to |points|
      invariant Startable(old(m.slots), ops[..k]) && m.slots == Run(old(m.slots), ops[..k], Y)
    {
      RunNext(old(m.slots), ops, k, Y);
      m.Add(Op(points[k], construct), Y);
    }
    assert ops[..|ops|] == ops;
  }

  /** The additions that one pass over the lines makes to the map of one parity. */
  ghost function PassOps(lines: seq<GridLine>, start: nat, end: int, parity: nat, construct: bool): seq<Op>
    requires -1 <= end <= |lines| && start <= |lines| && (end < start ==> start < |lines|)
  {
    if end > start then UpOps(lines, start, end, parity, construct)
    else DownOps(lines, start, start - end, parity, construct)
  }

  lemma PassStep(lines: seq<GridLine>, start: nat, end: int, i: int, parity: nat, construct: bool)
    requires -1 <= end <= |lines| && start < |lines|
    requires if end > start then start <= i < end else end < i <= start
    ensures var step := if end > start then 1 else -1;
            PassOps(lines, start, i + step, parity, construct) ==
            PassOps(lines, start, i, parity, construct) +
            if i % 2 == parity then LineOps(lines[i].points, construct) else []
  {
  }

  lemma NoPass(lines: seq<GridLine>, start: nat, parity: nat, construct: bool)
    requires start <= |lines|
    ensures PassOps(lines, start, start, parity, construct) == []
  {
  }

  lemma OpsFlag(points: seq<Point>, construct: bool)
    ensures LineOps(points, construct) != [] ==> LineOps(points, construct)[0].construct == construct
  {
  }

  /** Adding one more horizontal line after the additions `done`. */
  lemma RunExtends(m: Slots, done: seq<Op>, points: seq<Point>, construct: bool)
    requires Startable(m, done) && (construct || m != [])
    ensures Startable(m, done + LineOps(points, construct)) && Startable(Run(m, done, Y), LineOps(points, construct))
    ensures Run(m, done + LineOps(points, construct), Y) == Run(Run(m, done, Y), LineOps(points, construct), Y)
  {
    hide Sorted, Run, LineOps;
    OpsFlag(points, construct);
    RunSplit(m, done, LineOps(points, construct), Y);
  }

  /**
    One pass over the lines from `start` to `end` (exclusive, in either direction): points of
    lines with odd index go to one map, points of the others to the other.
   */
  method VerticalLineConstructor(lines: seq<GridLine>, start: nat, end: int, construct: bool,
                                 odd: TmpLineMap, even: TmpLineMap)
    requires -1 <= end <= |lines| && start <= |lines| && (end < start ==> start < |lines|)
    requires odd != even && Sorted(odd.slots) && Sorted(even.slots)
    requires construct || (odd.slots != [] && even.slots != [])
    modifies odd, even
    ensures Startable(old(odd.slots), PassOps(lines, start, end, 0, construct))
    ensures Startable(old(even.slots), PassOps(lines, start, end, 1, construct))
    ensures odd.slots == Run(old(odd.slots), PassOps(lines, start, end, 0, construct), Y)
    ensures even.slots == Run(old(even.slots), PassOps(lines, start, end, 1, construct), Y)
  {
    hide Sorted, Run, LineOps, PassOps;
    var step := if end > start then 1 else -1;
    ghost var odd0, even0 := odd.slots, even.slots;
    var i: int := start;
    NoPass(lines, start, 0, construct);
    NoPass(lines, start, 1, construct);
    while i != end
      invariant if end > start then start <= i <= end else end <= i <= start
      invariant Startable(odd0, PassOps(lines, start, i, 0, construct))
      invariant Startable(even0, PassOps(lines, start, i, 1, construct))
      invariant odd.slots == Run(odd0, PassOps(lines, start, i, 0, construct), Y)
      invariant even.slots == Run(even0, PassOps(lines, start, i, 1, construct), Y)
      decreases if end > start then end - i else i - end
    {
      PassStep(lines, start, end, i, 0, construct);
      PassStep(lines, start, end, i, 1, construct);
      RunExtends(odd0, PassOps(lines, start, i, 0, construct), lines[i].points, construct);
      RunExtends(even0, PassOps(lines, start, i, 1, construct), lines[i].points, construct);
      if i % 2 != 0 {
        assert PassOps(lines, start, i, 0, construct) + [] == PassOps(lines, start, i, 0, construct);
        AddLine(even, lines[i].points, construct);
      } else {
        assert PassOps(lines, start, i, 1, construct) + [] == PassOps(lines, start, i, 1, construct);
        AddLine(odd, lines[i].points, construct);
      }
      i := i + step;
    }
  }

  lemma SweepIsPasses(lines: seq<GridLine>, parity: nat)
    requires |lines| >= 8
    ensures var start := |lines| / 3;
            && VerticalForward(lines, parity) ==
               PassOps(lines, start, start + 6, parity, true) + PassOps(lines, start + 6, |lines|, parity, false)
            && VerticalBackward(lines, parity) == PassOps(lines, start, -1, parity, false)
  {
  }

  /** Both forward passes over one map are one run. */
  lemma ForwardPasses(lines: seq<GridLine>, parity: nat, first: seq<Op>, second: seq<Op>)
    requires |lines| >= 8 && NoEmptyLine(lines) && parity < 2
    requires VerticalForward(lines, parity) == first + second
    ensures ValidSweep(first + second) && Startable([], first + second)
    ensures Startable([], first) && Startable(Run([], first, Y), second)
    ensures Run(Run([], first, Y), second, Y) == Run([], first + second, Y)
    ensures NonEmptyLines(Run([], first + second, Y))
  {
    hide Run, Sorted, GoodLines, AllKeyedByLast;
    VerticalValid(lines, parity);
    ForwardGood(first + second, Y);
    RunSplit([], first, second, Y);
  }

  /** The constructing pass leaves both maps non-empty. */
  lemma ConstructingPass(lines: seq<GridLine>, parity: nat)
    requires |lines| >= 8 && NoEmptyLine(lines) && parity < 2
    ensures PassOps(lines, |lines| / 3, |lines| / 3 + 6, parity, true) != []
  {
    var start := |lines| / 3;
    UpOpsIncludes(lines, start, start + 6, parity, true, if start % 2 == parity then start else start + 1);
  }

  method BuildVertical(lines: seq<GridLine>) returns (odd: TmpLineMap, even: TmpLineMap)
    requires |lines| >= 8 && NoEmptyLine(lines)
    ensures fresh(odd) && fresh(even) && odd != even
    ensures odd.slots == VerticalSlots(lines, 0) && even.slots == VerticalSlots(lines, 1)
  {
    hide Run, PassOps, VerticalForward, VerticalBackward, Rekeyed, NoEmptyLine;
    odd := new TmpLineMap();
    even := new TmpLineMap();
    var start := |lines| / 3;
    VerticalLineConstructor(lines, start, start + 6, true, odd, even);
    ConstructingPass(lines, 0);
    ConstructingPass(lines, 1);
    VerticalLineConstructor(lines, start + 6, |lines|, false, odd, even);
    SweepIsPasses(lines, 0);
    SweepIsPasses(lines, 1);
    ForwardPasses(lines, 0, PassOps(lines, start, start + 6, 0, true), PassOps(lines, start + 6, |lines|, 0, false));
    ForwardPasses(lines, 1, PassOps(lines, start, start + 6, 1, true), PassOps(lines, start + 6, |lines|, 1, false));
    odd.Rekey(Y);
    even.Rekey(Y);
    RekeyedMap(VerticalForward(lines, 0), Y);
    RekeyedMap(VerticalForward(lines, 1), Y);
    VerticalLineConstructor(lines, start, -1, false, odd, even);
  }

  lemma RekeyedMap(forward: seq<Op>, c: Coordinate)
    requires ValidSweep(forward)
    ensures Startable([], forward) && NonEmptyLines(Run([], forward, c))
    ensures Sorted(Rekeyed(Run([], forward, c), c)) && Rekeyed(Run([], forward, c), c) != []
  {
    ForwardGood(forward, c);
  }

  // ---------------------------------------------------------------- lists of lines

  /** The horizontal lines in key order, tagged alternately. */
  method ListHorizontal(m: TmpLineMap) returns (lines: seq<GridLine>)
    ensures lines == Tagged(m.slots)
  {
    lines := [];
    for i := 0 to |m.slots|
      invariant |lines| == i && forall k :: 0 <= k < i ==> lines[k] == Tagged(m.slots)[k]
    {
      lines := lines + [GridLine(if |lines| % 2 == 0 then SUBGRID_A else SUBGRID_B, m.slots[i].value)];
    }
  }

  lemma NextListed(odd: Slots, even: Slots)
    requires odd != [] || even != []
    ensures LinesOf(Interleaved(odd, even)) ==
            if even == [] || (odd != [] && odd[0].key < even[0].key) then
              [GridLine(SUBGRID_A, odd[0].value)] + LinesOf(Interleaved(odd[1..], even))
            else
              [GridLine(SUBGRID_B, even[0].value)] + LinesOf(Interleaved(odd, even[1..]))
  {
  }

  lemma NothingListed()
    ensures LinesOf(Interleaved([], [])) == []
  {
  }

  /** Merge both families of vertical lines by key. */
  method ListVertical(odd: TmpLineMap, even: TmpLineMap) returns (lines: seq<GridLine>)
    ensures lines == LinesOf(Interleaved(odd.slots, even.slots))
  {
    hide LinesOf, Interleaved;
    lines := [];
    var i, j := 0, 0;
    assert odd.slots[0..] == odd.slots && even.slots[0..] == even.slots;
    while i < |odd.slots| || j < |even.slots|
      invariant i <= |odd.slots| && j <= |even.slots|
      invariant lines + LinesOf(Interleaved(odd.slots[i..], even.slots[j..])) == LinesOf(Interleaved(odd.slots, even.slots))
      decreases |odd.slots| + |even.slots| - i - j
    {
      ghost var o, e := odd.slots[i..], even.slots[j..];
      assert i < |odd.slots| ==> o[1..] == odd.slots[i + 1..];
      assert j < |even.slots| ==> e[1..] == even.slots[j + 1..];
      NextListed(o, e);
      if j == |even.slots| || (i < |odd.slots| && odd.slots[i].key < even.slots[j].key) {
        lines := lines + [GridLine(SUBGRID_A, odd.slots[i].value)];
        i := i + 1;
      } else {
        lines := lines + [GridLine(SUBGRID_B, even.slots[j].value)];
        j := j + 1;
      }
    }
    assert odd.slots[i..] == [] && even.slots[j..] == [];
    NothingListed();
  }

  // ---------------------------------------------------------------- pruning

  method CollectPoints(lines: seq<GridLine>) returns (points: set<Point>)
    ensures points == PointSet(lines)
  {
    points := {};
    for i := 0 to |lines|
      invariant points == PointSet(lines[..i])
    {
      points := points + set p | p in lines[i].points;
      PointSetStep(lines, i);
    }
    assert lines[..|lines|] == lines;
  }

  lemma PointSetStep(lines: seq<GridLine>, i: nat)
    requires i < |lines|
    ensures PointSet(lines[..i + 1]) == PointSet(lines[..i]) + set p | p in lines[i].points
  {
    assert lines[..i + 1][i] == lines[i];
    forall p | p in PointSet(lines[..i])
      ensures p in PointSet(lines[..i + 1])
    {
      var k :| 0 <= k < i && p in lines[..i][k].points;
      assert p in lines[..i + 1][k].points;
    }
    forall p | p in PointSet(lines[..i + 1])
      ensures p in PointSet(lines[..i]) || p in lines[i].points
    {
      var k :| 0 <= k < i + 1 && p in lines[..i + 1][k].points;
      if k < i {
        assert p in lines[..i][k].points;
      }
    }
  }

  /** The points of one line that are kept; the others leave the storage as well. */
  lemma OneMore(points: seq<Point>, i: nat, p: Point)
    requires i < |points|
    ensures p in points[..i + 1] <==> p in points[..i] || p == points[i]
  {
    assert points[..i + 1] == points[..i] + [points[i]];
  }

  method PruneLine(points: seq<Point>, keep: set<Point>, storage: set<Point>)
    returns (kept: seq<Point>, storage': set<Point>)
    ensures kept == Kept(points, keep)
    ensures storage' == set p | p in storage && (p in points ==> p in keep)
  {
    kept, storage' := [], storage;
    for i := 0 to |points|
      invariant kept == Kept(points[..i], keep)
      invariant storage' == set p | p in storage && (p in points[..i] ==> p in keep)
    {
      assert points[..i + 1][..i] == points[..i];
      forall p
        ensures p in points[..i + 1] <==> p in points[..i] || p == points[i]
      {
        OneMore(points, i, p);
      }
      if points[i] in keep {
        kept := kept + [points[i]];
      } else {
        storage' := storage' - {points[i]};
      }
    }
    assert points[..|points|] == points;
  }

  ghost predicate DroppedBefore(lines: seq<GridLine>, n: int, keep: set<Point>, p: Point) {
    exists i :: i < n && Lies(lines, i, p) && p !in keep
  }

  method PruneLines(lines: seq<GridLine>, keep: set<Point>, storage: set<Point>)
    returns (pruned: seq<GridLine>, storage': set<Point>)
    ensures pruned == Pruned(lines, keep)
    ensures storage' <= storage
    ensures forall p :: p in storage ==> (p in storage' <==> !DroppedBefore(lines, |lines|, keep, p))
  {
    hide Kept;
    pruned, storage' := [], storage;
    for i := 0 to |lines|
      invariant |pruned| == i && forall k :: 0 <= k < i ==> pruned[k] == Pruned(lines, keep)[k]
      invariant storage' <= storage
      invariant forall p :: p in storage ==> (p in storage' <==> !DroppedBefore(lines, i, keep, p))
    {
      ghost var before := storage';
      var kept;
      kept, storage' := PruneLine(lines[i].points, keep, storage');
      pruned := pruned + [GridLine(lines[i].subgrid, kept)];
      forall p | p in storage
        ensures p in storage' <==> !DroppedBefore(lines, i + 1, keep, p)
      {
        assert Lies(lines, i, p) <==> p in lines[i].points;
        assert DroppedBefore(lines, i + 1, keep, p) <==>
               DroppedBefore(lines, i, keep, p) || (p in lines[i].points && p !in keep);
      }
    }
  }

  // ---------------------------------------------------------------- links

  /** `n` is the last line that holds the point. */
  ghost predicate LastLine(lines: seq<GridLine>, n: int, p: Point) {
    Lies(lines, n, p) && forall i :: Lies(lines, i, p) ==> i <= n
  }

  /** Set the vertical link of every point to the last vertical line that holds it. */
  method LinkVertical(lines: seq<GridLine>)
    modifies PointSet(lines)`verticalLine
    ensures forall p :: p in PointSet(lines) ==> LastLine(lines, p.verticalLine, p)
  {
    for i := 0 to |lines|
      invariant forall n, p {:trigger Lies(lines, n, p)} :: n < i && Lies(lines, n, p) ==> Lies(lines, p.verticalLine, p) && n <= p.verticalLine < i
    {
      ghost var points := lines[i].points;
      for k := 0 to |lines[i].points|
        invariant forall n, p {:trigger Lies(lines, n, p)} :: n < i && Lies(lines, n, p) ==> Lies(lines, p.verticalLine, p) && n <= p.verticalLine <= i
        invariant forall l :: 0 <= l < k ==> points[l].verticalLine == i
      {
        assert Lies(lines, i, points[k]);
        lines[i].points[k].verticalLine := i;
      }
    }
    forall p | p in PointSet(lines)
      ensures LastLine(lines, p.verticalLine, p)
    {
      PointSetLies(lines, p);
    }
  }

  /** Set the horizontal link of every point to the last horizontal line that holds it. */
  method LinkHorizontal(lines: seq<GridLine>)
    modifies PointSet(lines)`horizontalLine
    ensures forall p :: p in PointSet(lines) ==> LastLine(lines, p.horizontalLine, p)
  {
    for i := 0 to |lines|
      invariant forall n, p {:trigger Lies(lines, n, p)} :: n < i && Lies(lines, n, p) ==> Lies(lines, p.horizontalLine, p) && n <= p.horizontalLine < i
    {
      ghost var points := lines[i].points;
      for k := 0 to |lines[i].points|
        invariant forall n, p {:trigger Lies(lines, n, p)} :: n < i && Lies(lines, n, p) ==> Lies(lines, p.horizontalLine, p) && n <= p.horizontalLine <= i
        invariant forall l :: 0 <= l < k ==> points[l].horizontalLine == i
      {
        assert Lies(lines, i, points[k]);
        lines[i].points[k].horizontalLine := i;
      }
    }
    forall p | p in PointSet(lines)
      ensures LastLine(lines, p.horizontalLine, p)
    {
      PointSetLies(lines, p);
    }
  }

  lemma LiesInRange(lines: seq<GridLine>, i: int, p: Point)
    requires Lies(lines, i, p)
    ensures 0 <= i < |lines|
  {
  }

  /** What is left in the storage are exactly the points of the pruned lines. */
  lemma PrunedStorage(lines: seq<GridLine>, keep: set<Point>, acc: seq<Point>, storage: set<Point>)
    requires forall p :: p in PointSet(Pruned(lines, keep)) ==> p in acc
    requires forall p :: p in acc && p in PointSet(lines) ==> (p in storage <==> !DroppedBefore(lines, |lines|, keep, p))
    requires forall p :: p in storage ==> p in acc && p in PointSet(lines)
    ensures storage == PointSet(Pruned(lines, keep))
  {
    hide PointSet, Pruned, Lies;
    forall p | p in storage
      ensures p in PointSet(Pruned(lines, keep))
    {
      PointSetLies(lines, p);
      PointSetLies(Pruned(lines, keep), p);
      var i :| Lies(lines, i, p);
      LiesInRange(lines, i, p);
      PrunedLies(lines, keep, i, p);
    }
    forall p | p in PointSet(Pruned(lines, keep))
      ensures p in storage
    {
      PointSetLies(lines, p);
      PointSetLies(Pruned(lines, keep), p);
      var i :| Lies(Pruned(lines, keep), i, p);
      PrunedLies(lines, keep, i, p);
      assert Lies(lines, i, p);
    }
  }

  lemma HorizontalLinesExist(acc: seq<Point>, hs: Slots)
    requires acc != [] && Rearranged(HorizontalSlots(acc), hs, Y)
    ensures |hs| == |HorizontalSlots(acc)| && NoEmptyLine(Tagged(hs))
  {
    hide Swept, SortedBy;
    SweptGood(HorizontalForward(acc), HorizontalBackward(acc), X);
    RearrangedKeeps(HorizontalSlots(acc), hs, Y);
  }

  // ---------------------------------------------------------------- the grid

  ghost function SetOf(points: seq<Point>): set<Point> {
    set p | p in points
  }

  class PointGrid {
    var accumulator: seq<Point>
    var storage: set<Point>
    var linesHorizontal: seq<GridLine>
    var linesVertical: seq<GridLine>

    /** Points are being added; no lines have been built yet. */
    ghost predicate Collecting()
      reads this
    {
      && DistinctPoints(accumulator)
      && storage == SetOf(accumulator)
      && linesHorizontal == [] && linesVertical == []
    }

    constructor ()
      ensures Collecting() && accumulator == []
    {
      accumulator, storage := [], {};
      linesHorizontal, linesVertical := [], [];
    }

    method AddPoint(x: real, y: real) returns (p: Point)
      requires Collecting()
      modifies this
      ensures fresh(p) && p.x == x && p.y == y
      ensures Collecting() && accumulator == old(accumulator) + [p]
    {
      p := new Point(x, y);
      storage := storage + {p};
      accumulator := accumulator + [p];
      assert SetOf(accumulator) == SetOf(old(accumulator)) + {p};
    }

    /** The stored points and the points of either family of lines are the same. */
    ghost predicate SamePointsEverywhere()
      reads this
    {
      storage == PointSet(linesHorizontal) == PointSet(linesVertical)
    }

    /** Both links of every stored point name a line that holds it, the horizontal one the only such line. */
    ghost predicate Linked()
      reads this, storage
    {
      forall p :: p in storage ==>
        && LastLine(linesVertical, p.verticalLine, p)
        && Lies(linesHorizontal, p.horizontalLine, p)
        && (forall h :: Lies(linesHorizontal, h, p) ==> h == p.horizontalLine)
        && (forall v :: Lies(linesVertical, v, p) ==>
              linesVertical[v].subgrid == linesHorizontal[p.horizontalLine].subgrid)
    }

    /** Remove the points that are not on both a horizontal and a vertical line. */
    method Prune(ghost hs: Slots, ghost odd: Slots, ghost even: Slots)
      requires Finalization(accumulator, hs, odd, even)
      requires storage == SetOf(accumulator)
      requires linesHorizontal == Tagged(hs) && linesVertical == FinalVertical(odd, even)
      modifies this`storage, this`linesHorizontal
      ensures linesHorizontal == FinalHorizontal(hs, odd, even) && SamePointsEverywhere()
      ensures storage <= old(storage)
    {
      hide Finalization, Tagged, FinalVertical, PointSet, DroppedBefore, Kept;
      var testPoints := CollectPoints(linesHorizontal);
      storage := set p | p in storage && p in testPoints;
      testPoints := CollectPoints(linesVertical);
      linesHorizontal, storage := PruneLines(linesHorizontal, testPoints, storage);
      SamePoints(accumulator, hs, odd, even);
      PrunedStorage(Tagged(hs), PointSet(FinalVertical(odd, even)), accumulator, storage);
    }

    lemma LinksAgree(hs: Slots, odd: Slots, even: Slots)
      requires Finalization(accumulator, hs, odd, even) && SamePointsEverywhere()
      requires linesVertical == FinalVertical(odd, even) && linesHorizontal == FinalHorizontal(hs, odd, even)
      requires forall p :: p in storage ==> LastLine(linesVertical, p.verticalLine, p)
      requires forall p :: p in storage ==> LastLine(linesHorizontal, p.horizontalLine, p)
      ensures Linked()
    {
      hide Finalization, FinalHorizontal, FinalVertical, PointSet, Lies;
      forall p, h | p in storage && Lies(linesHorizontal, h, p)
        ensures h == p.horizontalLine
      {
        OneHorizontalLine(accumulator, hs, odd, even, h, p.horizontalLine, p);
      }
      forall p, v | p in storage && Lies(linesVertical, v, p)
        ensures 0 <= v < |linesVertical| && p.horizontalLine < |linesHorizontal|
        ensures linesVertical[v].subgrid == linesHorizontal[p.horizontalLine].subgrid
      {
        LiesInRange(linesVertical, v, p);
        LiesInRange(linesHorizontal, p.horizontalLine, p);
        SubgridsAgree(accumulator, hs, odd, even, p.horizontalLine, v, p);
      }
    }

    /**
      Build the lines.  `hs`, `odd` and `even` are the line maps after their sorts; the
      horizontal lines are `hs` without the points that are on no vertical line.
     */
    method Finalize() returns (ghost hs: Slots, ghost odd: Slots, ghost even: Slots)
      requires Collecting() && HasConstructEnd(accumulator) && |HorizontalSlots(accumulator)| >= 8
      modifies this, storage
      ensures accumulator == old(accumulator) && Finalization(accumulator, hs, odd, even)
      ensures linesVertical == FinalVertical(odd, even)
      ensures linesHorizontal == FinalHorizontal(hs, odd, even)
      ensures SamePointsEverywhere() && Linked()
      ensures forall p, v :: p in storage && Lies(linesVertical, v, p) ==> v <= p.verticalLine
      ensures forall i :: 0 <= i < |linesHorizontal| ==> (linesHorizontal[i].subgrid == SUBGRID_A <==> i % 2 == 0)
      ensures InYOrder(accumulator) && PairwiseApart(accumulator, X) ==>
                forall p :: p in accumulator ==>
                  ((exists i :: Lies(Tagged(hs), i, p)) <==> Constructed(accumulator, p.x))
      ensures PairwiseApart(accumulator, Y) ==>
                forall h: nat, p :: Lies(Tagged(hs), h, p) ==>
                  (p in storage <==> ConstructedRow(Tagged(hs), h % 2, p.y))
    {
      hide HorizontalSlots, VerticalSlots, Rearranged, FinalHorizontal, NoEmptyLine, Tagged, PointSet, LastLine,
           DistinctPoints, LinesOf, Linked;
      var map0 := BuildHorizontal(accumulator);
      map0.SortLines(Y);
      hs := map0.slots;
      HorizontalLinesExist(accumulator, hs);
      linesHorizontal := ListHorizontal(map0);
      var mapOdd, mapEven := BuildVertical(linesHorizontal);
      mapOdd.SortLines(X);
      mapEven.SortLines(X);
      odd, even := mapOdd.slots, mapEven.slots;
      linesVertical := ListVertical(mapOdd, mapEven);
      assert Finalization(accumulator, hs, odd, even);
      Prune(hs, odd, even);
      LinkVertical(linesVertical);
      LinkHorizontal(linesHorizontal);
      LinksAgree(hs, odd, even);
      TagsAlternate(hs, odd, even);
      WhichPoints(hs, odd, even);
      LastLinks();
    }

    lemma LastLinks()
      requires Linked()
      ensures forall p, v :: p in storage && Lies(linesVertical, v, p) ==> v <= p.verticalLine
    {
    }

    lemma TagsAlternate(hs: Slots, odd: Slots, even: Slots)
      requires linesHorizontal == FinalHorizontal(hs, odd, even)
      ensures forall i :: 0 <= i < |linesHorizontal| ==> (linesHorizontal[i].subgrid == SUBGRID_A <==> i % 2 == 0)
    {
      hide PointSet, FinalVertical, Kept;
    }

    /** Points in columns and rows: which are on the horizontal lines, and which stay. */
    lemma WhichPoints(hs: Slots, odd: Slots, even: Slots)
      requires Finalization(accumulator, hs, odd, even) && SamePointsEverywhere()
      requires linesVertical == FinalVertical(odd, even)
      ensures InYOrder(accumulator) && PairwiseApart(accumulator, X) ==>
                forall p :: p in accumulator ==>
                  ((exists i :: Lies(Tagged(hs), i, p)) <==> Constructed(accumulator, p.x))
      ensures PairwiseApart(accumulator, Y) ==>
                forall h: nat, p :: Lies(Tagged(hs), h, p) ==>
                  (p in storage <==> ConstructedRow(Tagged(hs), h % 2, p.y))
    {
      hide Finalization, FinalVertical, PointSet, Lies, Tagged, PairwiseApart, InYOrder, ConstructedRow;
      if InYOrder(accumulator) && PairwiseApart(accumulator, X) {
        forall p | p in accumulator
          ensures (exists i :: Lies(Tagged(hs), i, p)) <==> Constructed(accumulator, p.x)
        {
          ListedIff(accumulator, hs, odd, even, p);
        }
      }
      if PairwiseApart(accumulator, Y) {
        forall h: nat, p | Lies(Tagged(hs), h, p)
          ensures p in storage <==> ConstructedRow(Tagged(hs), h % 2, p.y)
        {
          StaysIff(accumulator, hs, odd, even, h, p);
          OwnParity(accumulator, hs, odd, even, h, p);
          RowIff(Tagged(hs), h % 2, p.y);
          PointSetLies(linesVertical, p);
        }
      }
    }

    /**
      The copy constructor.  Looking a point up that is not stored would yield null, so every
      point of a line must be stored, which `Finalize` guarantees.
     */
    static method CopyOf(other: PointGrid) returns (copy: PointGrid, ghost pointMap: map<Point, Point>)
      requires PointSet(other.linesHorizontal) <= other.storage && PointSet(other.linesVertical) <= other.storage
      ensures fresh(copy) && fresh(copy.storage)
      ensures PointCopies(pointMap, other.storage, copy.storage)
      ensures CopiedLines(other.linesHorizontal, copy.linesHorizontal, pointMap)
      ensures CopiedLines(other.linesVertical, copy.linesVertical, pointMap)
    {
      hide PointSet, CopiedLines, PointCopies;
      copy := new PointGrid();
      var copies, storage' := CopyStorage(other.storage);
      copy.storage := storage';
      assert copies.Keys == other.storage by { PointCopiesKeys(copies, other.storage, storage'); }
      copy.linesHorizontal := CopyLines(other.linesHorizontal, copies);
      copy.linesVertical := CopyLines(other.linesVertical, copies);
      pointMap := copies;
    }
  }

  method CopyStorage(storage: set<Point>) returns (copies: map<Point, Point>, storage': set<Point>)
    ensures fresh(storage') && PointCopies(copies, storage, storage')
  {
    hide PointCopies;
    copies, storage' := map[], {};
    NoCopies();
    var todo, done := storage, {};
    while todo != {}
      invariant todo + done == storage && todo !! done
      invariant fresh(storage') && PointCopies(copies, done, storage')
      decreases todo
    {
      var p :| p in todo;
      var q := new Point(p.x, p.y, p.horizontalLine, p.verticalLine);
      AnotherCopy(copies, done, storage', p, q);
      copies, storage' := copies[p := q], storage' + {q};
      todo, done := todo - {p}, done + {p};
    }
    assert done == storage;
  }

  lemma NoCopies()
    ensures PointCopies(map[], {}, {})
  {
  }

  lemma PointCopiesKeys(m: map<Point, Point>, points: set<Point>, points': set<Point>)
    requires PointCopies(m, points, points')
    ensures m.Keys == points
  {
  }

  /** `m` maps the old points one to one onto the new ones, with the same positions and links. */
  ghost predicate PointCopies(m: map<Point, Point>, points: set<Point>, points': set<Point>)
    reads points, points'
  {
    && m.Keys == points
    && (forall p :: p in points ==> m[p] in points')
    && (forall q :: q in points' ==> exists p :: p in points && m[p] == q)
    && (forall p, q :: p in points && q in points && m[p] == m[q] ==> p == q)
    && (forall p :: p in points ==> SamePoint(p, m[p]))
  }

  ghost predicate SamePoint(p: Point, q: Point)
    reads p, q
  {
    p.x == q.x && p.y == q.y && p.horizontalLine == q.horizontalLine && p.verticalLine == q.verticalLine
  }

  lemma AnotherCopy(m: map<Point, Point>, points: set<Point>, points': set<Point>, p: Point, q: Point)
    requires PointCopies(m, points, points') && p !in points && q !in points' && SamePoint(p, q)
    ensures PointCopies(m[p := q], points + {p}, points' + {q})
  {
    var m' := m[p := q];
    forall r | r in points' + {q}
      ensures exists o :: o in points + {p} && m'[o] == r
    {
      if r in points' {
        var o: Point :| o in points && m[o] == r;
        assert m'[o] == r;
      } else {
        assert m'[p] == r;
      }
    }
  }

  ghost predicate CopiedPoints(points: seq<Point>, points': seq<Point>, m: map<Point, Point>) {
    && |points'| == |points|
    && forall k :: 0 <= k < |points| ==> points[k] in m && points'[k] == m[points[k]]
  }

  /** The same lines, tag by tag and point by point, over the new points. */
  ghost predicate CopiedLines(lines: seq<GridLine>, lines': seq<GridLine>, m: map<Point, Point>) {
    && |lines'| == |lines|
    && forall i :: 0 <= i < |lines| ==>
         lines'[i].subgrid == lines[i].subgrid && CopiedPoints(lines[i].points, lines'[i].points, m)
  }

  method CopyPoints(points: seq<Point>, m: map<Point, Point>) returns (points': seq<Point>)
    requires forall p :: p in points ==> p in m
    ensures CopiedPoints(points, points', m)
  {
    points' := [];
    for k := 0 to |points|
      invariant |points'| == k && forall l :: 0 <= l < k ==> points'[l] == m[points[l]]
    {
      points' := points' + [m[points[k]]];
    }
  }

  method CopyLines(lines: seq<GridLine>, m: map<Point, Point>) returns (lines': seq<GridLine>)
    requires PointSet(lines) <= m.Keys
    ensures CopiedLines(lines, lines', m)
  {
    lines' := [];
    for i := 0 to |lines|
      invariant |lines'| == i
      invariant forall k :: 0 <= k < i ==>
                  lines'[k].subgrid == lines[k].subgrid && CopiedPoints(lines[k].points, lines'[k].points, m)
    {
      assert forall p :: p in lines[i].points ==> p in PointSet(lines);
      var points' := CopyPoints(lines[i].points, m);
      lines' := lines' + [GridLine(lines[i].subgrid, points')];
    }
  }

  lemma CopiedLies(lines: seq<GridLine>, lines': seq<GridLine>, m: map<Point, Point>, i: int, p: Point)
    requires CopiedLines(lines, lines', m) && p in m
    requires forall q, r :: q in m && r in m && m[q] == m[r] ==> q == r
    ensures Lies(lines, i, p) <==> Lies(lines', i, m[p])
  {
    if Lies(lines, i, p) {
      var k :| 0 <= k < |lines[i].points| && lines[i].points[k] == p;
      assert lines'[i].points[k] == m[p];
    }
    if Lies(lines', i, m[p]) {
      var k :| 0 <= k < |lines'[i].points| && lines'[i].points[k] == m[p];
      assert lines[i].points[k] in m;
    }
  }

  /** A copy of a consistently linked grid is consistently linked, over its own points. */
  lemma CopyIsLinked(grid: PointGrid, copy: PointGrid, m: map<Point, Point>)
    requires grid.Linked() && PointCopies(m, grid.storage, copy.storage)
    requires CopiedLines(grid.linesHorizontal, copy.linesHorizontal, m)
    requires CopiedLines(grid.linesVertical, copy.linesVertical, m)
    ensures copy.Linked()
  {
    hide Lies, CopiedPoints;
    forall q | q in copy.storage
      ensures LastLine(copy.linesVertical, q.verticalLine, q)
      ensures Lies(copy.linesHorizontal, q.horizontalLine, q)
      ensures forall h :: Lies(copy.linesHorizontal, h, q) ==> h == q.horizontalLine
      ensures forall v :: Lies(copy.linesVertical, v, q) ==>
                && 0 <= v < |copy.linesVertical| && 0 <= q.horizontalLine < |copy.linesHorizontal|
                && copy.linesVertical[v].subgrid == copy.linesHorizontal[q.horizontalLine].subgrid
    {
      var p: Point :| p in grid.storage && m[p] == q;
      assert SamePoint(p, q);
      forall i
        ensures Lies(grid.linesHorizontal, i, p) <==> Lies(copy.linesHorizontal, i, q)
        ensures Lies(grid.linesVertical, i, p) <==> Lies(copy.linesVertical, i, q)
      {
        CopiedLies(grid.linesHorizontal, copy.linesHorizontal, m, i, p);
        CopiedLies(grid.linesVertical, copy.linesVertical, m, i, p);
      }
      LiesInRange(copy.linesHorizontal, q.horizontalLine, q);
      forall v | Lies(copy.linesVertical, v, q)
        ensures 0 <= v < |copy.linesVertical|
        ensures copy.linesVertical[v].subgrid == copy.linesHorizontal[q.horizontalLine].subgrid
      {
        LiesInRange(copy.linesVertical, v, q);
      }
    }
  }
}
