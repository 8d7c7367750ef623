/**
  Which accumulated points are on the lines of a grid (lib/calibration/pointgrid.cpp:122-283),
  for points in columns and rows: any two x-coordinates equal or more than 3 apart, and likewise
  the y-coordinates.

  A point is on a horizontal line if and only if a point of the construction, which is less than
  20 below the start in the first third, has the same x.  It stays on it if and only if one of
  the six horizontal lines from the first third on, of the same parity, has a point at its y.
 */
module ColumnGrids {
  import opened Common
  import opened OrderedMap
  import opened LineGrids
  import opened PointLines
  import opened PointSweep
  import opened PointGridSpec
  import opened PointGridTheorems
  import opened LineGroups
  import opened HorizontalLines
  import opened VerticalLines
  import opened ColumnSweep

  ghost predicate PairwiseApart(points: seq<Point>, c: Coordinate) {
    forall i, j :: 0 <= i < |points| && 0 <= j < |points| ==>
      At(points[i], c) == At(points[j], c) || Abs(At(points[i], c) - At(points[j], c)) > 3.0
  }

  /** Some point in or after the first third, less than 20 below its start, has this x. */
  ghost predicate Constructed(acc: seq<Point>, x: real) {
    exists k :: |acc| / 3 <= k < |acc| && acc[k].y < acc[|acc| / 3].y + 20.0 && acc[k].x == x
  }

  // ---------------------------------------------------------------- horizontal lines

  lemma {:induction false} OpsFromPoints(ops: seq<Op>, points: seq<Point>, c: Coordinate)
    requires PairwiseApart(points, c) && forall i :: 0 <= i < |ops| ==> ops[i].point in points
    ensures Columnar(ops, c)
  {
    forall i, j | 0 <= i < |ops| && 0 <= j < |ops|
      ensures At(ops[i].point, c) == At(ops[j].point, c) || Abs(At(ops[i].point, c) - At(ops[j].point, c)) > 3.0
    {
      var a :| 0 <= a < |points| && points[a] == ops[i].point;
      var b :| 0 <= b < |points| && points[b] == ops[j].point;
    }
  }

  /** The additions of the horizontal sweep: construction, the points after it, and the way back. */
  lemma {:induction false} HorizontalOps(acc: seq<Point>) returns (built: seq<Op>, added: seq<Op>)
    requires acc != [] && InYOrder(acc)
    ensures HorizontalForward(acc) == built + added && built != []
    ensures AllConstruct(built) && NoneConstructs(added) && NoneConstructs(HorizontalBackward(acc))
    ensures forall x :: AddedAt(built, x, X) <==> Constructed(acc, x)
    ensures forall p :: InOps(built + added + HorizontalBackward(acc), p) <==> p in acc
    ensures forall i :: 0 <= i < |built + added + HorizontalBackward(acc)| ==>
              (built + added + HorizontalBackward(acc))[i].point in acc
  {
    var start := |acc| / 3;
    var end := ConstructEnd(acc, start);
    assert end > start;
    built, added := LineOps(acc[start..end], true), LineOps(acc[end..], false);
    assert HorizontalForward(acc) == built + added;
    hide ConstructEnd, HorizontalForward;
    BuiltAt(acc, built, end);
    ForwardPoints(acc, built + added);
    hide LineOps, Constructed, AddedAt, InYOrder;
    AllPoints(acc, built + added, HorizontalBackward(acc));
  }

  lemma {:induction false} ForwardPoints(acc: seq<Point>, forward: seq<Op>)
    requires acc != [] && forward == HorizontalForward(acc)
    ensures |forward| == |acc| - |acc| / 3 && forall i :: 0 <= i < |forward| ==> forward[i].point == acc[|acc| / 3 + i]
  {
    hide ConstructEnd;
  }

  /** Every accumulated point is in one of the passes. */
  lemma {:induction false} AllPoints(acc: seq<Point>, forward: seq<Op>, backward: seq<Op>)
    requires acc != [] && backward == HorizontalBackward(acc)
    requires |forward| == |acc| - |acc| / 3 && forall i :: 0 <= i < |forward| ==> forward[i].point == acc[|acc| / 3 + i]
    ensures forall p :: InOps(forward + backward, p) <==> p in acc
    ensures forall i :: 0 <= i < |forward + backward| ==> (forward + backward)[i].point in acc
  {
    var start, ops := |acc| / 3, forward + backward;
    forall i | 0 <= i < |ops|
      ensures ops[i].point in acc
    {
      assert ops[i].point == if i < |forward| then acc[start + i] else acc[start - (i - |forward|)];
    }
    forall p | p in acc
      ensures InOps(ops, p)
    {
      var i :| 0 <= i < |acc| && acc[i] == p;
      if i < start {
        assert ops[|forward| + (start - i)] == Op(acc[i], false);
      } else {
        assert ops[i - start].point == acc[i];
      }
    }
  }

  lemma {:induction false} BuiltAt(acc: seq<Point>, built: seq<Op>, end: nat)
    requires acc != [] && InYOrder(acc) && |acc| / 3 < end <= |acc| && built == LineOps(acc[|acc| / 3..end], true)
    requires forall k :: |acc| / 3 <= k < end ==> acc[k].y < acc[|acc| / 3].y + 20.0
    requires end < |acc| ==> acc[end].y >= acc[|acc| / 3].y + 20.0
    ensures forall x :: AddedAt(built, x, X) <==> Constructed(acc, x)
  {
    var start := |acc| / 3;
    forall x
      ensures AddedAt(built, x, X) <==> Constructed(acc, x)
    {
      if j :| 0 <= j < |built| && built[j].point.x == x {
        assert acc[start + j].x == x;
      }
      if k :| start <= k < |acc| && acc[k].y < acc[start].y + 20.0 && acc[k].x == x {
        assert k < end;
        assert built[k - start].point == acc[k];
      }
    }
  }

  /** One line per column with a constructing point; it holds exactly the points of the column. */
  lemma {:induction false} HorizontalColumns(acc: seq<Point>)
    requires acc != [] && InYOrder(acc) && PairwiseApart(acc, X)
    ensures var m := HorizontalSlots(acc);
            && (forall x :: HasKey(m, x) <==> Constructed(acc, x))
            && (forall i, p :: Holds(m, i, p) <==> 0 <= i < |m| && p in acc && p.x == m[i].key)
  {
    hide Swept, HorizontalForward, HorizontalBackward, Sorted, AllFlat, AddedAt, Constructed, InOps, HasKey;
    var built, added := HorizontalOps(acc);
    OpsFromPoints(built + added + HorizontalBackward(acc), acc, X);
    SweptExact(built, added, HorizontalBackward(acc), X);
  }

  /** A point is on a horizontal line if and only if its column has a constructing point. */
  lemma {:induction false} OnHorizontalIff(acc: seq<Point>, p: Point)
    requires acc != [] && InYOrder(acc) && PairwiseApart(acc, X) && p in acc
    ensures (exists i :: Holds(HorizontalSlots(acc), i, p)) <==>
            exists k :: |acc| / 3 <= k < |acc| && acc[k].y < acc[|acc| / 3].y + 20.0 && acc[k].x == p.x
  {
    hide HorizontalSlots, Holds;
    HorizontalColumns(acc);
    var m := HorizontalSlots(acc);
    assert HasKey(m, p.x) <==> Constructed(acc, p.x);
    if HasKey(m, p.x) {
      var i :| 0 <= i < |m| && m[i].key == p.x;
      assert Holds(m, i, p);
    }
    if i :| Holds(m, i, p) {
      assert m[i].key == p.x;
    }
  }

  /** Points are on the same horizontal line if and only if they have the same x. */
  lemma {:induction false} SameHorizontalIff(acc: seq<Point>, i: int, j: int, p: Point, q: Point)
    requires acc != [] && InYOrder(acc) && PairwiseApart(acc, X)
    requires Holds(HorizontalSlots(acc), i, p) && Holds(HorizontalSlots(acc), j, q)
    ensures i == j <==> p.x == q.x
  {
    hide Holds, HorizontalSlots, Constructed, HasKey;
    HorizontalColumns(acc);
    var m := HorizontalSlots(acc);
    assert Sorted(m) by { SlotsSorted(acc); }
    assert m[i].key == p.x && m[j].key == q.x;
  }

  lemma {:induction false} SlotsSorted(acc: seq<Point>)
    requires acc != []
    ensures Sorted(HorizontalSlots(acc))
  {
  }

  // ---------------------------------------------------------------- vertical lines

  lemma {:induction false} LineOpsHas(points: seq<Point>, construct: bool, p: Point)
    ensures InOps(LineOps(points, construct), p) <==> p in points
  {
    if p in points {
      var i :| 0 <= i < |points| && points[i] == p;
      assert LineOps(points, construct)[i].point == p;
    }
  }

  lemma {:induction false} InConcat(a: seq<Op>, b: seq<Op>, p: Point)
    ensures InOps(a + b, p) <==> InOps(a, p) || InOps(b, p)
  {
    if i :| 0 <= i < |a| && a[i].point == p {
      assert (a + b)[i] == a[i];
    }
    if i :| 0 <= i < |b| && b[i].point == p {
      assert (a + b)[|a| + i] == b[i];
    }
  }

  lemma {:induction false} InNothing(p: Point)
    ensures !InOps([], p)
  {
  }

  /** The point is on a line of the parity in the range. */
  ghost predicate OnRange(lines: seq<GridLine>, lo: int, hi: int, parity: nat, p: Point) {
    exists i :: lo <= i < hi && i % 2 == parity && Lies(lines, i, p)
  }

  lemma {:induction false} UpOpsHas(lines: seq<GridLine>, lo: nat, hi: nat, parity: nat, construct: bool, p: Point)
    requires lo <= hi <= |lines|
    ensures InOps(UpOps(lines, lo, hi, parity, construct), p) <==> OnRange(lines, lo, hi, parity, p)
    decreases hi
  {
    hide InOps, LineOps;
    InNothing(p);
    if lo < hi {
      UpOpsHas(lines, lo, hi - 1, parity, construct, p);
      var front, last := UpOps(lines, lo, hi - 1, parity, construct), LineOps(lines[hi - 1].points, construct);
      LineOpsHas(lines[hi - 1].points, construct, p);
      assert Lies(lines, hi - 1, p) <==> p in lines[hi - 1].points;
      InConcat(front, if (hi - 1) % 2 == parity then last else [], p);
      assert OnRange(lines, lo, hi, parity, p) <==>
             OnRange(lines, lo, hi - 1, parity, p) || ((hi - 1) % 2 == parity && Lies(lines, hi - 1, p));
    }
  }

  lemma {:induction false} DownOpsHas(lines: seq<GridLine>, start: nat, count: nat, parity: nat, p: Point)
    requires count <= start + 1 && (count > 0 ==> start < |lines|)
    ensures InOps(DownOps(lines, start, count, parity, false), p) <==> OnRange(lines, start - count + 1, start + 1, parity, p)
    ensures NoneConstructs(DownOps(lines, start, count, parity, false))
    decreases count
  {
    hide InOps;
    InNothing(p);
    if count > 0 {
      var n := start - (count - 1);
      DownOpsHas(lines, start, count - 1, parity, p);
      var front, last := DownOps(lines, start, count - 1, parity, false), LineOps(lines[n].points, false);
      LineOpsHas(lines[n].points, false, p);
      assert Lies(lines, n, p) <==> p in lines[n].points;
      InConcat(front, if n % 2 == parity then last else [], p);
      assert OnRange(lines, n, start + 1, parity, p) <==>
             OnRange(lines, n + 1, start + 1, parity, p) || (n % 2 == parity && Lies(lines, n, p));
    }
  }

  /** Some of the six lines from the first third on, of the parity, has a point at this y. */
  ghost predicate ConstructedRow(lines: seq<GridLine>, parity: nat, y: real) {
    exists k, l :: |lines| / 3 <= k < |lines| / 3 + 6 && k < |lines| && k % 2 == parity
                   && 0 <= l < |lines[k].points| && lines[k].points[l].y == y
  }

  lemma {:induction false} RowAdded(lines: seq<GridLine>, parity: nat, y: real)
    requires |lines| >= 8
    ensures AddedAt(UpOps(lines, |lines| / 3, |lines| / 3 + 6, parity, true), y, Y) <==> ConstructedRow(lines, parity, y)
  {
    hide UpOps;
    var start := |lines| / 3;
    var ops := UpOps(lines, start, start + 6, parity, true);
    if j :| 0 <= j < |ops| && ops[j].point.y == y {
      var p := ops[j].point;
      assert InOps(ops, p);
      UpOpsHas(lines, start, start + 6, parity, true, p);
      var i :| start <= i < start + 6 && i % 2 == parity && Lies(lines, i, p);
      var l :| 0 <= l < |lines[i].points| && lines[i].points[l] == p;
    }
    if k, l :| start <= k < start + 6 && k < |lines| && k % 2 == parity && 0 <= l < |lines[k].points| && lines[k].points[l].y == y {
      var p := lines[k].points[l];
      assert Lies(lines, k, p);
      UpOpsHas(lines, start, start + 6, parity, true, p);
      var j :| 0 <= j < |ops| && ops[j].point == p;
    }
  }

  lemma {:induction false} VerticalOps(lines: seq<GridLine>, parity: nat, p: Point)
    requires |lines| >= 8 && parity < 2
    ensures InOps(VerticalForward(lines, parity) + VerticalBackward(lines, parity), p) <==> OnParity(lines, parity, p)
  {
    hide UpOps, DownOps, InOps;
    var start := |lines| / 3;
    var a, b := UpOps(lines, start, start + 6, parity, true), UpOps(lines, start + 6, |lines|, parity, false);
    UpOpsHas(lines, start, start + 6, parity, true, p);
    UpOpsHas(lines, start + 6, |lines|, parity, false, p);
    DownOpsHas(lines, start, start + 1, parity, p);
    InConcat(a, b, p);
    InConcat(a + b, VerticalBackward(lines, parity), p);
    if OnParity(lines, parity, p) {
      var i :| 0 <= i < |lines| && i % 2 == parity && Lies(lines, i, p);
      assert i < start + 1 || (start <= i < start + 6) || start + 6 <= i;
    }
  }

  /** One vertical line per row of the six constructing lines; it holds exactly the points of the row. */
  lemma {:induction false} VerticalRows(lines: seq<GridLine>, parity: nat)
    requires |lines| >= 8 && NoEmptyLine(lines) && parity < 2
    requires forall p, q :: OnParity(lines, parity, p) && OnParity(lines, parity, q) ==> p.y == q.y || Abs(p.y - q.y) > 3.0
    ensures var m := VerticalSlots(lines, parity);
            && (forall y :: HasKey(m, y) <==> ConstructedRow(lines, parity, y))
            && (forall i, p :: Holds(m, i, p) <==> 0 <= i < |m| && OnParity(lines, parity, p) && p.y == m[i].key)
  {
    hide Swept, UpOps, DownOps, Sorted, AllFlat, AddedAt, ConstructedRow, HasKey, OnParity, NoEmptyLine;
    var start := |lines| / 3;
    var built, added := UpOps(lines, start, start + 6, parity, true), UpOps(lines, start + 6, |lines|, parity, false);
    var backward := VerticalBackward(lines, parity);
    VerticalValid(lines, parity);
    UpOpsConstruct(lines, start, start + 6, parity, true);
    UpOpsConstruct(lines, start + 6, |lines|, parity, false);
    BuiltRows(lines, parity);
    forall p
      ensures InOps(built + added + backward, p) <==> OnParity(lines, parity, p)
    {
      VerticalOps(lines, parity, p);
      DownOpsHas(lines, start, start + 1, parity, p);
    }
    RowsColumnar(lines, parity, built + added + backward);
    DownNoneConstructs(lines, parity);
    SweptExact(built, added, backward, Y);
    forall y
      ensures AddedAt(built, y, Y) <==> ConstructedRow(lines, parity, y)
    {
      RowAdded(lines, parity, y);
    }
    hide InOps;
  }

  lemma {:induction false} DownNoneConstructs(lines: seq<GridLine>, parity: nat)
    requires |lines| >= 8
    ensures NoneConstructs(VerticalBackward(lines, parity))
  {
    hide InOps, DownOps;
    DownFlags(lines, |lines| / 3, |lines| / 3 + 1, parity);
  }

  lemma {:induction false} DownFlags(lines: seq<GridLine>, start: nat, count: nat, parity: nat)
    requires count <= start + 1 && (count > 0 ==> start < |lines|)
    ensures NoneConstructs(DownOps(lines, start, count, parity, false))
    decreases count
  {
    if count > 0 {
      DownFlags(lines, start, count - 1, parity);
    }
  }

  lemma {:induction false} BuiltRows(lines: seq<GridLine>, parity: nat)
    requires |lines| >= 8 && NoEmptyLine(lines) && parity < 2
    ensures UpOps(lines, |lines| / 3, |lines| / 3 + 6, parity, true) != []
  {
    hide UpOps;
    var start := |lines| / 3;
    UpOpsIncludes(lines, start, start + 6, parity, true, if start % 2 == parity then start else start + 1);
  }

  lemma {:induction false} RowsColumnar(lines: seq<GridLine>, parity: nat, ops: seq<Op>)
    requires forall p, q :: OnParity(lines, parity, p) && OnParity(lines, parity, q) ==> p.y == q.y || Abs(p.y - q.y) > 3.0
    requires forall p :: InOps(ops, p) <==> OnParity(lines, parity, p)
    ensures Columnar(ops, Y)
  {
    hide OnParity;
    assert forall i :: 0 <= i < |ops| ==> InOps(ops, ops[i].point);
  }

  // ---------------------------------------------------------------- the finalized grid

  /** A point is on some vertical line if and only if one of the families has it. */
  lemma {:induction false} OnSomeIff(odd: Slots, even: Slots, p: Point)
    ensures (exists v :: Lies(FinalVertical(odd, even), v, p)) <==>
            (exists i :: Holds(odd, i, p)) || (exists i :: Holds(even, i, p))
  {
    hide Interleaved, LinesWith;
    var m := Interleaved(odd, even);
    InterleavedCount(odd, even, p);
    LinesWithCounts(PointsOf(m), p);
    LinesWithCounts(Values(odd), p);
    LinesWithCounts(Values(even), p);
    assert forall i :: HeldAt(Values(odd), i, p) <==> Holds(odd, i, p);
    assert forall i :: HeldAt(Values(even), i, p) <==> Holds(even, i, p);
    assert forall i :: HeldAt(PointsOf(m), i, p) <==> Lies(FinalVertical(odd, even), i, p);
  }

  lemma {:induction false} ParityPoint(acc: seq<Point>, hs: Slots, odd: Slots, even: Slots, parity: nat, p: Point)
    requires Finalization(acc, hs, odd, even) && OnParity(Tagged(hs), parity, p)
    ensures p in acc
  {
    hide Finalization, Tagged;
    var i :| 0 <= i < |Tagged(hs)| && i % 2 == parity && Lies(Tagged(hs), i, p);
    HorizontalUnique(acc, hs, odd, even, i, i, p);
  }

  lemma {:induction false} RowsApart(acc: seq<Point>, p: Point, q: Point, c: Coordinate)
    requires PairwiseApart(acc, c) && p in acc && q in acc
    ensures At(p, c) == At(q, c) || Abs(At(p, c) - At(q, c)) > 3.0
  {
    var i :| 0 <= i < |acc| && acc[i] == p;
    var j :| 0 <= j < |acc| && acc[j] == q;
  }

  /** One family of the finalized grid holds a point of a horizontal line exactly when its row was constructed. */
  lemma {:induction false} FamilyHasIff(acc: seq<Point>, hs: Slots, odd: Slots, even: Slots, parity: nat, p: Point)
    requires Finalization(acc, hs, odd, even) && PairwiseApart(acc, Y) && parity < 2
    ensures (exists i :: Holds(Family(odd, even, parity), i, p)) <==>
            OnParity(Tagged(hs), parity, p) && ConstructedRow(Tagged(hs), parity, p.y)
  {
    var lines := Tagged(hs);
    assert |lines| >= 8 && NoEmptyLine(lines);
    hide Finalization, Tagged, VerticalSlots, OnParity, Holds, ConstructedRow, NoEmptyLine, PairwiseApart, Family;
    forall q, r | OnParity(lines, parity, q) && OnParity(lines, parity, r)
      ensures q.y == r.y || Abs(q.y - r.y) > 3.0
    {
      ParityPoint(acc, hs, odd, even, parity, q);
      ParityPoint(acc, hs, odd, even, parity, r);
      RowsApart(acc, q, r, Y);
    }
    VerticalRows(lines, parity);
    var m := VerticalSlots(lines, parity);
    forall i
      ensures Holds(Family(odd, even, parity), i, p) <==> Holds(m, i, p)
    {
      FamilyHolds(acc, hs, odd, even, parity, i, p);
    }
    assert HasKey(m, p.y) <==> ConstructedRow(lines, parity, p.y);
    if OnParity(lines, parity, p) && HasKey(m, p.y) {
      var i :| 0 <= i < |m| && m[i].key == p.y;
      assert Holds(m, i, p);
    }
  }

  /**
    A point of horizontal line `h` is on a vertical line, and so stays in the grid, if and only
    if one of the six lines from the first third on, of the parity of `h`, has a point at its y.
   */
  lemma {:induction false} StaysIff(acc: seq<Point>, hs: Slots, odd: Slots, even: Slots, h: nat, p: Point)
    requires Finalization(acc, hs, odd, even) && PairwiseApart(acc, Y) && Lies(Tagged(hs), h, p)
    ensures (exists v :: Lies(FinalVertical(odd, even), v, p)) <==>
            exists k, q :: |hs| / 3 <= k < |hs| / 3 + 6 && k % 2 == h % 2 && Lies(Tagged(hs), k, q) && q.y == p.y
  {
    hide Finalization, FinalVertical, Holds, Tagged, ConstructedRow, Lies, PairwiseApart, OnParity;
    OwnParity(acc, hs, odd, even, h, p);
    RowIff(Tagged(hs), h % 2, p.y);
    OnSomeIff(odd, even, p);
    FamilyHasIff(acc, hs, odd, even, 0, p);
    FamilyHasIff(acc, hs, odd, even, 1, p);
    assert Family(odd, even, 0) == odd && Family(odd, even, 1) == even;
    if h % 2 == 0 {
      assert (exists v :: Lies(FinalVertical(odd, even), v, p)) <==> ConstructedRow(Tagged(hs), 0, p.y);
    } else {
      assert (exists v :: Lies(FinalVertical(odd, even), v, p)) <==> ConstructedRow(Tagged(hs), 1, p.y);
    }
  }

  lemma {:induction false} RowIff(lines: seq<GridLine>, parity: nat, y: real)
    ensures ConstructedRow(lines, parity, y) <==>
            exists k, q :: |lines| / 3 <= k < |lines| / 3 + 6 && k % 2 == parity && Lies(lines, k, q) && q.y == y
  {
    if k, l :| |lines| / 3 <= k < |lines| / 3 + 6 && k < |lines| && k % 2 == parity
               && 0 <= l < |lines[k].points| && lines[k].points[l].y == y {
      assert Lies(lines, k, lines[k].points[l]);
    }
    if k, q :| |lines| / 3 <= k < |lines| / 3 + 6 && k % 2 == parity && Lies(lines, k, q) && q.y == y {
      var l :| 0 <= l < |lines[k].points| && lines[k].points[l] == q;
    }
  }

  lemma {:induction false} OwnParity(acc: seq<Point>, hs: Slots, odd: Slots, even: Slots, h: nat, p: Point)
    requires Finalization(acc, hs, odd, even) && Lies(Tagged(hs), h, p)
    ensures |Tagged(hs)| == |hs| && OnParity(Tagged(hs), h % 2, p) && !OnParity(Tagged(hs), 1 - h % 2, p)
  {
    if OnParity(Tagged(hs), 1 - h % 2, p) {
      var i :| 0 <= i < |Tagged(hs)| && i % 2 == 1 - h % 2 && Lies(Tagged(hs), i, p);
      HorizontalUnique(acc, hs, odd, even, h, i, p);
    }
  }

  /** Before pruning, a point is on a horizontal line if and only if its column has a constructing point. */
  lemma {:induction false} ListedIff(acc: seq<Point>, hs: Slots, odd: Slots, even: Slots, p: Point)
    requires Finalization(acc, hs, odd, even) && InYOrder(acc) && PairwiseApart(acc, X) && p in acc
    ensures (exists i :: Lies(Tagged(hs), i, p)) <==> Constructed(acc, p.x)
  {
    var m := HorizontalSlots(acc);
    hide Finalization, HorizontalSlots, Holds, Lies, Tagged, InYOrder, PairwiseApart;
    OnHorizontalIff(acc, p);
    forall i
      ensures Lies(Tagged(hs), i, p) <==> Holds(m, i, p)
    {
      ListedHolds(acc, hs, odd, even, i, p);
    }
    if i :| Lies(Tagged(hs), i, p) {
      assert Holds(m, i, p);
    }
    if i :| Holds(m, i, p) {
      assert Lies(Tagged(hs), i, p);
    }
  }

  lemma {:induction false} ListedHolds(acc: seq<Point>, hs: Slots, odd: Slots, even: Slots, i: int, p: Point)
    requires Finalization(acc, hs, odd, even)
    ensures Lies(Tagged(hs), i, p) <==> Holds(HorizontalSlots(acc), i, p)
  {
    hide VerticalSlots, HorizontalSlots, Rearranged;
    RearrangedHolds(HorizontalSlots(acc), hs, Y, i, p);
  }
}
