/**
  Accumulators that go through the whole construction of a point grid and show what the code
  does not guarantee (lib/calibration/pointgrid.cpp:122-300).  Both list their points in
  increasing y-order, as `addPoint` demands.
 */
module PointGridExamples {
  import opened Common
  import opened OrderedMap
  import opened LineGrids
  import opened PointLines
  import opened PointSweep
  import opened PointGridSpec
  import opened PointGridTheorems
  import opened LineGroups
  import opened VerticalLines
  import opened VerticalSplit

  /**
    Eighteen points; construction starts at number 6, the six before it and the last one are out
    of reach, and the last one ends the construction.
   */
  ghost predicate Framed(acc: seq<Point>) {
    && |acc| == 18 && DistinctPoints(acc) && InYOrder(acc)
    && (forall i :: 0 <= i < 6 ==> acc[i].x == 1000.0) && acc[17].x == 1000.0
    && acc[16].y < acc[6].y + CONSTRUCT_LIM <= acc[17].y
  }

  lemma {:induction false} FramedOps(acc: seq<Point>)
    requires Framed(acc)
    ensures HasConstructEnd(acc)
    ensures HorizontalForward(acc) == LineOps(acc[6..17], true) + [Op(acc[17], false)]
    ensures HorizontalBackward(acc)[0] == Op(acc[6], false) && |HorizontalBackward(acc)| == 7
    ensures forall i :: 1 <= i < 7 ==> HorizontalBackward(acc)[i] == Op(acc[6 - i], false)
  {
    assert acc[17].y >= acc[6].y + CONSTRUCT_LIM;
    var e := ConstructEnd(acc, 6);
    assert forall i :: 6 <= i <= 16 ==> acc[i].y <= acc[16].y;
    assert e == 17;
    assert HorizontalForward(acc) == LineOps(acc[6..17], true) + [Op(acc[17], false)];
  }

  /** From the lines after construction to the horizontal lines: only the seed is added on the way back. */
  lemma {:induction false} FramedSlots(acc: seq<Point>, m: Slots)
    requires Framed(acc) && m != [] && Sorted(m) && (forall i :: 0 <= i < |m| ==> m[i].key <= 100.0)
    requires Startable([], LineOps(acc[6..17], true)) && Run([], LineOps(acc[6..17], true), X) == m
    requires NonEmptyLines(m) && Rekeyed(m, X) != [] && Rekeyed(m, X)[0].key == acc[6].x == 0.0
    requires forall i :: 0 <= i < |Rekeyed(m, X)| ==> Rekeyed(m, X)[i].key <= 100.0
    ensures HasConstructEnd(acc)
    ensures Startable([], HorizontalForward(acc)) && Run([], HorizontalForward(acc), X) == m
    ensures var r := Rekeyed(m, X);
            HorizontalSlots(acc) == r[0 := Slot(0.0, r[0].value + [acc[6]])]
  {
    hide Run, RekeyedTo, Step, HorizontalForward, HorizontalBackward, DistinctPoints, InYOrder, HasConstructEnd;
    FramedOps(acc);
    var last, r, backward := Op(acc[17], false), Rekeyed(m, X), HorizontalBackward(acc);
    RunAppend([], LineOps(acc[6..17], true), last, X);
    SkipStep(m, last, X);
    assert backward == [backward[0]] + backward[1..];
    RunSplit(r, [backward[0]], backward[1..], X);
    RunAppend(r, [], backward[0], X);
    assert [] + [backward[0]] == [backward[0]];
    JoinAtKey(r, backward[0], X, 0);
    var r' := r[0 := Slot(0.0, r[0].value + [acc[6]])];
    SkipRun(r', backward[1..], X);
  }

  // ---------------------------------------------------------------- a dropped line

  /** Three points that drift from x = 0 to x = 6, one more at x = 0, and seven columns. */
  ghost predicate Drifting(acc: seq<Point>) {
    && Framed(acc)
    && acc[6].x == 0.0 && acc[7].x == 3.0 && acc[8].x == 6.0 && acc[9].x == 0.0
    && acc[10].x == 20.0 && acc[11].x == 30.0 && acc[12].x == 40.0 && acc[13].x == 50.0
    && acc[14].x == 60.0 && acc[15].x == 70.0 && acc[16].x == 80.0
  }

  /** The lines after construction: the first two start at the same coordinate. */
  ghost function DriftingLines(acc: seq<Point>): Slots
    requires |acc| == 18
  {
    [Slot(0.0, [acc[9]]), Slot(6.0, [acc[6], acc[7], acc[8]])] + Singles(acc[10..17], X)
  }

  lemma {:induction false} DriftingForward(acc: seq<Point>)
    requires Drifting(acc)
    ensures Startable([], LineOps(acc[6..17], true)) && Run([], LineOps(acc[6..17], true), X) == DriftingLines(acc)
    ensures Sorted(DriftingLines(acc)) && NonEmptyLines(DriftingLines(acc))
  {
    hide Run, Step, DistinctPoints, InYOrder;
    RekeyCanDrop(acc[6], acc[7], acc[8], acc[9]);
    var ops := [Op(acc[6], true), Op(acc[7], true), Op(acc[8], true), Op(acc[9], true)];
    var m := [Slot(0.0, [acc[9]]), Slot(6.0, [acc[6], acc[7], acc[8]])];
    var columns := acc[10..17];
    assert LineOps(acc[6..17], true) == ops + LineOps(columns, true);
    RunSplit([], ops, LineOps(columns, true), X);
    RisingRun(m, columns, X);
  }

  lemma {:induction false} DriftingRekeyed(acc: seq<Point>)
    requires Drifting(acc)
    ensures NonEmptyLines(DriftingLines(acc))
    ensures Rekeyed(DriftingLines(acc), X) == [Slot(0.0, [acc[9]])] + Singles(acc[10..17], X)
  {
    hide RekeyedTo, DistinctPoints, InYOrder;
    var m := DriftingLines(acc);
    SameFront(m, X);
    RekeyedTail(m, X, 2, 9);
    assert m[2..9] == Singles(acc[10..17], X);
  }

  /**
    Re-keying drops the line that drifted away.  Eight lines are left, so the grid can be
    finalized, but two of its points are in no line any more.
   */
  lemma {:induction false} LineCanDrop(acc: seq<Point>)
    requires Drifting(acc)
    ensures HasConstructEnd(acc) && ValidSweep(HorizontalForward(acc)) && Startable([], HorizontalForward(acc))
    ensures var m := Run([], HorizontalForward(acc), X);
            && |m| == 9 && NonEmptyLines(m) && |Rekeyed(m, X)| == 8
            && m[1].value == [acc[6], acc[7], acc[8]]
    ensures |HorizontalSlots(acc)| == 8
    ensures InNoLine(HorizontalSlots(acc), acc[7]) && InNoLine(HorizontalSlots(acc), acc[8])
  {
    hide Run, RekeyedTo, HorizontalForward, HorizontalSlots, HasConstructEnd, InYOrder;
    DriftingForward(acc);
    DriftingRekeyed(acc);
    FramedOps(acc);
    FramedSlots(acc, DriftingLines(acc));
    var s := HorizontalSlots(acc);
    assert s[0].value == [acc[9]] + [acc[6]] == [acc[9], acc[6]];
    assert forall i :: 1 <= i < 8 ==> s[i].value == [acc[9 + i]];
  }

  // ---------------------------------------------------------------- points on two vertical lines

  /** Eight columns; the third has four points, and the fifth and seventh split their vertical line. */
  ghost predicate Columns(acc: seq<Point>) {
    && Framed(acc)
    && acc[6].x == 0.0 && acc[7].x == 10.0 && acc[8].x == acc[9].x == acc[12].x == acc[13].x == 20.0
    && acc[10].x == 30.0 && acc[11].x == 40.0 && acc[14].x == 50.0 && acc[15].x == 60.0 && acc[16].x == 70.0
    && acc[8].y == 0.0 && acc[9].y == 2.9 && acc[12].y == 5.8 && acc[13].y == 8.7
    && acc[11].y == 5.7 && acc[15].y == 8.8
  }

  ghost function ColumnLines(acc: seq<Point>): Slots
    requires |acc| == 18
  {
    [Slot(0.0, [acc[6]]), Slot(10.0, [acc[7]]), Slot(20.0, [acc[8], acc[9], acc[12], acc[13]]),
     Slot(30.0, [acc[10]]), Slot(40.0, [acc[11]])] + Singles(acc[14..17], X)
  }

  lemma {:induction false} FirstGroup(points: seq<Point>, c: Coordinate)
    requires points != []
    ensures Grouped(points[..1], c) == [Slot(At(points[0], c), [points[0]])]
  {
  }

  lemma {:induction false} NextOfGroups(points: seq<Point>, c: Coordinate, k: nat)
    requires 0 < k < |points|
    ensures Grouped(points[..k + 1], c) == NextGroup(Grouped(points[..k], c), points[k], c)
  {
    hide NextGroup;
    assert points[..k + 1][..k] == points[..k];
  }

  lemma {:induction false} FirstColumns(acc: seq<Point>)
    requires Columns(acc)
    ensures var points := acc[6..12];
            && Startable([], LineOps(points, true))
            && Run([], LineOps(points, true), X) ==
               [Slot(0.0, [acc[6]]), Slot(10.0, [acc[7]]), Slot(20.0, [acc[8], acc[9]]),
                Slot(30.0, [acc[10]]), Slot(40.0, [acc[11]])]
  {
    hide Grouped, Groups, Run, DistinctPoints, InYOrder;
    var p := acc[6..12];
    GroupedRun(p, X);
    FirstGroup(p, X);
    NextOfGroups(p, X, 1);
    NextOfGroups(p, X, 2);
    NextOfGroups(p, X, 3);
    assert [acc[8]] + [acc[9]] == [acc[8], acc[9]];
    NextOfGroups(p, X, 4);
    NextOfGroups(p, X, 5);
    assert p[..6] == p;
  }

  lemma {:induction false} ColumnsForward(acc: seq<Point>)
    requires Columns(acc)
    ensures Startable([], LineOps(acc[6..17], true)) && Run([], LineOps(acc[6..17], true), X) == ColumnLines(acc)
  {
    hide Run, Step, DistinctPoints, InYOrder;
    FirstColumns(acc);
    var first, rest := LineOps(acc[6..12], true), LineOps(acc[14..17], true);
    var o12, o13 := Op(acc[12], true), Op(acc[13], true);
    var m := Run([], first, X);
    JoinAtKey(m, o12, X, 2);
    RunAppend([], first, o12, X);
    var m' := m[2 := Slot(20.0, [acc[8], acc[9]] + [acc[12]])];
    JoinAtKey(m', o13, X, 2);
    RunAppend([], first + [o12], o13, X);
    var m'' := m'[2 := Slot(20.0, [acc[8], acc[9]] + [acc[12]] + [acc[13]])];
    assert [acc[8], acc[9]] + [acc[12]] + [acc[13]] == [acc[8], acc[9], acc[12], acc[13]];
    RisingRun(m'', acc[14..17], X);
    assert LineOps(acc[6..17], true) == first + [o12] + [o13] + rest;
    RunSplit([], first + [o12] + [o13], rest, X);
  }

  lemma {:induction false} ColumnsSlots(acc: seq<Point>)
    requires Columns(acc)
    ensures HasConstructEnd(acc)
    ensures HorizontalSlots(acc) == ColumnLines(acc)[0 := Slot(0.0, [acc[6], acc[6]])]
  {
    hide Run, RekeyedTo, HorizontalSlots, HasConstructEnd, DistinctPoints, InYOrder;
    ColumnsForward(acc);
    var m := ColumnLines(acc);
    RekeyedInOrder(m, X, 8);
    assert Rekeyed(m, X) == m;
    FramedSlots(acc, m);
    assert [acc[6]] + [acc[6]] == [acc[6], acc[6]];
  }

  lemma {:induction false} FourInOneGroup(a: seq<Point>)
    requires |a| == 4 && a[0].y == 0.0 && a[1].y == 2.9 && a[2].y == 5.8 && a[3].y == 8.7
    ensures Grouped(a, Y) == [Slot(8.7, a)]
  {
    hide Grouped;
    FirstGroup(a, Y);
    NextOfGroups(a, Y, 1);
    NextOfGroups(a, Y, 2);
    NextOfGroups(a, Y, 3);
    assert [a[0]] + [a[1]] + [a[2]] + [a[3]] == a == a[..4];
  }

  lemma {:induction false} ColumnsSorted(acc: seq<Point>, hs: Slots)
    requires Columns(acc) && hs == ColumnLines(acc)[0 := Slot(0.0, [acc[6], acc[6]])]
    ensures Rearranged(hs, hs, Y)
  {
    hide DistinctPoints, InYOrder;
    FourSorted(hs[2].value);
    forall i | 0 <= i < |hs|
      ensures SortedBy(hs[i].value, Y)
    {
      assert i == 0 || i == 2 || |hs[i].value| == 1;
    }
  }

  lemma {:induction false} FourSorted(a: seq<Point>)
    requires |a| == 4 && a[0].y <= a[1].y <= a[2].y <= a[3].y
    ensures SortedBy(a, Y)
  {
  }

  lemma {:induction false} ColumnsSplit(acc: seq<Point>, hs: Slots)
    requires Columns(acc) && hs == ColumnLines(acc)[0 := Slot(0.0, [acc[6], acc[6]])]
    ensures |hs| == 8 && Splitting(Tagged(hs), 0, 0.1)
    ensures Tagged(hs)[2].points == [acc[8], acc[9], acc[12], acc[13]]
  {
    hide Grouped, DistinctPoints, InYOrder;
    var a := [acc[8], acc[9], acc[12], acc[13]];
    FourInOneGroup(a);
    SplittingFour(Tagged(hs), a);
  }

  lemma {:induction false} SplittingFour(lines: seq<GridLine>, a: seq<Point>)
    requires |lines| == 8 && NoEmptyLine(lines) && lines[2].points == a && |a| == 4
    requires a[0].y == 0.0 && a[1].y == 2.9 && a[2].y == 5.8 && a[3].y == 8.7 && Grouped(a, Y) == [Slot(8.7, a)]
    requires |lines[4].points| == 1 && lines[4].points[0].y == 5.7
    requires |lines[6].points| == 1 && lines[6].points[0].y == 8.8
    ensures Splitting(lines, 0, 0.1)
  {
    hide Grouped, NoEmptyLine;
  }

  /**
    The accumulator goes through the whole construction, and one of the points of its third
    column is on two vertical lines of the final grid.
   */
  lemma {:induction false} PointOnTwoLines(acc: seq<Point>)
    requires Columns(acc)
    ensures HasConstructEnd(acc) && |HorizontalSlots(acc)| == 8
    ensures var hs := HorizontalSlots(acc);
            && Rearranged(hs, hs, Y) && NoEmptyLine(Tagged(hs))
            && forall odd, even :: Finalization(acc, hs, odd, even) ==>
                 exists p :: p in acc && !OnOneLine(FinalVertical(odd, even), p)
  {
    hide HorizontalSlots, VerticalSlots, FinalVertical, OnOneLine, HasConstructEnd, Rearranged, Finalization, InOneLine, Grouped;
    ColumnsSlots(acc);
    var hs := HorizontalSlots(acc);
    ColumnsSorted(acc, hs);
    ColumnsSplit(acc, hs);
    var lines := Tagged(hs);
    hide Tagged, Columns;
    SplitInTwo(lines, 0, 0.1);
    var a := lines[2].points;
    var k :| 0 <= k < |a| && !InOneLine(VerticalSlots(lines, 0), a[k]);
    assert a[k] in acc;
    forall odd, even | Finalization(acc, hs, odd, even)
      ensures exists p :: p in acc && !OnOneLine(FinalVertical(odd, even), p)
    {
      assert Lies(lines, 2, a[k]);
      HorizontalOnlyOn(acc, hs, odd, even, 2, a[k]);
      ReducedToFamily(acc, hs, odd, even, 2, a[k]);
    }
  }
}
