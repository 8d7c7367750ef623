/**
  What the phases of `PointGrid::finalize` compute, as functions of the accumulated points and
  of the horizontal lines (lib/calibration/pointgrid.cpp:122-300).
 */
module PointGridSpec {
  import opened OrderedMap
  import opened LineGrids
  import opened PointLines
  import opened PointSweep

  const CONSTRUCT_LIM := 20.0

  datatype GridLine = GridLine(subgrid: SubGrid, points: seq<Point>)

  // ---------------------------------------------------------------- horizontal lines

  /** The loop that opens lines only ends at a point CONSTRUCT_LIM below its start. */
  ghost predicate HasConstructEnd(acc: seq<Point>) {
    acc != [] && exists i :: |acc| / 3 <= i < |acc| && acc[i].y >= acc[|acc| / 3].y + CONSTRUCT_LIM
  }

  /** The order in which points must be added. */
  ghost predicate InYOrder(acc: seq<Point>) {
    forall i, j :: 0 <= i < j < |acc| ==> acc[i].y <= acc[j].y
  }

  ghost predicate DistinctPoints(acc: seq<Point>) {
    forall i, j :: 0 <= i < j < |acc| ==> acc[i] != acc[j]
  }

  /** First index from `i` on that ends the construction. */
  function ConstructEnd(acc: seq<Point>, i: nat): (e: nat)
    requires i <= |acc| && acc != []
    ensures i <= e <= |acc|
    ensures forall k :: i <= k < e ==> acc[k].y < acc[|acc| / 3].y + CONSTRUCT_LIM
    ensures e < |acc| ==> acc[e].y >= acc[|acc| / 3].y + CONSTRUCT_LIM
    decreases |acc| - i
  {
    if i == |acc| || acc[i].y >= acc[|acc| / 3].y + CONSTRUCT_LIM then i else ConstructEnd(acc, i + 1)
  }

  function HorizontalForward(acc: seq<Point>): seq<Op>
    requires acc != []
  {
    var start := |acc| / 3;
    var end := ConstructEnd(acc, start);
    seq(|acc| - start, k requires 0 <= k < |acc| - start => Op(acc[start + k], start + k < end))
  }

  function HorizontalBackward(acc: seq<Point>): seq<Op>
    requires acc != []
  {
    var start := |acc| / 3;
    seq(start + 1, k requires 0 <= k < start + 1 => Op(acc[start - k], false))
  }

  function HorizontalSlots(acc: seq<Point>): Slots
    requires acc != []
  {
    Swept(HorizontalForward(acc), HorizontalBackward(acc), X)
  }

  lemma HorizontalReturns(acc: seq<Point>)
    requires acc != [] && DistinctPoints(acc)
    ensures ReturnsOverSeed(HorizontalForward(acc), HorizontalBackward(acc))
  {
    hide ConstructEnd;
  }

  /** Each point is in at most one horizontal line, and only accumulated points are in any. */
  lemma HorizontalInOneLine(acc: seq<Point>, p: Point)
    requires acc != [] && DistinctPoints(acc)
    ensures InOneLine(HorizontalSlots(acc), p)
    ensures forall i :: Holds(HorizontalSlots(acc), i, p) ==> p in acc
  {
    hide Swept, InOneLine, Holds, ReturnsOverSeed;
    var f, b := HorizontalForward(acc), HorizontalBackward(acc);
    HorizontalReturns(acc);
    SweptInOneLine(f, b, X, p);
    forall i | Holds(HorizontalSlots(acc), i, p)
      ensures p in acc
    {
      SweptHoldsOnlyAdded(f, b, X, i, p);
    }
  }

  // ---------------------------------------------------------------- vertical lines

  function LineOps(points: seq<Point>, construct: bool): seq<Op> {
    seq(|points|, k requires 0 <= k < |points| => Op(points[k], construct))
  }

  /** Additions for the lines `lo`, ..., `hi - 1` of one parity, upwards. */
  function UpOps(lines: seq<GridLine>, lo: nat, hi: nat, parity: nat, construct: bool): seq<Op>
    requires lo <= hi <= |lines|
    decreases hi
  {
    if lo == hi then []
    else
      UpOps(lines, lo, hi - 1, parity, construct) +
      if (hi - 1) % 2 == parity then LineOps(lines[hi - 1].points, construct) else []
  }

  /** Additions for the `count` lines `start`, `start - 1`, ... of one parity, downwards. */
  function DownOps(lines: seq<GridLine>, start: nat, count: nat, parity: nat, construct: bool): seq<Op>
    requires count <= start + 1 && (count > 0 ==> start < |lines|)
    decreases count
  {
    if count == 0 then []
    else
      DownOps(lines, start, count - 1, parity, construct) +
      var i := start - (count - 1);
      if i % 2 == parity then LineOps(lines[i].points, construct) else []
  }

  function VerticalForward(lines: seq<GridLine>, parity: nat): seq<Op>
    requires |lines| >= 8
  {
    var start := |lines| / 3;
    UpOps(lines, start, start + 6, parity, true) + UpOps(lines, start + 6, |lines|, parity, false)
  }

  function VerticalBackward(lines: seq<GridLine>, parity: nat): seq<Op>
    requires |lines| >= 8
  {
    var start := |lines| / 3;
    DownOps(lines, start, start + 1, parity, false)
  }

  ghost predicate NoEmptyLine(lines: seq<GridLine>) {
    forall i :: 0 <= i < |lines| ==> lines[i].points != []
  }

  lemma {:induction false} UpOpsConstruct(lines: seq<GridLine>, lo: nat, hi: nat, parity: nat, construct: bool)
    requires lo <= hi <= |lines|
    ensures forall k :: 0 <= k < |UpOps(lines, lo, hi, parity, construct)| ==>
              UpOps(lines, lo, hi, parity, construct)[k].construct == construct
    decreases hi
  {
    if lo < hi {
      UpOpsConstruct(lines, lo, hi - 1, parity, construct);
    }
  }

  /** The first line of either parity past the start is among the six constructing ones. */
  lemma VerticalValid(lines: seq<GridLine>, parity: nat)
    requires |lines| >= 8 && NoEmptyLine(lines) && parity < 2
    ensures ValidSweep(VerticalForward(lines, parity))
  {
    var start := |lines| / 3;
    var i := if start % 2 == parity then start else start + 1;
    var ops := UpOps(lines, start, start + 6, parity, true);
    hide UpOps;
    UpOpsIncludes(lines, start, start + 6, parity, true, i);
    UpOpsConstruct(lines, start, start + 6, parity, true);
    assert ops != [];
    assert VerticalForward(lines, parity)[0] == ops[0];
  }

  lemma {:induction false} UpOpsIncludes(lines: seq<GridLine>, lo: nat, hi: nat, parity: nat, construct: bool, i: nat)
    requires lo <= i < hi <= |lines| && i % 2 == parity && lines[i].points != []
    ensures UpOps(lines, lo, hi, parity, construct) != []
    decreases hi
  {
    if i < hi - 1 {
      UpOpsIncludes(lines, lo, hi - 1, parity, construct, i);
    }
  }

  /** The vertical lines built from the horizontal lines of one parity. */
  function VerticalSlots(lines: seq<GridLine>, parity: nat): Slots
    requires |lines| >= 8 && NoEmptyLine(lines) && parity < 2
  {
    VerticalValid(lines, parity);
    Swept(VerticalForward(lines, parity), VerticalBackward(lines, parity), Y)
  }

  ghost predicate Lies(lines: seq<GridLine>, i: int, older p: Point) {
    0 <= i < |lines| && p in lines[i].points
  }

  /** The point lies on a line of the given parity. */
  ghost predicate OnParity(lines: seq<GridLine>, parity: nat, p: Point) {
    exists i :: 0 <= i < |lines| && i % 2 == parity && Lies(lines, i, p)
  }

  lemma LineOpsPoints(points: seq<Point>, construct: bool, p: Point)
    ensures !NeverIn(LineOps(points, construct), p) ==> p in points
  {
  }

  lemma NeverInConcat(a: seq<Op>, b: seq<Op>, p: Point)
    requires NeverIn(a, p) && NeverIn(b, p)
    ensures NeverIn(a + b, p)
  {
  }

  lemma {:induction false} UpOpsPoints(lines: seq<GridLine>, lo: nat, hi: nat, parity: nat, construct: bool, p: Point)
    requires lo <= hi <= |lines| && !OnParity(lines, parity, p)
    ensures NeverIn(UpOps(lines, lo, hi, parity, construct), p)
    decreases hi
  {
    if lo < hi {
      UpOpsPoints(lines, lo, hi - 1, parity, construct, p);
      hide NeverIn, LineOps;
      assert NeverIn([], p) by { NothingNeverIn(p); }
      if (hi - 1) % 2 == parity {
        LineOpsPoints(lines[hi - 1].points, construct, p);
        assert !Lies(lines, hi - 1, p);
        NeverInConcat(UpOps(lines, lo, hi - 1, parity, construct), LineOps(lines[hi - 1].points, construct), p);
      } else {
        NeverInConcat(UpOps(lines, lo, hi - 1, parity, construct), [], p);
      }
    }
  }

  lemma NothingNeverIn(p: Point)
    ensures NeverIn([], p)
  {
  }

  lemma {:induction false} DownOpsPoints(lines: seq<GridLine>, start: nat, count: nat, parity: nat, construct: bool, p: Point)
    requires count <= start + 1 && (count > 0 ==> start < |lines|) && !OnParity(lines, parity, p)
    ensures NeverIn(DownOps(lines, start, count, parity, construct), p)
    decreases count
  {
    if count > 0 {
      var i := start - (count - 1);
      DownOpsPoints(lines, start, count - 1, parity, construct, p);
      hide NeverIn, LineOps;
      assert NeverIn([], p) by { NothingNeverIn(p); }
      if i % 2 == parity {
        LineOpsPoints(lines[i].points, construct, p);
        assert !Lies(lines, i, p);
        NeverInConcat(DownOps(lines, start, count - 1, parity, construct), LineOps(lines[i].points, construct), p);
      } else {
        NeverInConcat(DownOps(lines, start, count - 1, parity, construct), [], p);
      }
    }
  }

  /** A vertical line of one parity holds only points of horizontal lines of that parity. */
  lemma VerticalOnParity(lines: seq<GridLine>, parity: nat, i: int, p: Point)
    requires |lines| >= 8 && NoEmptyLine(lines) && parity < 2
    requires Holds(VerticalSlots(lines, parity), i, p)
    ensures OnParity(lines, parity, p)
  {
    hide Swept, UpOps, DownOps, OnParity, Holds, NeverIn;
    VerticalValid(lines, parity);
    var start := |lines| / 3;
    if !OnParity(lines, parity, p) {
      UpOpsPoints(lines, start, start + 6, parity, true, p);
      UpOpsPoints(lines, start + 6, |lines|, parity, false, p);
      NeverInConcat(UpOps(lines, start, start + 6, parity, true), UpOps(lines, start + 6, |lines|, parity, false), p);
      DownOpsPoints(lines, start, start + 1, parity, false, p);
      SweptHoldsOnlyAdded(VerticalForward(lines, parity), VerticalBackward(lines, parity), Y, i, p);
    }
  }
}
