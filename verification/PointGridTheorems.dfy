/**
  The grid that `PointGrid::finalize` leaves behind, for every outcome of the sorts it runs:
  both families of lines hold the same points, each point is on one horizontal line, and
  crossing lines belong to the same subgrid.
 */
module PointGridTheorems {
  import opened OrderedMap
  import opened LineGrids
  import opened PointLines
  import opened PointSweep
  import opened PointGridSpec

  ghost predicate SortedBy(points: seq<Point>, c: Coordinate) {
    forall i, j :: 0 <= i < j < |points| ==> At(points[i], c) <= At(points[j], c)
  }

  /** The same lines under the same keys, with the points of each line sorted in some way. */
  ghost predicate Rearranged(m: Slots, m': Slots, c: Coordinate) {
    && |m'| == |m|
    && forall i :: 0 <= i < |m| ==>
         && m'[i].key == m[i].key
         && multiset(m'[i].value) == multiset(m[i].value)
         && SortedBy(m'[i].value, c)
  }

  lemma RearrangedHolds(m: Slots, m': Slots, c: Coordinate, i: int, p: Point)
    requires Rearranged(m, m', c)
    ensures Holds(m', i, p) <==> Holds(m, i, p)
  {
    if 0 <= i < |m| {
      assert p in multiset(m'[i].value) <==> p in multiset(m[i].value);
    }
  }

  lemma RearrangedKeeps(m: Slots, m': Slots, c: Coordinate)
    requires Rearranged(m, m', c)
    ensures Sorted(m) ==> Sorted(m')
    ensures NonEmptyLines(m) ==> NonEmptyLines(m')
  {
    forall i | 0 <= i < |m| && m[i].value != []
      ensures m'[i].value != []
    {
      assert |multiset(m'[i].value)| == |multiset(m[i].value)|;
    }
  }

  // ---------------------------------------------------------------- list of horizontal lines

  function Tag(i: nat): SubGrid {
    if i % 2 == 0 then SUBGRID_A else SUBGRID_B
  }

  /** The lines of a map in key order, tagged alternately. */
  function Tagged(m: Slots): (lines: seq<GridLine>)
    ensures |lines| == |m|
    ensures forall i :: 0 <= i < |m| ==> lines[i] == GridLine(Tag(i), m[i].value)
  {
    seq(|m|, i requires 0 <= i < |m| => GridLine(Tag(i), m[i].value))
  }

  // ---------------------------------------------------------------- list of vertical lines

  /** Both families of vertical lines in one list, by key; on equal keys the second family first. */
  function Interleaved(odd: Slots, even: Slots): seq<Slot<GridLine>>
    decreases |odd| + |even|
  {
    if odd == [] && even == [] then []
    else if even == [] || (odd != [] && odd[0].key < even[0].key) then
      [Slot(odd[0].key, GridLine(SUBGRID_A, odd[0].value))] + Interleaved(odd[1..], even)
    else
      [Slot(even[0].key, GridLine(SUBGRID_B, even[0].value))] + Interleaved(odd, even[1..])
  }

  function LinesOf(m: seq<Slot<GridLine>>): (lines: seq<GridLine>)
    ensures |lines| == |m|
    ensures forall i :: 0 <= i < |m| ==> lines[i] == m[i].value
  {
    seq(|m|, i requires 0 <= i < |m| => m[i].value)
  }

  /** The lines of one subgrid, in the order of the list. */
  function OfSubgrid(m: seq<Slot<GridLine>>, s: SubGrid): Slots {
    if m == [] then []
    else if m[0].value.subgrid == s then [Slot(m[0].key, m[0].value.points)] + OfSubgrid(m[1..], s)
    else OfSubgrid(m[1..], s)
  }

  /** Interleaving loses nothing and keeps the order within both families. */
  lemma {:induction false} InterleavedKeepsBoth(odd: Slots, even: Slots)
    ensures OfSubgrid(Interleaved(odd, even), SUBGRID_A) == odd
    ensures OfSubgrid(Interleaved(odd, even), SUBGRID_B) == even
    decreases |odd| + |even|
  {
    var m := Interleaved(odd, even);
    if odd == [] && even == [] {
    } else if even == [] || (odd != [] && odd[0].key < even[0].key) {
      InterleavedKeepsBoth(odd[1..], even);
      assert m[1..] == Interleaved(odd[1..], even);
      assert odd == [odd[0]] + odd[1..];
    } else {
      InterleavedKeepsBoth(odd, even[1..]);
      assert m[1..] == Interleaved(odd, even[1..]);
      assert even == [even[0]] + even[1..];
    }
  }

  /** The order of the vertical lines: by key, and on equal keys SUBGRID_B before SUBGRID_A. */
  ghost predicate Ordered(m: seq<Slot<GridLine>>) {
    forall i, j :: 0 <= i < j < |m| ==>
      m[i].key < m[j].key
      || (m[i].key == m[j].key && m[i].value.subgrid == SUBGRID_B && m[j].value.subgrid == SUBGRID_A)
  }

  /** All keys are above `k`, or at `k` with subgrid A where that is allowed. */
  ghost predicate Beyond(m: seq<Slot<GridLine>>, k: real, tie: bool) {
    forall i :: 0 <= i < |m| ==> k < m[i].key || (tie && m[i].key == k && m[i].value.subgrid == SUBGRID_A)
  }

  /** The list of vertical lines is ordered. */
  lemma {:induction false} InterleavedInOrder(odd: Slots, even: Slots)
    requires Sorted(odd) && Sorted(even)
    ensures Ordered(Interleaved(odd, even))
    decreases |odd| + |even|
  {
    if odd == [] && even == [] {
    } else if even == [] || (odd != [] && odd[0].key < even[0].key) {
      InterleavedInOrder(odd[1..], even);
      InterleavedBeyond(odd[1..], even, odd[0].key, false);
    } else {
      InterleavedInOrder(odd, even[1..]);
      InterleavedBeyond(odd, even[1..], even[0].key, true);
    }
  }

  lemma {:induction false} InterleavedBeyond(odd: Slots, even: Slots, k: real, tie: bool)
    requires forall i :: 0 <= i < |odd| ==> k < odd[i].key || (tie && odd[i].key == k)
    requires forall i :: 0 <= i < |even| ==> k < even[i].key
    ensures Beyond(Interleaved(odd, even), k, tie)
    decreases |odd| + |even|
  {
    if odd == [] && even == [] {
    } else if even == [] || (odd != [] && odd[0].key < even[0].key) {
      InterleavedBeyond(odd[1..], even, k, tie);
    } else {
      InterleavedBeyond(odd, even[1..], k, tie);
    }
  }

  /** Every listed vertical line is a line of the family that its subgrid names. */
  lemma {:induction false} InterleavedSource(odd: Slots, even: Slots, v: nat) returns (i: nat)
    requires v < |Interleaved(odd, even)|
    ensures var line := Interleaved(odd, even)[v].value;
            if line.subgrid == SUBGRID_A then i < |odd| && odd[i].value == line.points
            else i < |even| && even[i].value == line.points
    decreases |odd| + |even|
  {
    if even == [] || (odd != [] && odd[0].key < even[0].key) {
      i := 0;
      if v > 0 {
        i := InterleavedSource(odd[1..], even, v - 1);
        if Interleaved(odd, even)[v].value.subgrid == SUBGRID_A {
          i := i + 1;
        }
      }
    } else {
      i := 0;
      if v > 0 {
        i := InterleavedSource(odd, even[1..], v - 1);
        if Interleaved(odd, even)[v].value.subgrid == SUBGRID_B {
          i := i + 1;
        }
      }
    }
  }

  // ---------------------------------------------------------------- pruning

  ghost function PointSet(lines: seq<GridLine>): set<Point> {
    set i, p | 0 <= i < |lines| && p in lines[i].points :: p
  }

  lemma PointSetLies(lines: seq<GridLine>, p: Point)
    ensures p in PointSet(lines) <==> exists i :: Lies(lines, i, p)
  {
    if i :| Lies(lines, i, p) {
      assert p in lines[i].points;
    }
    if p in PointSet(lines) {
      var i :| 0 <= i < |lines| && p in lines[i].points;
      assert Lies(lines, i, p);
    }
  }

  function Kept(points: seq<Point>, keep: set<Point>): (r: seq<Point>)
    ensures forall p :: p in points ==> (p in r <==> p in keep)
    ensures forall p :: p in r ==> p in points
    ensures |r| <= |points|
  {
    if points == [] then []
    else
      var n := |points| - 1;
      Kept(points[..n], keep) + if points[n] in keep then [points[n]] else []
  }

  lemma {:induction false} KeptSorted(points: seq<Point>, keep: set<Point>, c: Coordinate)
    requires SortedBy(points, c)
    ensures SortedBy(Kept(points, keep), c)
  {
    if points != [] {
      var n := |points| - 1;
      KeptSorted(points[..n], keep, c);
      var r := Kept(points[..n], keep);
      assert forall i :: 0 <= i < |r| ==> r[i] in points[..n];
    }
  }

  function Pruned(lines: seq<GridLine>, keep: set<Point>): (r: seq<GridLine>)
    ensures |r| == |lines|
    ensures forall i :: 0 <= i < |r| ==> r[i] == GridLine(lines[i].subgrid, Kept(lines[i].points, keep))
  {
    seq(|lines|, i requires 0 <= i < |lines| => GridLine(lines[i].subgrid, Kept(lines[i].points, keep)))
  }

  // ---------------------------------------------------------------- the finalized grid

  /**
    The inputs and intermediate results of one finalization: `hs` are the horizontal lines
    after their sort, `odd` and `even` the vertical lines of both families after theirs.
   */
  ghost predicate Finalization(acc: seq<Point>, hs: Slots, odd: Slots, even: Slots) {
    && acc != [] && DistinctPoints(acc)
    && Rearranged(HorizontalSlots(acc), hs, Y)
    && |hs| >= 8 && NoEmptyLine(Tagged(hs))
    && Rearranged(VerticalSlots(Tagged(hs), 0), odd, X)
    && Rearranged(VerticalSlots(Tagged(hs), 1), even, X)
  }

  ghost function FinalVertical(odd: Slots, even: Slots): seq<GridLine> {
    LinesOf(Interleaved(odd, even))
  }

  ghost function FinalHorizontal(hs: Slots, odd: Slots, even: Slots): seq<GridLine> {
    Pruned(Tagged(hs), PointSet(FinalVertical(odd, even)))
  }

  /** A point on a vertical line lies on a horizontal line of the same subgrid. */
  lemma VerticalPointSubgrid(acc: seq<Point>, hs: Slots, odd: Slots, even: Slots, v: int, p: Point) returns (h: nat)
    requires Finalization(acc, hs, odd, even) && Lies(FinalVertical(odd, even), v, p)
    ensures Lies(Tagged(hs), h, p) && Tagged(hs)[h].subgrid == FinalVertical(odd, even)[v].subgrid
  {
    hide VerticalSlots, HorizontalSlots, Interleaved, Holds, Tagged, NoEmptyLine, Rearranged;
    var lines := Tagged(hs);
    var line := FinalVertical(odd, even)[v];
    var i := InterleavedSource(odd, even, v);
    var parity := if line.subgrid == SUBGRID_A then 0 else 1;
    var m := if parity == 0 then odd else even;
    HoldsAt(m, i, p);
    RearrangedHolds(VerticalSlots(lines, parity), m, X, i, p);
    VerticalOnParity(lines, parity, i, p);
    h :| 0 <= h < |lines| && h % 2 == parity && Lies(lines, h, p);
  }

  lemma HoldsAt(m: Slots, i: nat, p: Point)
    requires i < |m| && p in m[i].value
    ensures Holds(m, i, p)
  {
  }

  lemma HorizontalUnique(acc: seq<Point>, hs: Slots, odd: Slots, even: Slots, i: int, j: int, p: Point)
    requires Finalization(acc, hs, odd, even) && Lies(Tagged(hs), i, p) && Lies(Tagged(hs), j, p)
    ensures i == j && p in acc
  {
    hide VerticalSlots, HorizontalSlots, Rearranged;
    var m := HorizontalSlots(acc);
    RearrangedHolds(m, hs, Y, i, p);
    RearrangedHolds(m, hs, Y, j, p);
    HorizontalInOneLine(acc, p);
    assert Holds(hs, i, p) && Holds(hs, j, p);
  }

  /** The points of the horizontal lines are the points of the vertical lines. */
  lemma SamePoints(acc: seq<Point>, hs: Slots, odd: Slots, even: Slots)
    requires Finalization(acc, hs, odd, even)
    ensures PointSet(FinalHorizontal(hs, odd, even)) == PointSet(FinalVertical(odd, even))
    ensures forall p :: p in PointSet(FinalHorizontal(hs, odd, even)) ==> p in acc
  {
    var hor, ver := FinalHorizontal(hs, odd, even), FinalVertical(odd, even);
    hide PointSet, FinalVertical, Finalization, Lies;
    forall p | p in PointSet(hor)
      ensures p in PointSet(ver) && p in acc
    {
      PointSetLies(hor, p);
      var i :| Lies(hor, i, p);
      PrunedLies(Tagged(hs), PointSet(ver), i, p);
      HorizontalUnique(acc, hs, odd, even, i, i, p);
    }
    forall p | p in PointSet(ver)
      ensures p in PointSet(hor)
    {
      PointSetLies(hor, p);
      PointSetLies(ver, p);
      var v :| Lies(ver, v, p);
      var h := VerticalPointSubgrid(acc, hs, odd, even, v, p);
      PrunedLies(Tagged(hs), PointSet(ver), h, p);
    }
  }

  lemma PrunedLies(lines: seq<GridLine>, keep: set<Point>, i: int, p: Point)
    ensures Lies(Pruned(lines, keep), i, p) <==> Lies(lines, i, p) && p in keep
  {
  }

  /** Each point of the finalized grid is on exactly one horizontal line. */
  lemma OneHorizontalLine(acc: seq<Point>, hs: Slots, odd: Slots, even: Slots, i: int, j: int, p: Point)
    requires Finalization(acc, hs, odd, even)
    requires Lies(FinalHorizontal(hs, odd, even), i, p) && Lies(FinalHorizontal(hs, odd, even), j, p)
    ensures i == j
  {
    hide Finalization, Lies;
    var keep := PointSet(FinalVertical(odd, even));
    PrunedLies(Tagged(hs), keep, i, p);
    PrunedLies(Tagged(hs), keep, j, p);
    HorizontalUnique(acc, hs, odd, even, i, j, p);
  }

  /** Lines that cross in a point carry the same subgrid tag. */
  lemma SubgridsAgree(acc: seq<Point>, hs: Slots, odd: Slots, even: Slots, h: int, v: int, p: Point)
    requires Finalization(acc, hs, odd, even)
    requires Lies(FinalHorizontal(hs, odd, even), h, p) && Lies(FinalVertical(odd, even), v, p)
    ensures FinalHorizontal(hs, odd, even)[h].subgrid == FinalVertical(odd, even)[v].subgrid
  {
    hide Finalization, FinalVertical;
    PrunedLies(Tagged(hs), PointSet(FinalVertical(odd, even)), h, p);
    var h' := VerticalPointSubgrid(acc, hs, odd, even, v, p);
    HorizontalUnique(acc, hs, odd, even, h, h', p);
  }

  /** Horizontal lines are sorted along y, vertical lines along x. */
  lemma FinalLinesSorted(acc: seq<Point>, hs: Slots, odd: Slots, even: Slots, i: nat)
    requires Finalization(acc, hs, odd, even)
    ensures i < |hs| ==> SortedBy(FinalHorizontal(hs, odd, even)[i].points, Y)
    ensures i < |FinalVertical(odd, even)| ==> SortedBy(FinalVertical(odd, even)[i].points, X)
  {
    hide VerticalSlots, HorizontalSlots, SortedBy, Interleaved, PointSet;
    if i < |hs| {
      KeptSorted(hs[i].value, PointSet(FinalVertical(odd, even)), Y);
    }
    if i < |FinalVertical(odd, even)| {
      var k := InterleavedSource(odd, even, i);
    }
  }

  /** The vertical lines are listed in the order of their keys, on equal keys SUBGRID_B first. */
  lemma VerticalInKeyOrder(acc: seq<Point>, hs: Slots, odd: Slots, even: Slots)
    requires Finalization(acc, hs, odd, even)
    ensures forall i, j :: 0 <= i < j < |Interleaved(odd, even)| ==>
              var a, b := Interleaved(odd, even)[i], Interleaved(odd, even)[j];
              a.key < b.key || (a.key == b.key && a.value.subgrid == SUBGRID_B && b.value.subgrid == SUBGRID_A)
  {
    hide Interleaved, Rearranged, HorizontalSlots, Swept;
    RearrangedKeeps(VerticalSlots(Tagged(hs), 0), odd, X);
    RearrangedKeeps(VerticalSlots(Tagged(hs), 1), even, X);
    InterleavedInOrder(odd, even);
  }
}
