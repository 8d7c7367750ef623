/**
  How many vertical lines a point of the finalized grid is on (lib/calibration/pointgrid.cpp:181-299).

  The horizontal line in the first third is swept in both directions, so its points are added
  twice to the vertical lines, and the second addition may join another line.  All other
  points are on one vertical line.
 */
module VerticalLines {
  import opened Common
  import opened OrderedMap
  import opened LineGrids
  import opened PointLines
  import opened PointSweep
  import opened PointGridSpec
  import opened PointGridTheorems

  // ---------------------------------------------------------------- additions in a row

  /** Between two additions of the point there are only additions at its coordinate, of the same kind. */
  ghost predicate Together(ops: seq<Op>, p: Point, c: Coordinate) {
    forall i, j, k :: 0 <= i <= j <= k < |ops| && ops[i].point == p && ops[k].point == p
                      ==> At(ops[j].point, c) == At(p, c) && ops[j].construct == ops[i].construct
  }

  /** Adding at the coordinate of the point once more is skipped, or joins the one line that holds the point. */
  ghost predicate Settled(m: Slots, p: Point, construct: bool, c: Coordinate)
    requires Sorted(m) && m != []
  {
    var o := StepOutcome(m, Op(p, construct), c);
    && InOneLine(m, p)
    && (o.Skips? || (o.Joins? && Holds(m, o.at, p) && m[o.at].key == At(p, c)))
  }

  lemma AddedIsSettled(m: Slots, p: Point, construct: bool, c: Coordinate)
    requires Sorted(m) && (m == [] ==> construct)
    requires InOneLine(Step(m, Op(p, construct), c), p)
    ensures Sorted(Step(m, Op(p, construct), c)) && Step(m, Op(p, construct), c) != []
    ensures Settled(Step(m, Op(p, construct), c), p, construct, c)
  {
    hide Step, Sorted, InOneLine;
    var op := Op(p, construct);
    StepShape(m, op, c);
    var o, m' := StepOutcome(m, op, c), Step(m, op, c);
    if !o.Skips? {
      assert m'[o.at].key == At(p, c) && Holds(m', o.at, p);
      NearestToKey(m', o.at);
    }
  }

  lemma SettledStays(m: Slots, p: Point, op: Op, c: Coordinate)
    requires Sorted(m) && m != [] && Settled(m, p, op.construct, c) && At(op.point, c) == At(p, c)
    ensures Sorted(Step(m, op, c)) && Step(m, op, c) != [] && Settled(Step(m, op, c), p, op.construct, c)
  {
    hide Step, Sorted;
    StepShape(m, op, c);
    var o, m' := StepOutcome(m, op, c), Step(m, op, c);
    if o.Joins? {
      NearestToKey(m', o.at);
      forall i, j | Holds(m', i, p) && Holds(m', j, p)
        ensures i == j
      {
        AppliedHolds(m, o, op.point, c, i, p);
        AppliedHolds(m, o, op.point, c, j, p);
      }
    }
  }

  ghost predicate AllAt(ops: seq<Op>, k: nat, n: nat, p: Point, c: Coordinate) {
    forall j :: k <= j < n <= |ops| ==> At(ops[j].point, c) == At(p, c) && ops[j].construct == ops[k].construct
  }

  /** Once the point is in one line, later additions leave it in one line. */
  lemma {:induction false} TogetherStays(m: Slots, ops: seq<Op>, c: Coordinate, k: nat, n: nat)
    requires Startable(m, ops) && k < n <= |ops| && Together(ops, ops[k].point, c)
    requires Startable(m, ops[..k + 1]) && InOneLine(Run(m, ops[..k + 1], c), ops[k].point)
    ensures Startable(m, ops[..n]) && InOneLine(Run(m, ops[..n], c), ops[k].point)
    ensures AllAt(ops, k, n, ops[k].point, c) ==> Settled(Run(m, ops[..n], c), ops[k].point, ops[k].construct, c)
    decreases n
  {
    hide Run, Step, Sorted, InOneLine, Settled, Applied, StepOutcome;
    var p, op := ops[k].point, ops[n - 1];
    assert ops[..n] == ops[..n - 1] + [op];
    assert ops[..n][..n - 1] == ops[..n - 1];
    RunAppend(m, ops[..n - 1], op, c);
    var before := Run(m, ops[..n - 1], c);
    if n == k + 1 {
      AddedIsSettled(before, p, op.construct, c);
    } else {
      TogetherStays(m, ops, c, k, n - 1);
      if op.point == p || AllAt(ops, k, n, p, c) {
        assert AllAt(ops, k, n - 1, p, c);
        SettledStays(before, p, op, c);
        SettledInOneLine(Run(m, ops[..n], c), p, op.construct, c);
      } else {
        StepShape(before, op, c);
        AppliedInOneLine(before, StepOutcome(before, op, c), op.point, c, p);
      }
    }
  }

  lemma SettledInOneLine(m: Slots, p: Point, construct: bool, c: Coordinate)
    requires Sorted(m) && m != [] && Settled(m, p, construct, c)
    ensures InOneLine(m, p)
  {
  }

  lemma {:induction false} FirstAddition(ops: seq<Op>, p: Point) returns (k: nat)
    requires !NeverIn(ops, p)
    ensures k < |ops| && ops[k].point == p && NeverIn(ops[..k], p)
  {
    var n := |ops| - 1;
    if NeverIn(ops[..n], p) {
      k := n;
    } else {
      k := FirstAddition(ops[..n], p);
      assert ops[..n][..k] == ops[..k];
    }
  }

  /** Additions in a row, to a map without the point, leave it in at most one line. */
  lemma RunTogether(m: Slots, ops: seq<Op>, c: Coordinate, p: Point)
    requires Startable(m, ops) && Together(ops, p, c)
    requires InOneLine(m, p) && (NeverIn(ops, p) || InNoLine(m, p))
    ensures InOneLine(Run(m, ops, c), p)
  {
    hide Run, Step, Sorted, InOneLine, Together, Holds;
    if NeverIn(ops, p) {
      NeverIsOnce(ops, p);
      RunInOneLine(m, ops, c, p);
    } else {
      var k := FirstAddition(ops, p);
      assert k + 1 < |ops| ==> ops[..k + 1][0] == ops[0];
      NeverIsOnce(ops[..k], p);
      OnceConcat(ops[..k], [ops[k]], p);
      assert ops[..k + 1] == ops[..k] + [ops[k]];
      RunInOneLine(m, ops[..k + 1], c, p);
      TogetherStays(m, ops, c, k, |ops|);
      assert ops[..|ops|] == ops;
    }
  }

  lemma NeverIsOnce(ops: seq<Op>, p: Point)
    requires NeverIn(ops, p)
    ensures OnceIn(ops, p)
  {
  }

  lemma OnceConcat(a: seq<Op>, b: seq<Op>, p: Point)
    requires NeverIn(a, p) && |b| == 1
    ensures OnceIn(a + b, p)
  {
  }

  ghost predicate InNoLine(m: Slots, p: Point) {
    forall i :: !Holds(m, i, p)
  }

  /** The point is in one of the two passes only, in a row. */
  lemma SweptTogether(forward: seq<Op>, backward: seq<Op>, c: Coordinate, p: Point)
    requires ValidSweep(forward) && Together(forward, p, c) && Together(backward, p, c)
    requires NeverIn(forward, p) || NeverIn(backward, p)
    ensures InOneLine(Swept(forward, backward, c), p)
  {
    hide Run, RekeyedTo, Sorted, InOneLine, Holds, GoodLines, AllKeyedByLast, Together;
    AfterForward(forward, c, p);
    var r := Rekeyed(Run([], forward, c), c);
    if NeverIn(forward, p) {
      forall i
        ensures !Holds(r, i, p)
      {
        NotYetHeld(forward, c, i, p);
      }
    }
    RunTogether(r, backward, c, p);
  }

  lemma AfterForward(forward: seq<Op>, c: Coordinate, p: Point)
    requires ValidSweep(forward) && Together(forward, p, c)
    ensures Startable([], forward) && NonEmptyLines(Run([], forward, c)) && Rekeyed(Run([], forward, c), c) != []
    ensures InOneLine(Rekeyed(Run([], forward, c), c), p)
  {
    hide Run, RekeyedTo, Sorted, InOneLine, Holds, GoodLines, AllKeyedByLast, Together;
    ForwardGood(forward, c);
    EmptyInOneLine(p);
    RunTogether([], forward, c, p);
    RekeyedInOneLine(Run([], forward, c), c, p);
  }

  // ---------------------------------------------------------------- the additions of one horizontal line

  /** The point is on no line but `i`, which is sorted. */
  ghost predicate OnlyOn(lines: seq<GridLine>, i: int, p: Point) {
    && 0 <= i < |lines| && SortedBy(lines[i].points, Y)
    && forall j :: Lies(lines, j, p) ==> j == i
  }

  lemma OwnOps(lines: seq<GridLine>, i: nat, construct: bool, p: Point)
    requires OnlyOn(lines, i, p)
    ensures i < |lines| && Together(LineOps(lines[i].points, construct), p, Y)
  {
  }

  lemma OtherOps(lines: seq<GridLine>, i: nat, j: nat, construct: bool, p: Point)
    requires OnlyOn(lines, i, p) && j < |lines| && j != i
    ensures NeverIn(LineOps(lines[j].points, construct), p)
  {
    assert !Lies(lines, j, p);
  }

  lemma NeverIsTogether(ops: seq<Op>, p: Point, c: Coordinate)
    requires NeverIn(ops, p)
    ensures Together(ops, p, c)
  {
  }

  lemma TogetherConcat(a: seq<Op>, b: seq<Op>, p: Point, c: Coordinate)
    requires Together(a, p, c) && Together(b, p, c) && (NeverIn(a, p) || NeverIn(b, p))
    ensures Together(a + b, p, c)
  {
    var ops := a + b;
    forall i, j, k | 0 <= i <= j <= k < |ops| && ops[i].point == p && ops[k].point == p
      ensures At(ops[j].point, c) == At(p, c) && ops[j].construct == ops[i].construct
    {
      if NeverIn(a, p) {
        assert ops[i] == b[i - |a|] && ops[j] == b[j - |a|] && ops[k] == b[k - |a|];
      } else {
        assert ops[i] == a[i] && ops[j] == a[j] && ops[k] == a[k];
      }
    }
  }

  lemma {:induction false} UpOpsTogether(lines: seq<GridLine>, lo: nat, hi: nat, parity: nat, construct: bool, i: nat, p: Point)
    requires lo <= hi <= |lines| && OnlyOn(lines, i, p)
    ensures Together(UpOps(lines, lo, hi, parity, construct), p, Y)
    ensures !(lo <= i < hi) ==> NeverIn(UpOps(lines, lo, hi, parity, construct), p)
    decreases hi
  {
    hide Together, NeverIn, OnlyOn, LineOps;
    NothingNeverIn(p);
    NeverIsTogether([], p, Y);
    if lo < hi {
      UpOpsTogether(lines, lo, hi - 1, parity, construct, i, p);
      var front, last := UpOps(lines, lo, hi - 1, parity, construct), LineOps(lines[hi - 1].points, construct);
      if hi - 1 == i {
        OwnOps(lines, i, construct, p);
      } else {
        OtherOps(lines, i, hi - 1, construct, p);
        NeverIsTogether(last, p, Y);
      }
      var added := if (hi - 1) % 2 == parity then last else [];
      TogetherConcat(front, added, p, Y);
      if !(lo <= i < hi) {
        NeverInConcat(front, added, p);
      }
    }
  }

  lemma {:induction false} DownOpsTogether(lines: seq<GridLine>, start: nat, count: nat, parity: nat, i: nat, p: Point)
    requires count <= start + 1 && (count > 0 ==> start < |lines|) && OnlyOn(lines, i, p)
    ensures Together(DownOps(lines, start, count, parity, false), p, Y)
    ensures !(start - count < i <= start) ==> NeverIn(DownOps(lines, start, count, parity, false), p)
    decreases count
  {
    hide Together, NeverIn, OnlyOn, LineOps;
    NothingNeverIn(p);
    NeverIsTogether([], p, Y);
    if count > 0 {
      var n := start - (count - 1);
      DownOpsTogether(lines, start, count - 1, parity, i, p);
      var front, last := DownOps(lines, start, count - 1, parity, false), LineOps(lines[n].points, false);
      if n == i {
        OwnOps(lines, i, false, p);
      } else {
        OtherOps(lines, i, n, false, p);
        NeverIsTogether(last, p, Y);
      }
      var added := if n % 2 == parity then last else [];
      TogetherConcat(front, added, p, Y);
      if !(start - count < i <= start) {
        NeverInConcat(front, added, p);
      }
    }
  }

  /** Both passes over the horizontal lines add the point in a row; only the start line is in both. */
  lemma VerticalPasses(lines: seq<GridLine>, parity: nat, i: nat, p: Point)
    requires |lines| >= 8 && OnlyOn(lines, i, p)
    ensures Together(VerticalForward(lines, parity), p, Y) && Together(VerticalBackward(lines, parity), p, Y)
    ensures i != |lines| / 3 ==> NeverIn(VerticalForward(lines, parity), p) || NeverIn(VerticalBackward(lines, parity), p)
  {
    hide Together, NeverIn, OnlyOn, UpOps, DownOps;
    var start := |lines| / 3;
    var a, b := UpOps(lines, start, start + 6, parity, true), UpOps(lines, start + 6, |lines|, parity, false);
    UpOpsTogether(lines, start, start + 6, parity, true, i, p);
    UpOpsTogether(lines, start + 6, |lines|, parity, false, i, p);
    DownOpsTogether(lines, start, start + 1, parity, i, p);
    TogetherConcat(a, b, p, Y);
    if i < start {
      NeverInConcat(a, b, p);
    }
  }

  // ---------------------------------------------------------------- points that are added twice

  /** Adding the point to a map again leaves it where it is: it is skipped, or joins a line that holds it. */
  ghost predicate ReturnsHome(m: Slots, p: Point, c: Coordinate)
    requires Sorted(m) && m != []
  {
    var o := StepOutcome(m, Op(p, false), c);
    forall i :: Holds(m, i, p) ==> o.Skips? || o == Joins(i)
  }

  lemma AddedAgain(m: Slots, p: Point, c: Coordinate)
    requires Sorted(m) && m != [] && InOneLine(m, p)
    ensures InOneLine(Step(m, Op(p, false), c), p) <==> ReturnsHome(m, p, c)
  {
    hide Step, Sorted;
    var op := Op(p, false);
    var o := StepOutcome(m, op, c);
    hide StepOutcome;
    StepShape(m, op, c);
    var m' := Step(m, op, c);
    if ReturnsHome(m, p, c) {
      forall i, j | Holds(m', i, p) && Holds(m', j, p)
        ensures i == j
      {
        AppliedHolds(m, o, p, c, i, p);
        AppliedHolds(m, o, p, c, j, p);
      }
    } else {
      var i :| Holds(m, i, p) && !o.Skips? && o != Joins(i);
      NeverOpens(m, op, c);
      assert Holds(m', i, p) && Holds(m', o.at, p);
    }
  }

  lemma NeverOpens(m: Slots, op: Op, c: Coordinate)
    requires Sorted(m) && m != [] && !op.construct
    ensures !StepOutcome(m, op, c).Opens?
  {
  }

  lemma AppliedTwoLines(m: Slots, o: Outcome, q: Point, c: Coordinate, p: Point)
    requires ValidOutcome(m, o) && !InOneLine(m, p)
    ensures !InOneLine(Applied(m, o, q, c), p)
  {
    var m' := Applied(m, o, q, c);
    var i, j :| Holds(m, i, p) && Holds(m, j, p) && i != j;
    var i', j' := if o.Opens? && o.at <= i then i + 1 else i, if o.Opens? && o.at <= j then j + 1 else j;
    assert Holds(m', i', p) && Holds(m', j', p);
  }

  /** A point in two lines stays in two lines. */
  lemma {:induction false} RunTwoLines(m: Slots, ops: seq<Op>, c: Coordinate, p: Point)
    requires Startable(m, ops) && !InOneLine(m, p)
    ensures !InOneLine(Run(m, ops, c), p)
  {
    if ops != [] {
      hide Run, Applied, StepOutcome, Sorted, InOneLine;
      var prefix, op := ops[..|ops| - 1], ops[|ops| - 1];
      RunTwoLines(m, prefix, c, p);
      RunStep(m, ops, c);
      var before := Run(m, prefix, c);
      AppliedTwoLines(before, StepOutcome(before, op, c), op.point, c, p);
    }
  }

  /** The map when the way back has taken `k` additions. */
  ghost function OnTheWayBack(forward: seq<Op>, backward: seq<Op>, c: Coordinate, k: nat): (m: Slots)
    requires ValidSweep(forward) && k <= |backward|
    ensures Sorted(m) && m != []
  {
    ForwardGood(forward, c);
    Run(Rekeyed(Run([], forward, c), c), backward[..k], c)
  }

  /** A point that both passes add is in one line afterwards exactly when the way back returns it to its line. */
  lemma SweptInOneLineIff(forward: seq<Op>, backward: seq<Op>, c: Coordinate, k: nat)
    requires ValidSweep(forward) && k < |backward| && !backward[k].construct
    requires NeverIn(backward[..k], backward[k].point)
    requires Together(forward, backward[k].point, c) && Together(backward, backward[k].point, c)
    ensures InOneLine(Swept(forward, backward, c), backward[k].point) <==>
            ReturnsHome(OnTheWayBack(forward, backward, c, k), backward[k].point, c)
  {
    hide Run, RekeyedTo, Sorted, InOneLine, Step, ReturnsHome, GoodLines, AllKeyedByLast, Holds, Together;
    var p := backward[k].point;
    var front, rest := backward[..k], backward[k + 1..];
    AfterForward(forward, c, p);
    var r := Rekeyed(Run([], forward, c), c);
    var m := OnTheWayBack(forward, backward, c, k);
    NeverIsOnce(front, p);
    RunInOneLine(r, front, c, p);
    AddedAgain(m, p, c);
    assert backward[k] == Op(p, false);
    RunAppend(r, front, Op(p, false), c);
    assert backward[..k + 1] == front + [Op(p, false)];
    var m' := Run(r, backward[..k + 1], c);
    if InOneLine(m', p) {
      TogetherStays(r, backward, c, k, |backward|);
      assert backward[..|backward|] == backward;
    } else {
      assert backward == backward[..k + 1] + rest;
      RunSplit(r, backward[..k + 1], rest, c);
      RunTwoLines(m', rest, c, p);
    }
  }

  // ---------------------------------------------------------------- the list of vertical lines

  function Values(m: Slots): seq<seq<Point>> {
    seq(|m|, i requires 0 <= i < |m| => m[i].value)
  }

  function PointsOf(m: seq<Slot<GridLine>>): seq<seq<Point>> {
    seq(|m|, i requires 0 <= i < |m| => m[i].value.points)
  }

  /** Number of lines that hold the point. */
  ghost function LinesWith(ls: seq<seq<Point>>, p: Point): nat {
    if ls == [] then 0 else (if p in ls[0] then 1 else 0) + LinesWith(ls[1..], p)
  }

  ghost predicate HeldAt(ls: seq<seq<Point>>, i: int, older p: Point) {
    0 <= i < |ls| && p in ls[i]
  }

  lemma {:induction false} LinesWithCounts(ls: seq<seq<Point>>, p: Point)
    ensures LinesWith(ls, p) == 0 <==> forall i :: !HeldAt(ls, i, p)
    ensures LinesWith(ls, p) <= 1 <==> forall i, j :: HeldAt(ls, i, p) && HeldAt(ls, j, p) ==> i == j
  {
    if ls != [] {
      var tail := ls[1..];
      LinesWithCounts(tail, p);
      assert forall i :: HeldAt(tail, i, p) ==> HeldAt(ls, i + 1, p);
      assert forall i :: i != 0 && HeldAt(ls, i, p) ==> HeldAt(tail, i - 1, p);
      assert HeldAt(ls, 0, p) <==> p in ls[0];
      if i, j :| HeldAt(tail, i, p) && HeldAt(tail, j, p) && i != j {
        assert HeldAt(ls, i + 1, p) && HeldAt(ls, j + 1, p);
      }
    }
  }

  lemma {:induction false} InterleavedCount(odd: Slots, even: Slots, p: Point)
    ensures LinesWith(PointsOf(Interleaved(odd, even)), p) == LinesWith(Values(odd), p) + LinesWith(Values(even), p)
    decreases |odd| + |even|
  {
    var m := Interleaved(odd, even);
    if odd == [] && even == [] {
    } else if even == [] || (odd != [] && odd[0].key < even[0].key) {
      InterleavedCount(odd[1..], even, p);
      assert PointsOf(m)[1..] == PointsOf(Interleaved(odd[1..], even));
      assert Values(odd)[1..] == Values(odd[1..]);
    } else {
      InterleavedCount(odd, even[1..], p);
      assert PointsOf(m)[1..] == PointsOf(Interleaved(odd, even[1..]));
      assert Values(even)[1..] == Values(even[1..]);
    }
  }

  /** The point is on at most one of the lines. */
  ghost predicate OnOneLine(lines: seq<GridLine>, p: Point) {
    forall i, j :: Lies(lines, i, p) && Lies(lines, j, p) ==> i == j
  }

  /** The vertical lines built from horizontal lines of one parity. */
  function Family(odd: Slots, even: Slots, parity: nat): Slots {
    if parity == 0 then odd else even
  }

  /** When only one family has the point, the list has it on one line exactly when the family has. */
  lemma OnOneLineIff(odd: Slots, even: Slots, parity: nat, p: Point)
    requires parity < 2 && InNoLine(Family(odd, even, 1 - parity), p)
    ensures OnOneLine(FinalVertical(odd, even), p) <==> InOneLine(Family(odd, even, parity), p)
  {
    hide Interleaved, LinesWith;
    var m, own, other := Interleaved(odd, even), Family(odd, even, parity), Family(odd, even, 1 - parity);
    InterleavedCount(odd, even, p);
    LinesWithCounts(PointsOf(m), p);
    LinesWithCounts(Values(own), p);
    LinesWithCounts(Values(other), p);
    assert forall i :: HeldAt(Values(other), i, p) <==> Holds(other, i, p);
    assert forall i :: HeldAt(Values(own), i, p) <==> Holds(own, i, p);
    assert forall i :: HeldAt(PointsOf(m), i, p) <==> Lies(FinalVertical(odd, even), i, p);
  }

  // ---------------------------------------------------------------- the finalized grid

  lemma {:induction false} DownOpsFront(lines: seq<GridLine>, start: nat, count: nat)
    requires 0 < count <= start + 1 && start < |lines|
    ensures LineOps(lines[start].points, false) <= DownOps(lines, start, count, start % 2, false)
    decreases count
  {
    if count > 1 {
      DownOpsFront(lines, start, count - 1);
    } else {
      assert DownOps(lines, start, 0, start % 2, false) == [];
    }
  }

  /** The way back starts with the points of the start line. */
  lemma StartLineFirst(lines: seq<GridLine>, k: nat)
    requires |lines| >= 8 && k < |lines[|lines| / 3].points|
    ensures var start := |lines| / 3;
            var backward := VerticalBackward(lines, start % 2);
            k < |backward| && backward[k] == Op(lines[start].points[k], false)
  {
    hide DownOps;
    var start := |lines| / 3;
    DownOpsFront(lines, start, start + 1);
    var ops := LineOps(lines[start].points, false);
    assert ops[k] == Op(lines[start].points[k], false);
  }

  /** Point `k` of the start line is added again to the vertical lines and returns to its line. */
  ghost predicate StartPointReturns(lines: seq<GridLine>, k: nat)
    requires |lines| >= 8 && NoEmptyLine(lines) && k < |lines[|lines| / 3].points|
  {
    var start := |lines| / 3;
    VerticalValid(lines, start % 2);
    StartLineFirst(lines, k);
    ReturnsHome(OnTheWayBack(VerticalForward(lines, start % 2), VerticalBackward(lines, start % 2), Y, k),
                lines[start].points[k], Y)
  }

  lemma HorizontalOnlyOn(acc: seq<Point>, hs: Slots, odd: Slots, even: Slots, i: nat, p: Point)
    requires Finalization(acc, hs, odd, even) && Lies(Tagged(hs), i, p)
    ensures OnlyOn(Tagged(hs), i, p)
  {
    hide VerticalSlots, HorizontalSlots, SortedBy;
    forall j | Lies(Tagged(hs), j, p)
      ensures j == i
    {
      HorizontalUnique(acc, hs, odd, even, i, j, p);
    }
  }

  lemma FamilyHolds(acc: seq<Point>, hs: Slots, odd: Slots, even: Slots, parity: nat, i: int, p: Point)
    requires Finalization(acc, hs, odd, even) && parity < 2
    ensures Holds(Family(odd, even, parity), i, p) <==> Holds(VerticalSlots(Tagged(hs), parity), i, p)
    ensures Holds(Family(odd, even, parity), i, p) ==> OnParity(Tagged(hs), parity, p)
  {
    hide VerticalSlots, HorizontalSlots, Rearranged, Holds, NoEmptyLine, OnParity, Tagged;
    RearrangedHolds(VerticalSlots(Tagged(hs), parity), Family(odd, even, parity), X, i, p);
    if Holds(VerticalSlots(Tagged(hs), parity), i, p) {
      VerticalOnParity(Tagged(hs), parity, i, p);
    }
  }

  lemma FamilyInOneLine(acc: seq<Point>, hs: Slots, odd: Slots, even: Slots, parity: nat, p: Point)
    requires Finalization(acc, hs, odd, even) && parity < 2
    ensures InOneLine(Family(odd, even, parity), p) <==> InOneLine(VerticalSlots(Tagged(hs), parity), p)
  {
    hide VerticalSlots, HorizontalSlots, Rearranged, Holds, NoEmptyLine, Tagged, Family;
    forall i
      ensures Holds(Family(odd, even, parity), i, p) <==> Holds(VerticalSlots(Tagged(hs), parity), i, p)
    {
      FamilyHolds(acc, hs, odd, even, parity, i, p);
    }
  }

  /** A point of one horizontal line is on one vertical line exactly when its family has it in one line. */
  lemma ReducedToFamily(acc: seq<Point>, hs: Slots, odd: Slots, even: Slots, i: nat, p: Point)
    requires Finalization(acc, hs, odd, even) && OnlyOn(Tagged(hs), i, p)
    ensures OnOneLine(FinalVertical(odd, even), p) <==> InOneLine(VerticalSlots(Tagged(hs), i % 2), p)
  {
    hide Finalization, InOneLine, VerticalSlots, Holds, Tagged, FinalVertical, OnOneLine, Family;
    var other := 1 - i % 2;
    forall j
      ensures !Holds(Family(odd, even, other), j, p)
    {
      FamilyHolds(acc, hs, odd, even, other, j, p);
      assert !OnParity(Tagged(hs), other, p);
    }
    OnOneLineIff(odd, even, i % 2, p);
    FamilyInOneLine(acc, hs, odd, even, i % 2, p);
  }

  /**
    A point that is not on the horizontal line where the vertical sweep starts is on at most
    one vertical line.
   */
  lemma OneVerticalLine(acc: seq<Point>, hs: Slots, odd: Slots, even: Slots, p: Point)
    requires Finalization(acc, hs, odd, even) && !Lies(Tagged(hs), |hs| / 3, p)
    ensures OnOneLine(FinalVertical(odd, even), p)
  {
    hide Rearranged, InOneLine, Swept, Holds, Tagged, FinalVertical, HorizontalSlots, VerticalForward, VerticalBackward,
         OnlyOn, NoEmptyLine, Together, NeverIn;
    var lines := Tagged(hs);
    if i: nat :| Lies(lines, i, p) {
      HorizontalOnlyOn(acc, hs, odd, even, i, p);
      ReducedToFamily(acc, hs, odd, even, i, p);
      VerticalPasses(lines, i % 2, i, p);
      VerticalValid(lines, i % 2);
      SweptTogether(VerticalForward(lines, i % 2), VerticalBackward(lines, i % 2), Y, p);
    } else {
      forall v
        ensures !Lies(FinalVertical(odd, even), v, p)
      {
        if Lies(FinalVertical(odd, even), v, p) {
          var h := VerticalPointSubgrid(acc, hs, odd, even, v, p);
        }
      }
    }
  }

  /**
    A point of the horizontal line where the vertical sweep starts, first met there at `k`, is
    on at most one vertical line if and only if the way back returns it to its line.
   */
  lemma OneVerticalLineIff(acc: seq<Point>, hs: Slots, odd: Slots, even: Slots, k: nat)
    requires Finalization(acc, hs, odd, even) && k < |hs[|hs| / 3].value|
    requires forall j :: 0 <= j < k ==> hs[|hs| / 3].value[j] != hs[|hs| / 3].value[k]
    ensures OnOneLine(FinalVertical(odd, even), hs[|hs| / 3].value[k]) <==> StartPointReturns(Tagged(hs), k)
  {
    hide Rearranged, InOneLine, Swept, Holds, FinalVertical, HorizontalSlots, VerticalForward, VerticalBackward,
         OnlyOn, NoEmptyLine, Together, ReturnsHome, OnTheWayBack, OnOneLine;
    var lines, start := Tagged(hs), |hs| / 3;
    var p := lines[start].points[k];
    assert Lies(lines, start, p);
    HorizontalOnlyOn(acc, hs, odd, even, start, p);
    ReducedToFamily(acc, hs, odd, even, start, p);
    VerticalPasses(lines, start % 2, start, p);
    VerticalValid(lines, start % 2);
    StartLineFirst(lines, k);
    NotBefore(lines, k);
    SweptInOneLineIff(VerticalForward(lines, start % 2), VerticalBackward(lines, start % 2), Y, k);
  }

  lemma NotBefore(lines: seq<GridLine>, k: nat)
    requires |lines| >= 8 && k < |lines[|lines| / 3].points|
    requires forall j :: 0 <= j < k ==> lines[|lines| / 3].points[j] != lines[|lines| / 3].points[k]
    ensures k < |VerticalBackward(lines, |lines| / 3 % 2)|
    ensures NeverIn(VerticalBackward(lines, |lines| / 3 % 2)[..k], lines[|lines| / 3].points[k])
  {
    hide VerticalBackward;
    StartLineFirst(lines, k);
    forall j | 0 <= j < k
      ensures VerticalBackward(lines, |lines| / 3 % 2)[j].point != lines[|lines| / 3].points[k]
    {
      StartLineFirst(lines, j);
    }
  }
}
