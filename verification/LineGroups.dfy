/**
  Constructing additions of points in increasing order: the points fall into groups, and a new
  group begins wherever a point is more than MAX_DIFF above the one before
  (lib/calibration/pointgrid.cpp:320-352).
 */
module LineGroups {
  import opened Common
  import opened OrderedMap
  import opened PointLines
  import opened PointSweep
  import opened PointGridSpec
  import opened PointGridTheorems

  // ---------------------------------------------------------------- single additions

  lemma {:induction false} JoinStep(m: Slots, op: Op, c: Coordinate, n: nat)
    requires Sorted(m) && IsNearest(m, At(op.point, c), n)
    requires Abs(m[n].key - At(op.point, c)) < MAX_DIFF || (op.construct && Abs(m[n].key - At(op.point, c)) <= MAX_DIFF)
    ensures Step(m, op, c) == m[n := Slot(At(op.point, c), m[n].value + [op.point])]
    ensures StepOutcome(m, op, c) == Joins(n)
  {
    hide Step;
    NearestIsGlobal(m, At(op.point, c), n);
    StepShape(m, op, c);
  }

  /** A point at the key of a line joins that line. */
  lemma {:induction false} JoinAtKey(m: Slots, op: Op, c: Coordinate, n: nat)
    requires Sorted(m) && n < |m| && m[n].key == At(op.point, c)
    ensures Step(m, op, c) == m[n := Slot(m[n].key, m[n].value + [op.point])]
    ensures StepOutcome(m, op, c) == Joins(n)
  {
    hide Step, Sorted;
    NearestToKey(m, n);
    NearestIsGlobal(m, m[n].key, n);
    JoinStep(m, op, c, n);
  }

  lemma {:induction false} OpenStep(m: Slots, op: Op, c: Coordinate, n: nat)
    requires Sorted(m) && op.construct && n <= |m|
    requires forall i :: 0 <= i < n ==> m[i].key < At(op.point, c) - MAX_DIFF
    requires forall i :: n <= i < |m| ==> m[i].key > At(op.point, c) + MAX_DIFF
    ensures Step(m, op, c) == m[..n] + [Slot(At(op.point, c), [op.point])] + m[n..]
  {
    hide Step;
    LowerBoundIs(m, At(op.point, c), n);
    StepShape(m, op, c);
  }

  ghost predicate FarFrom(m: Slots, op: Op, c: Coordinate) {
    !op.construct && forall i :: 0 <= i < |m| ==> Abs(m[i].key - At(op.point, c)) >= MAX_DIFF
  }

  lemma {:induction false} SkipStep(m: Slots, op: Op, c: Coordinate)
    requires Sorted(m) && m != [] && FarFrom(m, op, c)
    ensures Step(m, op, c) == m
  {
    hide Step;
    StepShape(m, op, c);
  }

  /** Points that are out of reach of every line change nothing. */
  lemma {:induction false} SkipRun(m: Slots, ops: seq<Op>, c: Coordinate)
    requires Sorted(m) && m != [] && forall j :: 0 <= j < |ops| ==> FarFrom(m, ops[j], c)
    ensures Run(m, ops, c) == m
  {
    hide Step, Sorted, FarFrom;
    if ops != [] {
      var n := |ops| - 1;
      SkipRun(m, ops[..n], c);
      SkipStep(m, ops[n], c);
    }
  }

  lemma {:induction false} NextRun(m0: Slots, ops: seq<Op>, c: Coordinate, k: nat, m: Slots)
    requires k < |ops| && Startable(m0, ops[..k]) && Run(m0, ops[..k], c) == m && m != [] && Sorted(m)
    requires m0 == [] ==> k > 0
    ensures Startable(m0, ops[..k + 1]) && Run(m0, ops[..k + 1], c) == Step(m, ops[k], c)
  {
    hide Run, Step;
    assert ops[..k + 1] == ops[..k] + [ops[k]];
    assert k > 0 ==> ops[..k + 1][0] == ops[..k][0];
    RunAppend(m0, ops[..k], ops[k], c);
  }

  // ---------------------------------------------------------------- groups

  function NextGroup(m: Slots, p: Point, c: Coordinate): (m': Slots)
    requires m != []
    ensures m' != []
  {
    var n := |m| - 1;
    if At(p, c) - m[n].key <= MAX_DIFF then m[n := Slot(At(p, c), m[n].value + [p])]
    else m + [Slot(At(p, c), [p])]
  }

  /** The points in groups, each under the coordinate of its last point. */
  function Grouped(points: seq<Point>, c: Coordinate): (m: Slots)
    requires points != []
    ensures m != []
  {
    var n := |points| - 1;
    if n == 0 then [Slot(At(points[0], c), [points[0]])] else NextGroup(Grouped(points[..n], c), points[n], c)
  }

  function FrontAt(s: Slot<seq<Point>>, c: Coordinate): real
    requires s.value != []
  {
    At(s.value[0], c)
  }

  /**
    Groups that end at `last`: the points of a group lie between its front and its key, and
    the next front is out of reach of the key.
   */
  ghost predicate Groups(m: Slots, last: real, c: Coordinate) {
    && m != [] && NonEmptyLines(m) && m[|m| - 1].key == last
    && (forall i :: 0 <= i < |m| ==> FrontAt(m[i], c) <= m[i].key)
    && (forall i, p :: Holds(m, i, p) ==> FrontAt(m[i], c) <= At(p, c) <= m[i].key)
    && (forall i, j :: 0 <= i < j < |m| ==> m[i].key + MAX_DIFF < FrontAt(m[j], c))
  }

  lemma {:induction false} GroupsSorted(m: Slots, last: real, c: Coordinate)
    requires Groups(m, last, c)
    ensures Sorted(m)
    ensures forall i, j :: 0 <= i < j < |m| ==> m[i].key + MAX_DIFF < m[j].key
  {
  }

  lemma {:induction false} GroupStep(m: Slots, last: real, p: Point, c: Coordinate)
    requires Groups(m, last, c) && last <= At(p, c)
    ensures Sorted(m) && Step(m, Op(p, true), c) == NextGroup(m, p, c)
  {
    hide Step;
    GroupsSorted(m, last, c);
    var n := |m| - 1;
    if At(p, c) - last <= MAX_DIFF {
      JoinStep(m, Op(p, true), c, n);
    } else {
      OpenStep(m, Op(p, true), c, n + 1);
    }
  }

  lemma {:induction false} NextIsGroups(m: Slots, last: real, p: Point, c: Coordinate)
    requires Groups(m, last, c) && last <= At(p, c)
    ensures Groups(NextGroup(m, p, c), At(p, c), c)
  {
    var n, m' := |m| - 1, NextGroup(m, p, c);
    forall i, q | Holds(m', i, q)
      ensures m'[i].value != [] && FrontAt(m'[i], c) <= At(q, c) <= m'[i].key
    {
      assert q != p || i < n ==> Holds(m, i, q);
    }
  }

  /** Constructing additions in increasing order make groups. */
  lemma {:induction false} GroupedRun(points: seq<Point>, c: Coordinate)
    requires points != [] && SortedBy(points, c)
    ensures Startable([], LineOps(points, true)) && Run([], LineOps(points, true), c) == Grouped(points, c)
    ensures Groups(Grouped(points, c), At(points[|points| - 1], c), c)
  {
    hide Run, Step, NextGroup, Groups;
    var n := |points| - 1;
    var ops := LineOps(points, true);
    if n == 0 {
      assert ops == [ops[0]];
      FirstPoint(ops[0], c);
      OneGroup(points[0], c);
    } else {
      GroupedRun(points[..n], c);
      assert ops == LineOps(points[..n], true) + [ops[n]];
      RunAppend([], LineOps(points[..n], true), ops[n], c);
      GroupStep(Grouped(points[..n], c), At(points[n - 1], c), points[n], c);
      NextIsGroups(Grouped(points[..n], c), At(points[n - 1], c), points[n], c);
    }
  }

  lemma {:induction false} OneGroup(p: Point, c: Coordinate)
    ensures Groups([Slot(At(p, c), [p])], At(p, c), c)
  {
  }

  /** Every point is in a group. */
  lemma {:induction false} GroupedHolds(points: seq<Point>, c: Coordinate, k: nat) returns (i: nat)
    requires k < |points|
    ensures Holds(Grouped(points, c), i, points[k])
  {
    var n := |points| - 1;
    if n == 0 {
      i := 0;
    } else if k == n {
      i := |Grouped(points, c)| - 1;
    } else {
      i := GroupedHolds(points[..n], c, k);
      assert Holds(Grouped(points[..n], c), i, points[k]);
    }
  }

  // ---------------------------------------------------------------- spaced points

  /** Neighbouring points are at the same coordinate or out of reach of each other. */
  ghost predicate Spaced(points: seq<Point>, c: Coordinate) {
    forall i :: 0 < i < |points| ==>
      At(points[i], c) == At(points[i - 1], c) || At(points[i], c) > At(points[i - 1], c) + MAX_DIFF
  }

  ghost predicate AllFlat(m: Slots, c: Coordinate) {
    forall i :: 0 <= i < |m| ==> m[i].value != [] && FrontAt(m[i], c) == m[i].key
  }

  lemma {:induction false} SpacedIsFlat(points: seq<Point>, c: Coordinate)
    requires points != [] && SortedBy(points, c) && Spaced(points, c)
    ensures AllFlat(Grouped(points, c), c)
  {
    var n := |points| - 1;
    if n > 0 {
      SpacedIsFlat(points[..n], c);
      GroupedRun(points[..n], c);
    }
  }

  /** Points that are not spaced make a group whose front is below its key. */
  lemma {:induction false} UnspacedIsSteep(points: seq<Point>, c: Coordinate) returns (l: nat)
    requires points != [] && SortedBy(points, c) && !Spaced(points, c)
    ensures l < |Grouped(points, c)| && Grouped(points, c)[l].value != []
    ensures FrontAt(Grouped(points, c)[l], c) < Grouped(points, c)[l].key
  {
    hide Grouped, Groups, Run;
    var m := Grouped(points, c);
    GroupedRun(points, c);
    var k :| 0 < k < |points| && At(points[k - 1], c) < At(points[k], c) <= At(points[k - 1], c) + MAX_DIFF;
    var i := GroupedHolds(points, c, k - 1);
    var j := GroupedHolds(points, c, k);
    SameGroup(m, At(points[|points| - 1], c), c, i, j, points[k - 1], points[k]);
    l := i;
  }

  /** Points within reach of each other are in the same group. */
  lemma {:induction false} SameGroup(m: Slots, last: real, c: Coordinate, i: nat, j: nat, p: Point, q: Point)
    requires Groups(m, last, c) && Holds(m, i, p) && Holds(m, j, q) && At(p, c) <= At(q, c) <= At(p, c) + MAX_DIFF
    ensures i == j && m[i].value != [] && FrontAt(m[i], c) <= At(p, c) && At(q, c) <= m[i].key
  {
  }

  // ---------------------------------------------------------------- re-keying in order

  ghost predicate FrontsIncrease(m: Slots, c: Coordinate) {
    && NonEmptyLines(m)
    && forall i, j :: 0 <= i < j < |m| ==> FrontAt(m[i], c) < FrontAt(m[j], c)
  }

  /** Lines whose fronts are in order are all kept, in order. */
  lemma {:induction false} RekeyedInOrder(m: Slots, c: Coordinate, k: nat)
    requires FrontsIncrease(m, c) && k <= |m|
    ensures |RekeyedTo(m, c, k)| == k
    ensures forall i :: 0 <= i < k ==> RekeyedTo(m, c, k)[i] == Slot(FrontAt(m[i], c), m[i].value)
  {
    hide Emplace;
    if k > 0 {
      RekeyedInOrder(m, c, k - 1);
      EmplaceAt(RekeyedTo(m, c, k - 1), k - 1, FrontAt(m[k - 1], c), m[k - 1].value);
    }
  }

  // ---------------------------------------------------------------- lines at the upper end

  /** One line per point. */
  function Singles(points: seq<Point>, c: Coordinate): (m: Slots)
    ensures |m| == |points| && forall i :: 0 <= i < |m| ==> m[i] == Slot(At(points[i], c), [points[i]])
  {
    seq(|points|, i requires 0 <= i < |points| => Slot(At(points[i], c), [points[i]]))
  }

  /** All points are out of reach above `last`, and of each other. */
  ghost predicate Rising(points: seq<Point>, last: real, c: Coordinate) {
    && (forall i :: 0 <= i < |points| ==> last + MAX_DIFF < At(points[i], c))
    && (forall i, j :: 0 <= i < j < |points| ==> At(points[i], c) + MAX_DIFF < At(points[j], c))
  }

  lemma {:induction false} RisingRun(m: Slots, points: seq<Point>, c: Coordinate)
    requires Sorted(m) && m != [] && Rising(points, m[|m| - 1].key, c)
    ensures Run(m, LineOps(points, true), c) == m + Singles(points, c)
  {
    hide Run, Step, Singles;
    var ops, n := LineOps(points, true), |points| - 1;
    if points == [] {
      assert ops == [] && m + Singles(points, c) == m;
    } else {
      var front := points[..n];
      RisingRun(m, front, c);
      assert ops == LineOps(front, true) + [ops[n]];
      RunAppend(m, LineOps(front, true), ops[n], c);
      var m' := m + Singles(front, c);
      OpenStep(m', ops[n], c, |m'|);
      assert m'[..|m'|] + [Slot(At(points[n], c), [points[n]])] + m'[|m'|..] == m + Singles(points, c);
    }
  }

  /** Re-keying goes on in order once the fronts are in order. */
  lemma {:induction false} RekeyedTail(m: Slots, c: Coordinate, k0: nat, k: nat)
    requires NonEmptyLines(m) && 0 < k0 <= k <= |m|
    requires forall i :: k0 <= i < |m| ==> RekeyedTo(m, c, k0)[|RekeyedTo(m, c, k0)| - 1].key < FrontAt(m[i], c) == m[i].key
    requires forall i, j :: k0 <= i < j < |m| ==> FrontAt(m[i], c) < FrontAt(m[j], c)
    ensures RekeyedTo(m, c, k) == RekeyedTo(m, c, k0) + m[k0..k]
  {
    hide RekeyedTo;
    var r0 := RekeyedTo(m, c, k0);
    if k == k0 {
      assert m[k0..k] == [];
    } else {
      RekeyedTail(m, c, k0, k - 1);
      RekeyedAtEnd(m, c, k, RekeyedTo(m, c, k - 1));
      assert m[k0..k] == m[k0..k - 1] + [m[k - 1]];
    }
  }

  lemma {:induction false} RekeyedAtEnd(m: Slots, c: Coordinate, k: nat, r: Slots)
    requires NonEmptyLines(m) && 0 < k <= |m| && FrontAt(m[k - 1], c) == m[k - 1].key
    requires r == RekeyedTo(m, c, k - 1) && forall i :: 0 <= i < |r| ==> r[i].key < m[k - 1].key
    ensures RekeyedTo(m, c, k) == r + [m[k - 1]]
  {
    hide Emplace;
    EmplaceAt(r, |r|, FrontAt(m[k - 1], c), m[k - 1].value);
    assert r[..|r|] + [m[k - 1]] + r[|r|..] == r + [m[k - 1]];
  }
}
