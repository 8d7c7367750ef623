/**
  A condition on the accumulated points under which re-keying loses no horizontal line
  (lib/calibration/pointgrid.cpp:131-151): the constructing points are in columns, any two of
  them at the same x or more than MAX_DIFF apart.
 */
module HorizontalLines {
  import opened Common
  import opened OrderedMap
  import opened PointLines
  import opened PointSweep
  import opened PointGridSpec
  import opened LineGroups

  ghost predicate Apart(ops: seq<Op>, c: Coordinate) {
    forall i, j :: 0 <= i < |ops| && 0 <= j < |ops| ==>
      At(ops[i].point, c) == At(ops[j].point, c) || Abs(At(ops[i].point, c) - At(ops[j].point, c)) > MAX_DIFF
  }

  ghost predicate AddedAt(ops: seq<Op>, x: real, c: Coordinate) {
    exists j :: 0 <= j < |ops| && At(ops[j].point, c) == x
  }

  /** Every line starts at its key, and the keys are coordinates of added points. */
  ghost predicate InColumns(m: Slots, ops: seq<Op>, c: Coordinate) {
    AllFlat(m, c) && forall i :: 0 <= i < |m| ==> AddedAt(ops, m[i].key, c)
  }

  lemma {:induction false} ColumnStep(m: Slots, op: Op, c: Coordinate)
    requires Sorted(m) && m != [] && AllFlat(m, c) && op.construct
    requires forall i :: 0 <= i < |m| ==> m[i].key == At(op.point, c) || Abs(m[i].key - At(op.point, c)) > MAX_DIFF
    ensures AllFlat(Step(m, op, c), c)
    ensures forall i :: 0 <= i < |Step(m, op, c)| ==> Step(m, op, c)[i].key == At(op.point, c) || HasKey(m, Step(m, op, c)[i].key)
  {
    hide Step;
    var x := At(op.point, c);
    if n :| 0 <= n < |m| && m[n].key == x {
      JoinAtKey(m, op, c, n);
    } else {
      var n := LowerBound(m, x);
      OpenStep(m, op, c, n);
      var m' := Step(m, op, c);
      forall i | 0 <= i < |m'|
        ensures m'[i].value != [] && FrontAt(m'[i], c) == m'[i].key && (m'[i].key == x || HasKey(m, m'[i].key))
      {
        assert m'[i] == if i < n then m[i] else if i == n then Slot(x, [op.point]) else m[i - 1];
      }
    }
  }

  lemma {:induction false} ColumnsRun(ops: seq<Op>, c: Coordinate)
    requires ops != [] && Apart(ops, c) && forall i :: 0 <= i < |ops| ==> ops[i].construct
    ensures Startable([], ops) && InColumns(Run([], ops, c), ops, c)
  {
    hide Run, Step, Sorted, Apart, AddedAt;
    var n := |ops| - 1;
    if n == 0 {
      assert ops == [ops[0]];
      FirstPoint(ops[0], c);
      LatestKey(ops, c);
    } else {
      var front := ops[..n];
      FewerApart(ops, n, c);
      ColumnsRun(front, c);
      assert ops == front + [ops[n]];
      RunAppend([], front, ops[n], c);
      var m, m' := Run([], front, c), Run([], ops, c);
      forall i | 0 <= i < |m|
        ensures m[i].key == At(ops[n].point, c) || Abs(m[i].key - At(ops[n].point, c)) > MAX_DIFF
        ensures AddedAt(ops, m[i].key, c)
      {
        EarlierKey(ops, n, m[i].key, c);
      }
      ColumnStep(m, ops[n], c);
      LatestKey(ops, c);
      hide AllFlat;
      forall i | 0 <= i < |m'|
        ensures AddedAt(ops, m'[i].key, c)
      {
      }
    }
  }

  lemma {:induction false} EarlierKey(ops: seq<Op>, n: nat, x: real, c: Coordinate)
    requires n < |ops| && Apart(ops, c) && AddedAt(ops[..n], x, c)
    ensures AddedAt(ops, x, c) && (x == At(ops[n].point, c) || Abs(x - At(ops[n].point, c)) > MAX_DIFF)
  {
    var j :| 0 <= j < n && At(ops[..n][j].point, c) == x;
    assert At(ops[j].point, c) == x;
  }

  lemma {:induction false} LatestKey(ops: seq<Op>, c: Coordinate)
    requires ops != []
    ensures AddedAt(ops, At(ops[|ops| - 1].point, c), c)
  {
  }

  lemma {:induction false} FewerApart(ops: seq<Op>, n: nat, c: Coordinate)
    requires n <= |ops| && Apart(ops, c)
    ensures Apart(ops[..n], c)
  {
  }

  /** Additions that construct nothing leave the fronts alone, so re-keying keeps all lines. */
  lemma {:induction false} FlatKeepsAll(m: Slots, ops: seq<Op>, c: Coordinate)
    requires Sorted(m) && m != [] && AllFlat(m, c) && forall i :: 0 <= i < |ops| ==> !ops[i].construct
    ensures NonEmptyLines(Run(m, ops, c)) && |Rekeyed(Run(m, ops, c), c)| == |Run(m, ops, c)|
  {
    hide Run, RekeyedTo;
    AddsKeepLines(m, ops, c);
    var m' := Run(m, ops, c);
    assert forall i :: 0 <= i < |m| ==> m'[i].value != [] && m'[i].value[0] == m[i].value[0];
    RekeyKeepsAllIff(m', c, |m'|);
  }

  /** The constructing points of an accumulator. */
  ghost predicate ColumnsOf(acc: seq<Point>)
    requires acc != []
  {
    forall i, j :: |acc| / 3 <= i < ConstructEnd(acc, |acc| / 3) && |acc| / 3 <= j < ConstructEnd(acc, |acc| / 3) ==>
      acc[i].x == acc[j].x || Abs(acc[i].x - acc[j].x) > MAX_DIFF
  }

  /** Constructing points in columns: no horizontal line is lost. */
  lemma {:induction false} ColumnsKeepLines(acc: seq<Point>)
    requires acc != [] && ColumnsOf(acc)
    ensures Startable([], HorizontalForward(acc)) && NonEmptyLines(Run([], HorizontalForward(acc), X))
    ensures |Rekeyed(Run([], HorizontalForward(acc), X), X)| == |Run([], HorizontalForward(acc), X)|
  {
    hide Run, RekeyedTo, ConstructEnd;
    var start := |acc| / 3;
    var n := ConstructEnd(acc, start) - start;
    var ops := HorizontalForward(acc);
    var first, rest := ops[..n], ops[n..];
    assert acc[start].y < acc[start].y + CONSTRUCT_LIM;
    assert n > 0;
    assert forall i :: 0 <= i < n ==> first[i] == Op(acc[start + i], true);
    ColumnsRun(first, X);
    assert ops == first + rest;
    RunSplit([], first, rest, X);
    FlatKeepsAll(Run([], first, X), rest, X);
  }
}
