/**
  Sweeps over points in columns: any two of them at the same coordinate or more than 3 apart.
  There is then one line per coordinate of a constructing point, and it holds exactly the
  points at that coordinate (lib/calibration/pointgrid.cpp:131-157, 184-209).
 */
module ColumnSweep {
  import opened Common
  import opened OrderedMap
  import opened PointLines
  import opened PointSweep
  import opened LineGroups
  import opened HorizontalLines

  ghost predicate InOps(ops: seq<Op>, older p: Point) {
    exists i :: 0 <= i < |ops| && ops[i].point == p
  }

  /** The lines are the coordinates of `built`; each holds exactly the points of `done` at its coordinate. */
  ghost predicate Exact(m: Slots, done: seq<Op>, built: seq<Op>, c: Coordinate) {
    && Sorted(m) && AllFlat(m, c)
    && (forall i, p :: Holds(m, i, p) ==> At(p, c) == m[i].key && InOps(done, p))
    && (forall i, p :: InOps(done, p) && 0 <= i < |m| && At(p, c) == m[i].key ==> Holds(m, i, p))
    && (forall x :: HasKey(m, x) <==> AddedAt(built, x, c))
  }

  /** The addition is at a key, or out of reach of all keys. */
  ghost predicate AtOrFar(m: Slots, op: Op, c: Coordinate) {
    forall i :: 0 <= i < |m| ==> m[i].key == At(op.point, c) || Abs(m[i].key - At(op.point, c)) > 3.0
  }

  lemma {:induction false} InMore(ops: seq<Op>, op: Op, p: Point, x: real, c: Coordinate)
    ensures InOps(ops + [op], p) <==> InOps(ops, p) || op.point == p
    ensures AddedAt(ops + [op], x, c) <==> AddedAt(ops, x, c) || At(op.point, c) == x
  {
    var more := ops + [op];
    assert more[|ops|] == op;
    assert forall i :: 0 <= i < |ops| ==> more[i] == ops[i];
  }

  /** Joining the line at the coordinate of the point. */
  lemma {:induction false} JoinExact(m: Slots, done: seq<Op>, built: seq<Op>, op: Op, c: Coordinate, n: nat)
    requires Exact(m, done, built, c) && n < |m| && m[n].key == At(op.point, c)
    ensures Exact(m[n := Slot(m[n].key, m[n].value + [op.point])], done + [op], built, c)
  {
    var m' := m[n := Slot(m[n].key, m[n].value + [op.point])];
    hide HasKey, InOps, AddedAt;
    forall i, p
      ensures Holds(m', i, p) <==> 0 <= i < |m'| && At(p, c) == m'[i].key && InOps(done + [op], p)
    {
      InMore(done, op, p, 0.0, c);
      assert Holds(m', i, p) <==> Holds(m, i, p) || (i == n && p == op.point);
      assert 0 <= i < |m| ==> (m[i].key == m[n].key <==> i == n);
    }
    forall x
      ensures HasKey(m', x) <==> HasKey(m, x)
    {
      SameKeys(m, m', x);
    }
  }

  lemma {:induction false} SameKeys(m: Slots, m': Slots, x: real)
    requires |m'| == |m| && forall i :: 0 <= i < |m| ==> m'[i].key == m[i].key
    ensures HasKey(m', x) <==> HasKey(m, x)
  {
  }

  /** Opening a line at a coordinate out of reach. */
  lemma {:induction false} OpenExact(m: Slots, done: seq<Op>, op: Op, c: Coordinate, n: nat)
    requires Exact(m, done, done, c) && n <= |m| && !HasKey(m, At(op.point, c))
    requires Sorted(m[..n] + [Slot(At(op.point, c), [op.point])] + m[n..])
    ensures Exact(m[..n] + [Slot(At(op.point, c), [op.point])] + m[n..], done + [op], done + [op], c)
  {
    var x, s := At(op.point, c), Slot(At(op.point, c), [op.point]);
    var m' := m[..n] + [s] + m[n..];
    forall i | 0 <= i < |m'|
      ensures m'[i] == if i < n then m[i] else if i == n then s else m[i - 1]
    {
    }
    forall i, p
      ensures Holds(m', i, p) <==> 0 <= i < |m'| && At(p, c) == m'[i].key && InOps(done + [op], p)
    {
      InMore(done, op, p, x, c);
      OpenHolds(m, done, op, c, n, i, p);
    }
    forall y
      ensures HasKey(m', y) <==> AddedAt(done + [op], y, c)
    {
      InMore(done, op, op.point, y, c);
      OpenKeys(m, n, s, y);
    }
  }

  lemma {:induction false} OpenKeys(m: Slots, n: nat, s: Slot<seq<Point>>, y: real)
    requires n <= |m|
    ensures HasKey(m[..n] + [s] + m[n..], y) <==> HasKey(m, y) || s.key == y
  {
    var m' := m[..n] + [s] + m[n..];
    assert m'[n] == s;
    if i :| 0 <= i < |m| && m[i].key == y {
      assert m'[if i < n then i else i + 1] == m[i];
    }
    if i :| 0 <= i < |m'| && m'[i].key == y && i != n {
      assert m'[i] == m[if i < n then i else i - 1];
    }
  }

  lemma {:induction false} OpenHolds(m: Slots, done: seq<Op>, op: Op, c: Coordinate, n: nat, i: int, p: Point)
    requires Exact(m, done, done, c) && n <= |m| && !HasKey(m, At(op.point, c))
    requires InOps(done + [op], p) <==> InOps(done, p) || op.point == p
    ensures var m' := m[..n] + [Slot(At(op.point, c), [op.point])] + m[n..];
            Holds(m', i, p) <==> 0 <= i < |m'| && At(p, c) == m'[i].key && InOps(done + [op], p)
  {
    hide Sorted, AllFlat;
    var x := At(op.point, c);
    var m' := m[..n] + [Slot(x, [op.point])] + m[n..];
    if 0 <= i < |m'| && i != n {
      var j := if i < n then i else i - 1;
      assert m'[i] == m[j];
      assert HasKey(m, m[j].key);
      assert Holds(m, j, p) <==> At(p, c) == m[j].key && InOps(done, p);
    } else if i == n {
      assert m'[i] == Slot(x, [op.point]);
      if InOps(done, p) {
        PointsAdd(done, p, c);
      }
    }
  }

  lemma {:induction false} PointsAdd(ops: seq<Op>, p: Point, c: Coordinate)
    requires InOps(ops, p)
    ensures AddedAt(ops, At(p, c), c)
  {
  }

  /** One addition to lines in columns. */
  lemma {:induction false} ExactStep(m: Slots, done: seq<Op>, built: seq<Op>, op: Op, c: Coordinate)
    requires Exact(m, done, built, c) && m != [] && AtOrFar(m, op, c) && (op.construct ==> done == built)
    ensures Exact(Step(m, op, c), done + [op], if op.construct then done + [op] else built, c)
  {
    hide Step, Exact;
    assert Sorted(m) by { ExactSorted(m, done, built, c); }
    var x := At(op.point, c);
    if n :| 0 <= n < |m| && m[n].key == x {
      JoinAtKey(m, op, c, n);
      JoinExact(m, done, built, op, c, n);
      if op.construct {
        KnownKey(m[n := Slot(m[n].key, m[n].value + [op.point])], done + [op], built, op, c, n);
      }
    } else if op.construct {
      var n := LowerBound(m, x);
      OpenStep(m, op, c, n);
      StepShape(m, op, c);
      OpenExact(m, done, op, c, n);
    } else {
      SkipStep(m, op, c);
      SkipExact(m, done, built, op, c);
    }
  }

  lemma {:induction false} ExactSorted(m: Slots, done: seq<Op>, built: seq<Op>, c: Coordinate)
    requires Exact(m, done, built, c)
    ensures Sorted(m) && AllFlat(m, c)
  {
  }

  /** A construction at a known coordinate adds no key. */
  lemma {:induction false} KnownKey(m: Slots, done: seq<Op>, built: seq<Op>, op: Op, c: Coordinate, n: nat)
    requires Exact(m, done, built, c) && n < |m| && m[n].key == At(op.point, c)
    ensures Exact(m, done, built + [op], c)
  {
    hide InOps, AddedAt, Sorted, AllFlat, Holds;
    assert HasKey(m, At(op.point, c));
    forall x
      ensures HasKey(m, x) <==> AddedAt(built + [op], x, c)
    {
      InMore(built, op, op.point, x, c);
    }
  }

  /** A point at no line's coordinate is in no line. */
  lemma {:induction false} SkipExact(m: Slots, done: seq<Op>, built: seq<Op>, op: Op, c: Coordinate)
    requires Exact(m, done, built, c) && forall i :: 0 <= i < |m| ==> m[i].key != At(op.point, c)
    ensures Exact(m, done + [op], built, c)
  {
    hide InOps, AddedAt, Sorted, AllFlat, HasKey;
    forall i, p | Holds(m, i, p)
      ensures InOps(done + [op], p)
    {
      InMore(done, op, p, 0.0, c);
    }
    forall i, p | InOps(done + [op], p) && 0 <= i < |m| && At(p, c) == m[i].key
      ensures Holds(m, i, p)
    {
      InMore(done, op, p, 0.0, c);
    }
  }

  ghost predicate AllConstruct(ops: seq<Op>) {
    forall i :: 0 <= i < |ops| ==> ops[i].construct
  }

  ghost predicate NoneConstructs(ops: seq<Op>) {
    forall i :: 0 <= i < |ops| ==> !ops[i].construct
  }

  /** Any two additions are at the same coordinate or more than 3 apart. */
  ghost predicate Columnar(ops: seq<Op>, c: Coordinate) {
    forall i, j :: 0 <= i < |ops| && 0 <= j < |ops| ==>
      At(ops[i].point, c) == At(ops[j].point, c) || Abs(At(ops[i].point, c) - At(ops[j].point, c)) > 3.0
  }

  lemma {:induction false} FewerColumnar(ops: seq<Op>, n: nat, c: Coordinate)
    requires n <= |ops| && Columnar(ops, c)
    ensures Columnar(ops[..n], c)
  {
  }

  lemma {:induction false} KeysFar(m: Slots, done: seq<Op>, built: seq<Op>, op: Op, c: Coordinate)
    requires Exact(m, done, built, c) && Columnar(done + [op], c) && forall i :: 0 <= i < |built| ==> built[i] in done
    ensures AtOrFar(m, op, c)
  {
    hide Sorted, AllFlat, Holds;
    var all := done + [op];
    forall i | 0 <= i < |m|
      ensures m[i].key == At(op.point, c) || Abs(m[i].key - At(op.point, c)) > 3.0
    {
      assert HasKey(m, m[i].key);
      var j :| 0 <= j < |built| && At(built[j].point, c) == m[i].key;
      var k :| 0 <= k < |done| && done[k] == built[j];
      assert all[k] == built[j] && all[|done|] == op;
    }
  }

  lemma {:induction false} OneExact(op: Op, c: Coordinate)
    ensures Exact([Slot(At(op.point, c), [op.point])], [op], [op], c)
  {
    var m := [Slot(At(op.point, c), [op.point])];
    assert [op][0] == op;
    forall x
      ensures HasKey(m, x) <==> AddedAt([op], x, c)
    {
      assert m[0].key == At([op][0].point, c);
      assert HasKey(m, x) <==> x == m[0].key;
      assert AddedAt([op], x, c) <==> x == At([op][0].point, c);
    }
  }

  lemma {:induction false} BuildExact(ops: seq<Op>, c: Coordinate)
    requires ops != [] && AllConstruct(ops) && Columnar(ops, c)
    ensures Startable([], ops) && Exact(Run([], ops, c), ops, ops, c)
  {
    hide Run, Step, Exact, Sorted, Columnar;
    var n := |ops| - 1;
    if n == 0 {
      assert ops == [ops[0]];
      FirstPoint(ops[0], c);
      OneExact(ops[0], c);
    } else {
      var front := ops[..n];
      FewerColumnar(ops, n, c);
      BuildExact(front, c);
      assert ops == front + [ops[n]];
      RunAppend([], front, ops[n], c);
      KeysFar(Run([], front, c), front, front, ops[n], c);
      ExactStep(Run([], front, c), front, front, ops[n], c);
    }
  }

  lemma {:induction false} AddExact(m: Slots, done: seq<Op>, built: seq<Op>, ops: seq<Op>, c: Coordinate)
    requires Exact(m, done, built, c) && m != [] && NoneConstructs(ops) && Columnar(done + ops, c)
    requires forall i :: 0 <= i < |built| ==> built[i] in done
    ensures Startable(m, ops) && Exact(Run(m, ops, c), done + ops, built, c)
  {
    hide Run, Step, Exact, Sorted, Columnar;
    assert Sorted(m) by { ExactSorted(m, done, built, c); }
    if ops == [] {
      assert done + ops == done;
    } else {
      var n := |ops| - 1;
      var front := ops[..n];
      assert done + ops == done + front + [ops[n]];
      assert (done + ops)[..|done| + n] == done + front;
      FewerColumnar(done + ops, |done| + n, c);
      AddExact(m, done, built, front, c);
      assert ops == front + [ops[n]];
      RunAppend(m, front, ops[n], c);
      KeysFar(Run(m, front, c), done + front, built, ops[n], c);
      ExactStep(Run(m, front, c), done + front, built, ops[n], c);
    }
  }

  lemma {:induction false} RekeyedExact(m: Slots, done: seq<Op>, built: seq<Op>, c: Coordinate)
    requires Exact(m, done, built, c)
    ensures NonEmptyLines(m) && Rekeyed(m, c) == m
  {
    hide RekeyedTo;
    RekeyedInOrder(m, c, |m|);
  }

  /**
    A whole sweep over columns whose constructing additions come first: one line per
    coordinate of a constructing addition, holding exactly the points at that coordinate.
   */
  lemma {:induction false} SweptExact(built: seq<Op>, added: seq<Op>, backward: seq<Op>, c: Coordinate)
    requires built != [] && AllConstruct(built) && NoneConstructs(added) && NoneConstructs(backward)
    requires Columnar(built + added + backward, c)
    ensures ValidSweep(built + added)
    ensures Exact(Swept(built + added, backward, c), built + added + backward, built, c)
  {
    hide Run, RekeyedTo, Exact, Sorted, Columnar;
    var forward := built + added;
    assert (forward + backward)[..|built|] == built && (forward + backward)[..|forward|] == forward;
    FewerColumnar(forward + backward, |built|, c);
    FewerColumnar(forward + backward, |forward|, c);
    BuildExact(built, c);
    AddExact(Run([], built, c), built, built, added, c);
    RunSplit([], built, added, c);
    ForwardGood(forward, c);
    var m := Run([], forward, c);
    RekeyedExact(m, forward, built, c);
    AddExact(m, forward, built, backward, c);
  }
}
