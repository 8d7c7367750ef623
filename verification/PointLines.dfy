/**
  Sorting points into lines by one coordinate (lib/calibration/pointgrid.cpp, `mapAdd`,
  `mapAddConstruct` and the re-keying between the sweeps).

  A line map is an ordered map whose key is where the line was last seen.  `Run` applies any
  sequence of the two kinds of additions to a map.
 */
module PointLines {
  import opened Common
  import opened OrderedMap

  const MAX_DIFF := 3.0

  class Point {
    const x: real
    const y: real
    var horizontalLine: nat
    var verticalLine: nat

    constructor (x: real, y: real, horizontalLine: nat := 0, verticalLine: nat := 0)
      ensures this.x == x && this.y == y
      ensures this.horizontalLine == horizontalLine && this.verticalLine == verticalLine
    {
      this.x, this.y := x, y;
      this.horizontalLine, this.verticalLine := horizontalLine, verticalLine;
    }
  }

  datatype Coordinate = X | Y

  function At(p: Point, c: Coordinate): real {
    if c.X? then p.x else p.y
  }

  type Slots = seq<Slot<seq<Point>>>

  // ---------------------------------------------------------------- one addition

  /** Append the point to the line that is stored under the key. */
  function PushBack(m: Slots, key: real, p: Point): Slots
    requires Sorted(m)
  {
    var n := LowerBound(m, key);
    if n < |m| && m[n].key == key then m[n := Slot(key, m[n].value + [p])] else m
  }

  /** `mapAddConstruct`: join the nearest line, or open a new one if that is too far away. */
  function AddedConstruct(m: Slots, p: Point, c: Coordinate): Slots
    requires Sorted(m)
  {
    var pos := At(p, c);
    if m == [] then [Slot(pos, [p])]
    else
      var n := Nearest(m, pos);
      if Abs(m[n].key - pos) > MAX_DIFF then PushBack(Emplace(m, pos, []), pos, p)
      else PushBack(Emplace(Erase(m, n), pos, m[n].value), pos, p)
  }

  /** `mapAdd`: join the nearest line if that is close enough. */
  function Added(m: Slots, p: Point, c: Coordinate): Slots
    requires Sorted(m) && m != []
  {
    var pos := At(p, c);
    var n := Nearest(m, pos);
    if Abs(m[n].key - pos) < MAX_DIFF then PushBack(Emplace(Erase(m, n), pos, m[n].value), pos, p)
    else m
  }

  datatype Op = Op(point: Point, construct: bool)

  function Step(m: Slots, op: Op, c: Coordinate): Slots
    requires Sorted(m) && (m == [] ==> op.construct)
  {
    if op.construct then AddedConstruct(m, op.point, c) else Added(m, op.point, c)
  }

  /** What an addition does: nothing, a new line, or one more point in a line, which takes over its key. */
  datatype Outcome = Skips | Opens(at: nat) | Joins(at: nat)

  ghost predicate ValidOutcome(m: Slots, o: Outcome) {
    match o
    case Skips => true
    case Opens(n) => n <= |m|
    case Joins(n) => n < |m|
  }

  ghost function Applied(m: Slots, o: Outcome, p: Point, c: Coordinate): Slots
    requires ValidOutcome(m, o)
  {
    match o
    case Skips => m
    case Opens(n) => m[..n] + [Slot(At(p, c), [p])] + m[n..]
    case Joins(n) => m[n := Slot(At(p, c), m[n].value + [p])]
  }

  ghost function StepOutcome(m: Slots, op: Op, c: Coordinate): (o: Outcome)
    requires Sorted(m) && (m == [] ==> op.construct)
    ensures ValidOutcome(m, o)
  {
    var pos := At(op.point, c);
    if m == [] then Opens(0)
    else
      var n := Nearest(m, pos);
      var d := Abs(m[n].key - pos);
      if op.construct then (if d > MAX_DIFF then Opens(LowerBound(m, pos)) else Joins(n))
      else if d < MAX_DIFF then Joins(n) else Skips
  }

  lemma PushBackAt(m: Slots, n: nat, p: Point)
    requires Sorted(m) && n < |m|
    ensures PushBack(m, m[n].key, p) == m[n := Slot(m[n].key, m[n].value + [p])]
  {
    LowerBoundIs(m, m[n].key, n);
  }

  lemma JoinInPlace(m: Slots, p: Point, pos: real)
    requires Sorted(m) && m != []
    ensures var n := Nearest(m, pos);
            && PushBack(Emplace(Erase(m, n), pos, m[n].value), pos, p) == m[n := Slot(pos, m[n].value + [p])]
            && Sorted(m[n := Slot(pos, m[n].value + [p])])
  {
    hide PushBack, Emplace, Erase;
    var n := Nearest(m, pos);
    RekeyInPlace(m, pos, pos, m[n].value);
    PushBackAt(m[n := Slot(pos, m[n].value)], n, p);
    RekeyInPlace(m, pos, pos, m[n].value + [p]);
  }

  lemma OpenInPlace(m: Slots, p: Point, pos: real)
    requires Sorted(m) && !HasKey(m, pos)
    ensures var n := LowerBound(m, pos);
            && PushBack(Emplace(m, pos, []), pos, p) == m[..n] + [Slot(pos, [p])] + m[n..]
            && Sorted(m[..n] + [Slot(pos, [p])] + m[n..])
  {
    hide PushBack, LowerBound, Emplace;
    var n := LowerBound(m, pos);
    EmplaceNew(m, pos, []);
    var withLine := m[..n] + [Slot(pos, [])] + m[n..];
    PushBackAt(withLine, n, p);
    assert [] + [p] == [p];
    assert withLine[n := Slot(pos, [p])] == m[..n] + [Slot(pos, [p])] + m[n..];
    EmplaceNew(m, pos, [p]);
  }

  /** Neither addition ever drops or reorders a line, and a new key never hits an existing one. */
  lemma StepShape(m: Slots, op: Op, c: Coordinate)
    requires Sorted(m) && (m == [] ==> op.construct)
    ensures Step(m, op, c) == Applied(m, StepOutcome(m, op, c), op.point, c)
    ensures Sorted(Step(m, op, c)) && Step(m, op, c) != []
  {
    hide PushBack, Emplace, Erase, LowerBound, Sorted;
    var pos := At(op.point, c);
    if m != [] {
      NearestIsGlobal(m, pos, Nearest(m, pos));
      JoinInPlace(m, op.point, pos);
      if Abs(m[Nearest(m, pos)].key - pos) > MAX_DIFF {
        OpenInPlace(m, op.point, pos);
      }
    } else {
      assert Step(m, op, c) == [Slot(pos, [op.point])];
      SingleSorted(Slot(pos, [op.point]));
    }
  }

  lemma SingleSorted(s: Slot<seq<Point>>)
    ensures Sorted([s])
  {
  }

  /**
    How far lines reach: a constructing addition opens a line exactly when all lines are more
    than 3 away, and any other addition is skipped exactly when all are at least 3 away.
   */
  lemma {:induction false} ReachIff(m: Slots, op: Op, c: Coordinate)
    requires Sorted(m) && m != []
    ensures op.construct ==>
              (|Step(m, op, c)| > |m| <==> forall i :: 0 <= i < |m| ==> Abs(m[i].key - At(op.point, c)) > 3.0)
    ensures !op.construct ==>
              (Step(m, op, c) == m <==> forall i :: 0 <= i < |m| ==> Abs(m[i].key - At(op.point, c)) >= 3.0)
  {
    hide Step;
    var pos := At(op.point, c);
    var n := Nearest(m, pos);
    StepShape(m, op, c);
    NearestIsGlobal(m, pos, n);
    assert forall i :: 0 <= i < |m| ==> Abs(m[n].key - pos) <= Abs(m[i].key - pos);
    if StepOutcome(m, op, c).Joins? {
      assert |Step(m, op, c)[n].value| == |m[n].value| + 1;
    }
  }

  // ---------------------------------------------------------------- whole runs

  /** `mapAdd` looks at a nearest line, so the first addition to an empty map must construct. */
  ghost predicate Startable(m: Slots, ops: seq<Op>) {
    Sorted(m) && (m == [] && ops != [] ==> ops[0].construct)
  }

  function Run(m: Slots, ops: seq<Op>, c: Coordinate): (r: Slots)
    requires Startable(m, ops)
    ensures Sorted(r)
    ensures m != [] || ops != [] ==> r != []
    ensures ops == [] ==> r == m
  {
    if ops == [] then m
    else
      var before := Run(m, ops[..|ops| - 1], c);
      var op := ops[|ops| - 1];
      StepShape(before, op, c);
      Step(before, op, c)
  }

  /** The last step of a run, as an update of the map before it. */
  lemma RunStep(m: Slots, ops: seq<Op>, c: Coordinate)
    requires Startable(m, ops) && ops != []
    ensures var before, op := Run(m, ops[..|ops| - 1], c), ops[|ops| - 1];
            Run(m, ops, c) == Applied(before, StepOutcome(before, op, c), op.point, c)
  {
    hide Step, StepOutcome, Applied, Sorted;
    StepShape(Run(m, ops[..|ops| - 1], c), ops[|ops| - 1], c);
  }

  lemma RunAppend(m: Slots, ops: seq<Op>, op: Op, c: Coordinate)
    requires Startable(m, ops + [op])
    ensures Startable(m, ops) && (Run(m, ops, c) == [] ==> op.construct)
    ensures Run(m, ops + [op], c) == Step(Run(m, ops, c), op, c)
  {
    hide Step, Sorted;
    assert (ops + [op])[..|ops|] == ops;
    if ops != [] {
      assert (ops + [op])[0] == ops[0];
    }
  }

  ghost predicate Holds(m: Slots, i: int, older p: Point) {
    0 <= i < |m| && p in m[i].value
  }

  /** Where a point of the new map was before. */
  lemma AppliedHolds(m: Slots, o: Outcome, q: Point, c: Coordinate, i: int, p: Point)
    requires ValidOutcome(m, o) && Holds(Applied(m, o, q, c), i, p)
    ensures if !o.Skips? && i == o.at && p == q then true
            else if o.Opens? && o.at < i then Holds(m, i - 1, p)
            else Holds(m, i, p) && (o.Opens? ==> i < o.at)
  {
  }

  /** Every point in the map was there at the start or was added. */
  lemma {:induction false} RunHoldsOnlyAdded(m: Slots, ops: seq<Op>, c: Coordinate, i: int, p: Point)
    requires Startable(m, ops) && Holds(Run(m, ops, c), i, p)
    ensures (exists j :: Holds(m, j, p)) || (exists k :: 0 <= k < |ops| && ops[k].point == p)
  {
    if ops != [] {
      hide Run, Applied, StepOutcome, Sorted;
      var before, op := Run(m, ops[..|ops| - 1], c), ops[|ops| - 1];
      RunStep(m, ops, c);
      AppliedHolds(before, StepOutcome(before, op, c), op.point, c, i, p);
      if p != op.point {
        var j :| Holds(before, j, p);
        RunHoldsOnlyAdded(m, ops[..|ops| - 1], c, j, p);
      }
    }
  }

  ghost predicate InOneLine(m: Slots, p: Point) {
    forall i, j :: Holds(m, i, p) && Holds(m, j, p) ==> i == j
  }

  /** A point that is added at most once, and is not there yet, is in at most one line. */
  lemma AppliedInOneLine(m: Slots, o: Outcome, q: Point, c: Coordinate, p: Point)
    requires ValidOutcome(m, o) && InOneLine(m, p)
    requires p == q ==> forall i :: !Holds(m, i, p)
    ensures InOneLine(Applied(m, o, q, c), p)
  {
    var m' := Applied(m, o, q, c);
    hide Applied, Holds;
    forall i, j | Holds(m', i, p) && Holds(m', j, p)
      ensures i == j
    {
      AppliedHolds(m, o, q, c, i, p);
      AppliedHolds(m, o, q, c, j, p);
    }
  }

  ghost predicate OnceIn(ops: seq<Op>, p: Point) {
    forall i, j :: 0 <= i < j < |ops| ==> !(ops[i].point == p && ops[j].point == p)
  }

  ghost predicate NeverIn(ops: seq<Op>, p: Point) {
    forall i :: 0 <= i < |ops| ==> ops[i].point != p
  }

  lemma {:induction false} RunInOneLine(m: Slots, ops: seq<Op>, c: Coordinate, p: Point)
    requires Startable(m, ops) && InOneLine(m, p) && OnceIn(ops, p)
    requires NeverIn(ops, p) || forall i :: !Holds(m, i, p)
    ensures InOneLine(Run(m, ops, c), p)
  {
    if ops != [] {
      hide Run, Applied, StepOutcome, Sorted, InOneLine, Holds;
      var prefix, op := ops[..|ops| - 1], ops[|ops| - 1];
      var before := Run(m, prefix, c);
      RunInOneLine(m, prefix, c, p);
      RunStep(m, ops, c);
      if op.point == p {
        forall i
          ensures !Holds(before, i, p)
        {
          if Holds(before, i, p) {
            RunHoldsOnlyAdded(m, prefix, c, i, p);
          }
        }
      }
      AppliedInOneLine(before, StepOutcome(before, op, c), op.point, c, p);
    }
  }
}
