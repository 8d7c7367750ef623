/**
  A sweep over the points: additions away from the seed, re-keying of every line to its first
  point, then additions back over the seed (lib/calibration/pointgrid.cpp:129-157, 183-209).
 */
module PointSweep {
  import opened Common
  import opened OrderedMap
  import opened PointLines

  // ---------------------------------------------------------------- the lines of a map

  ghost predicate Near(p: Point, q: Point, c: Coordinate) {
    Abs(At(p, c) - At(q, c)) <= MAX_DIFF
  }

  ghost predicate NearEarlier(line: seq<Point>, i: nat, c: Coordinate)
    requires i < |line|
  {
    exists j :: 0 <= j < i && Near(line[i], line[j], c)
  }

  /** Every point but the first has an earlier point of the same line within MAX_DIFF. */
  ghost predicate Chained(line: seq<Point>, c: Coordinate) {
    forall i :: 0 < i < |line| ==> NearEarlier(line, i, c)
  }

  ghost predicate KeyedByLast(s: Slot<seq<Point>>, c: Coordinate) {
    s.value != [] && s.key == At(s.value[|s.value| - 1], c)
  }

  ghost predicate KeyedByFirst(s: Slot<seq<Point>>, c: Coordinate) {
    s.value != [] && s.key == At(s.value[0], c)
  }

  ghost predicate GoodLine(s: Slot<seq<Point>>, c: Coordinate) {
    Chained(s.value, c) && (KeyedByLast(s, c) || KeyedByFirst(s, c))
  }

  ghost predicate GoodLines(m: Slots, c: Coordinate) {
    forall i :: 0 <= i < |m| ==> GoodLine(m[i], c)
  }

  ghost predicate AllKeyedByLast(m: Slots, c: Coordinate) {
    forall i :: 0 <= i < |m| ==> KeyedByLast(m[i], c)
  }

  lemma ChainGrows(s: Slot<seq<Point>>, p: Point, c: Coordinate)
    requires GoodLine(s, c) && Abs(s.key - At(p, c)) <= MAX_DIFF
    ensures Chained(s.value + [p], c)
  {
    var line := s.value + [p];
    forall i | 0 < i < |line|
      ensures NearEarlier(line, i, c)
    {
      if i < |s.value| {
        assert NearEarlier(s.value, i, c);
        var j :| 0 <= j < i && Near(s.value[i], s.value[j], c);
        assert line[j] == s.value[j];
      } else {
        var j := if KeyedByLast(s, c) then i - 1 else 0;
        assert Near(line[i], line[j], c);
      }
    }
  }

  lemma StepGood(m: Slots, op: Op, c: Coordinate)
    requires Sorted(m) && (m == [] ==> op.construct) && GoodLines(m, c)
    ensures var m' := Applied(m, StepOutcome(m, op, c), op.point, c);
            GoodLines(m', c) && (AllKeyedByLast(m, c) ==> AllKeyedByLast(m', c))
  {
    hide Sorted, LowerBound, Nearest, Chained;
    var o := StepOutcome(m, op, c);
    if o.Joins? {
      ChainGrows(m[o.at], op.point, c);
    }
    SingleChained(op.point, c);
  }

  lemma SingleChained(p: Point, c: Coordinate)
    ensures Chained([p], c)
  {
  }

  /**
    Over any sequence of additions every line stays non-empty and chained, with a key that is
    the coordinate of its latest point (or still of its first, if it started that way).
   */
  lemma {:induction false} RunKeepsGoodLines(m: Slots, ops: seq<Op>, c: Coordinate)
    requires Startable(m, ops) && GoodLines(m, c)
    ensures GoodLines(Run(m, ops, c), c)
    ensures AllKeyedByLast(m, c) ==> AllKeyedByLast(Run(m, ops, c), c)
  {
    if ops != [] {
      hide Run, Applied, StepOutcome, Sorted, GoodLines, AllKeyedByLast;
      RunKeepsGoodLines(m, ops[..|ops| - 1], c);
      RunStep(m, ops, c);
      StepGood(Run(m, ops[..|ops| - 1], c), ops[|ops| - 1], c);
    }
  }

  /** In a chained line every point is linked to the first by steps of at most MAX_DIFF. */
  lemma {:induction false} ChainReachesFirst(line: seq<Point>, c: Coordinate, i: nat) returns (path: seq<nat>)
    requires Chained(line, c) && i < |line|
    ensures path != [] && path[0] == i && path[|path| - 1] == 0
    ensures forall k :: 0 <= k < |path| ==> path[k] < |line|
    ensures forall k :: 0 <= k < |path| - 1 ==> Near(line[path[k]], line[path[k + 1]], c)
  {
    if i == 0 {
      path := [0];
    } else {
      assert NearEarlier(line, i, c);
      var j :| 0 <= j < i && Near(line[i], line[j], c);
      var rest := ChainReachesFirst(line, c, j);
      path := [i] + rest;
    }
  }

  /** `mapAdd` alone keeps the number and the order of the lines and only extends them. */
  lemma {:induction false} AddsKeepLines(m: Slots, ops: seq<Op>, c: Coordinate)
    requires Startable(m, ops) && forall k :: 0 <= k < |ops| ==> !ops[k].construct
    ensures var m' := Run(m, ops, c);
            |m'| == |m| && forall i :: 0 <= i < |m| ==> m[i].value <= m'[i].value
  {
    if ops != [] {
      hide Run, Sorted, LowerBound, Nearest;
      AddsKeepLines(m, ops[..|ops| - 1], c);
      RunStep(m, ops, c);
    }
  }

  lemma {:induction false} RunSplit(m: Slots, a: seq<Op>, b: seq<Op>, c: Coordinate)
    requires Startable(m, a + b)
    ensures Startable(m, a) && Startable(Run(m, a, c), b)
    ensures Run(m, a + b, c) == Run(Run(m, a, c), b, c)
  {
    hide Sorted, Step;
    if a != [] {
      assert (a + b)[0] == a[0];
    }
    if b == [] {
      assert a + b == a;
    } else {
      var n := |b| - 1;
      assert (a + b)[..|a + b| - 1] == a + b[..n];
      RunSplit(m, a, b[..n], c);
    }
  }

  // ---------------------------------------------------------------- re-keying

  ghost predicate NonEmptyLines(m: Slots) {
    forall i :: 0 <= i < |m| ==> m[i].value != []
  }

  /** The first `k` lines, stored under the coordinate of their first point. */
  function RekeyedTo(m: Slots, c: Coordinate, k: nat): (r: Slots)
    requires NonEmptyLines(m) && k <= |m|
    ensures Sorted(r) && (k > 0 ==> r != [])
  {
    if k == 0 then [] else Emplace(RekeyedTo(m, c, k - 1), At(m[k - 1].value[0], c), m[k - 1].value)
  }

  function Rekeyed(m: Slots, c: Coordinate): Slots
    requires NonEmptyLines(m)
  {
    RekeyedTo(m, c, |m|)
  }

  ghost predicate FromLine(s: Slot<seq<Point>>, m: Slots, j: int, c: Coordinate) {
    0 <= j < |m| && m[j].value != [] && s == Slot(At(m[j].value[0], c), m[j].value)
  }

  /** The slot is one of the first `k` lines of the map under its new key. */
  ghost predicate Derived(s: Slot<seq<Point>>, m: Slots, k: nat, c: Coordinate) {
    exists j :: j < k && FromLine(s, m, j, c)
  }

  lemma FreshSlot(r: Slots, ub: nat, s: Slot<seq<Point>>, i: nat)
    requires ub <= |r| && i < |r| + 1
    ensures (r[..ub] + [s] + r[ub..])[i] == if i < ub then r[i] else if i == ub then s else r[i - 1]
  {
  }

  lemma EmplaceSlot(r: Slots, key: real, line: seq<Point>, i: nat)
    requires Sorted(r) && i < |Emplace(r, key, line)|
    ensures Emplace(r, key, line)[i] == Slot(key, line) ||
            exists j :: 0 <= j < |r| && r[j] == Emplace(r, key, line)[i]
  {
    hide Emplace, LowerBound, Sorted;
    if !HasKey(r, key) {
      EmplaceNew(r, key, line);
      FreshSlot(r, LowerBound(r, key), Slot(key, line), i);
    }
  }

  lemma EmplaceKeys(r: Slots, key: real, line: seq<Point>, x: real)
    requires Sorted(r)
    ensures HasKey(Emplace(r, key, line), x) <==> x == key || HasKey(r, x)
    ensures |Emplace(r, key, line)| == |r| + if HasKey(r, key) then 0 else 1
  {
    var r' := Emplace(r, key, line);
    if !HasKey(r, key) {
      EmplaceNew(r, key, line);
      var ub := LowerBound(r, key);
      assert r'[ub] == Slot(key, line);
      if i :| 0 <= i < |r| && r[i].key == x {
        assert r'[if i < ub then i else i + 1] == r[i];
      }
      if i :| 0 <= i < |r'| && r'[i].key == x && i != ub {
        assert r'[i] == r[if i < ub then i else i - 1];
      }
    }
  }

  /** Every re-keyed line is one of the lines. */
  lemma {:induction false} RekeyedLine(m: Slots, c: Coordinate, k: nat, i: nat)
    requires NonEmptyLines(m) && k <= |m| && i < |RekeyedTo(m, c, k)|
    ensures Derived(RekeyedTo(m, c, k)[i], m, k, c)
  {
    hide Emplace, Sorted;
    var before, r := RekeyedTo(m, c, k - 1), RekeyedTo(m, c, k);
    var key, line := At(m[k - 1].value[0], c), m[k - 1].value;
    EmplaceSlot(before, key, line, i);
    if r[i] == Slot(key, line) {
      assert FromLine(r[i], m, k - 1, c);
    } else {
      var j :| 0 <= j < |before| && before[j] == r[i];
      RekeyedLine(m, c, k - 1, j);
    }
  }

  ghost predicate SomeFrontAt(m: Slots, c: Coordinate, k: nat, x: real)
    requires NonEmptyLines(m) && k <= |m|
  {
    exists j :: 0 <= j < k && At(m[j].value[0], c) == x
  }

  lemma NoKeys(x: real)
    ensures !HasKey<seq<Point>>([], x)
  {
  }

  lemma RekeyedStep(m: Slots, c: Coordinate, k: nat, x: real)
    requires NonEmptyLines(m) && 0 < k <= |m|
    ensures var front := At(m[k - 1].value[0], c);
            && (HasKey(RekeyedTo(m, c, k), x) <==> x == front || HasKey(RekeyedTo(m, c, k - 1), x))
            && |RekeyedTo(m, c, k)| == |RekeyedTo(m, c, k - 1)| + if HasKey(RekeyedTo(m, c, k - 1), front) then 0 else 1
  {
    hide Emplace, HasKey, Sorted;
    EmplaceKeys(RekeyedTo(m, c, k - 1), At(m[k - 1].value[0], c), m[k - 1].value, x);
  }

  /** The keys are the coordinates of the first points. */
  lemma {:induction false} RekeyedKeys(m: Slots, c: Coordinate, k: nat, x: real)
    requires NonEmptyLines(m) && k <= |m|
    ensures HasKey(RekeyedTo(m, c, k), x) <==> SomeFrontAt(m, c, k, x)
  {
    hide HasKey, Emplace, Sorted;
    NoKeys(x);
    if k > 0 {
      hide RekeyedTo;
      RekeyedKeys(m, c, k - 1, x);
      RekeyedStep(m, c, k, x);
      assert SomeFrontAt(m, c, k, x) <==> SomeFrontAt(m, c, k - 1, x) || At(m[k - 1].value[0], c) == x;
    }
  }

  ghost predicate DistinctFronts(m: Slots, c: Coordinate, k: nat)
    requires NonEmptyLines(m) && k <= |m|
  {
    forall i, j :: 0 <= i < j < k ==> At(m[i].value[0], c) != At(m[j].value[0], c)
  }

  /** Re-keying keeps all lines exactly when no two lines start at the same coordinate. */
  lemma {:induction false} RekeyKeepsAllIff(m: Slots, c: Coordinate, k: nat)
    requires NonEmptyLines(m) && k <= |m|
    ensures |RekeyedTo(m, c, k)| <= k
    ensures |RekeyedTo(m, c, k)| == k <==> DistinctFronts(m, c, k)
  {
    hide HasKey, Emplace, Sorted;
    if k > 0 {
      hide RekeyedTo;
      RekeyKeepsAllIff(m, c, k - 1);
      RekeyedKeys(m, c, k - 1, At(m[k - 1].value[0], c));
      RekeyedStep(m, c, k, At(m[k - 1].value[0], c));
    }
  }

  lemma RekeyedInOneLine(m: Slots, c: Coordinate, p: Point)
    requires NonEmptyLines(m) && InOneLine(m, p)
    ensures InOneLine(Rekeyed(m, c), p)
  {
    hide RekeyedTo, HasKey;
    var r := Rekeyed(m, c);
    forall i, j | Holds(r, i, p) && Holds(r, j, p)
      ensures i == j
    {
      RekeyedLine(m, c, |m|, i);
      RekeyedLine(m, c, |m|, j);
      var a :| a < |m| && FromLine(r[i], m, a, c);
      var b :| b < |m| && FromLine(r[j], m, b, c);
      assert FromLine(r[i], m, a, c) && FromLine(r[j], m, b, c);
      assert Holds(m, a, p) && Holds(m, b, p);
    }
  }

  lemma RekeyedGood(m: Slots, c: Coordinate)
    requires NonEmptyLines(m) && GoodLines(m, c)
    ensures GoodLines(Rekeyed(m, c), c) && NonEmptyLines(Rekeyed(m, c))
  {
    hide RekeyedTo, Sorted;
    var r := Rekeyed(m, c);
    forall i | 0 <= i < |r|
      ensures GoodLine(r[i], c) && r[i].value != []
    {
      RekeyedLine(m, c, |m|, i);
      var a :| a < |m| && FromLine(r[i], m, a, c);
      assert FromLine(r[i], m, a, c);
      assert GoodLine(m[a], c);
    }
  }

  /** A line that drifted away leaves room for a second line with the same start, and re-keying drops one. */
  lemma {:induction false} RekeyCanDrop(p0: Point, p1: Point, p2: Point, p3: Point)
    requires p0.x == 0.0 && p1.x == 3.0 && p2.x == 6.0 && p3.x == 0.0
    ensures var ops := [Op(p0, true), Op(p1, true), Op(p2, true), Op(p3, true)];
            var m := Run([], ops, X);
            && m == [Slot(0.0, [p3]), Slot(6.0, [p0, p1, p2])]
            && Rekeyed(m, X) == [Slot(0.0, [p3])]
  {
    hide Run, Step, RekeyedTo, Sorted;
    var o0, o1, o2, o3 := Op(p0, true), Op(p1, true), Op(p2, true), Op(p3, true);
    FirstPoint(o0, X);
    assert [p0] + [p1] == [p0, p1] && [p0, p1] + [p2] == [p0, p1, p2];
    OnlyLine(0.0, [p0], o1);
    RunAppend([], [o0], o1, X);
    assert [o0] + [o1] == [o0, o1];
    OnlyLine(3.0, [p0, p1], o2);
    RunAppend([], [o0, o1], o2, X);
    assert [o0, o1] + [o2] == [o0, o1, o2];
    OnlyLine(6.0, [p0, p1, p2], o3);
    RunAppend([], [o0, o1, o2], o3, X);
    assert [o0, o1, o2] + [o3] == [o0, o1, o2, o3];
    SameFront([Slot(0.0, [p3]), Slot(6.0, [p0, p1, p2])], X);
  }

  lemma FirstPoint(op: Op, c: Coordinate)
    requires op.construct
    ensures Startable([], [op]) && Run([], [op], c) == [Slot(At(op.point, c), [op.point])]
  {
    hide Run, Added;
    assert [] + [op] == [op];
    RunAppend([], [], op, c);
  }

  lemma OnlyLine(key: real, line: seq<Point>, op: Op)
    requires op.construct && op.point.x < key ==> Abs(key - op.point.x) > MAX_DIFF
    requires op.construct && (op.point.x < key || Abs(key - op.point.x) <= MAX_DIFF)
    ensures Step([Slot(key, line)], op, X) ==
            if op.point.x < key then [Slot(op.point.x, [op.point]), Slot(key, line)]
            else [Slot(op.point.x, line + [op.point])]
  {
    hide Step;
    StepShape([Slot(key, line)], op, X);
    LowerBoundIs([Slot(key, line)], op.point.x, if op.point.x <= key then 0 else 1);
  }

  lemma SameFront(m: Slots, c: Coordinate)
    requires |m| >= 2 && NonEmptyLines(m) && m[0].key == At(m[0].value[0], c) == At(m[1].value[0], c)
    ensures RekeyedTo(m, c, 2) == [m[0]]
  {
    assert RekeyedTo(m, c, 0) == [];
    assert RekeyedTo(m, c, 1) == [m[0]];
    var r := RekeyedTo(m, c, 1);
    assert r[0].key == At(m[1].value[0], c);
    assert HasKey(r, At(m[1].value[0], c));
  }

  // ---------------------------------------------------------------- the sweep

  /** Additions away from the seed that start with a construction, so that the map is never empty. */
  ghost predicate ValidSweep(forward: seq<Op>) {
    forward != [] && forward[0].construct
  }

  lemma ForwardGood(forward: seq<Op>, c: Coordinate)
    requires ValidSweep(forward)
    ensures Startable([], forward) && Run([], forward, c) != []
    ensures GoodLines(Run([], forward, c), c) && AllKeyedByLast(Run([], forward, c), c)
    ensures NonEmptyLines(Run([], forward, c))
  {
    RunKeepsGoodLines([], forward, c);
    assert AllKeyedByLast([], c);
  }

  function Swept(forward: seq<Op>, backward: seq<Op>, c: Coordinate): (m: Slots)
    requires ValidSweep(forward)
    ensures Sorted(m)
  {
    ForwardGood(forward, c);
    Run(Rekeyed(Run([], forward, c), c), backward, c)
  }

  lemma SweptGood(forward: seq<Op>, backward: seq<Op>, c: Coordinate)
    requires ValidSweep(forward)
    ensures GoodLines(Swept(forward, backward, c), c) && NonEmptyLines(Swept(forward, backward, c))
    ensures Swept(forward, backward, c) != []
  {
    hide Run, RekeyedTo, Sorted;
    ForwardGood(forward, c);
    var m := Rekeyed(Run([], forward, c), c);
    RekeyedGood(Run([], forward, c), c);
    RunKeepsGoodLines(m, backward, c);
  }

  /** Every swept point was in one of the two passes. */
  lemma SweptHoldsOnlyAdded(forward: seq<Op>, backward: seq<Op>, c: Coordinate, i: int, p: Point)
    requires ValidSweep(forward) && Holds(Swept(forward, backward, c), i, p)
    ensures !NeverIn(forward, p) || !NeverIn(backward, p)
  {
    hide Run, RekeyedTo, Sorted;
    ForwardGood(forward, c);
    var m := Run([], forward, c);
    var r := Rekeyed(m, c);
    RunHoldsOnlyAdded(r, backward, c, i, p);
    if j :| Holds(r, j, p) {
      RekeyedLine(m, c, |m|, j);
      var a :| a < |m| && FromLine(r[j], m, a, c);
      assert FromLine(r[j], m, a, c);
      assert Holds(m, a, p);
      RunHoldsOnlyAdded([], forward, c, a, p);
      if k :| Holds([], k, p) {
        assert false;
      }
    }
  }

  /** The seed opened a line, is its first point, and is in no line that starts with another point. */
  ghost predicate SeedInFront(m: Slots, seed: Point) {
    && (exists i :: 0 <= i < |m| && m[i].value != [] && m[i].value[0] == seed)
    && (forall i :: Holds(m, i, seed) ==> m[i].value[0] == seed)
  }

  lemma AppliedSeed(m: Slots, o: Outcome, p: Point, c: Coordinate, seed: Point)
    requires ValidOutcome(m, o) && SeedInFront(m, seed) && p != seed && NonEmptyLines(m)
    ensures SeedInFront(Applied(m, o, p, c), seed)
  {
    var m' := Applied(m, o, p, c);
    var i :| 0 <= i < |m| && m[i].value != [] && m[i].value[0] == seed;
    var i' := if o.Opens? && o.at <= i then i + 1 else i;
    assert m'[i'].value != [] && m'[i'].value[0] == seed;
    forall j | Holds(m', j, seed)
      ensures m'[j].value[0] == seed
    {
      AppliedHolds(m, o, p, c, j, seed);
    }
  }

  lemma {:induction false} ForwardSeed(forward: seq<Op>, c: Coordinate)
    requires ValidSweep(forward) && OnceIn(forward, forward[0].point)
    ensures Startable([], forward) && SeedInFront(Run([], forward, c), forward[0].point)
  {
    hide Applied, StepOutcome, Sorted, SeedInFront, NonEmptyLines;
    var n := |forward| - 1;
    var prefix := forward[..n];
    if n == 0 {
      FirstSeed(forward, c);
    } else {
      ForwardSeed(prefix, c);
      ForwardGood(prefix, c);
      RunStep([], forward, c);
      var before := Run([], prefix, c);
      AppliedSeed(before, StepOutcome(before, forward[n], c), forward[n].point, c, forward[0].point);
    }
  }

  lemma FirstSeed(forward: seq<Op>, c: Coordinate)
    requires ValidSweep(forward) && |forward| == 1
    ensures Startable([], forward) && SeedInFront(Run([], forward, c), forward[0].point)
  {
    hide Run, SeedInFront;
    assert forward == [forward[0]];
    FirstPoint(forward[0], c);
    SingleSeed(forward[0].point, c);
  }

  lemma SingleSeed(p: Point, c: Coordinate)
    ensures SeedInFront([Slot(At(p, c), [p])], p)
  {
    var m := [Slot(At(p, c), [p])];
    assert m[0].value[0] == p;
  }

  lemma SeedSlot(m: Slots, c: Coordinate, seed: Point) returns (j: nat)
    requires NonEmptyLines(m) && SeedInFront(m, seed)
    ensures j < |Rekeyed(m, c)| && Rekeyed(m, c)[j].key == At(seed, c)
    ensures forall i :: Holds(Rekeyed(m, c), i, seed) ==> i == j
  {
    hide RekeyedTo, NonEmptyLines;
    var r, key := Rekeyed(m, c), At(seed, c);
    var a :| 0 <= a < |m| && m[a].value != [] && m[a].value[0] == seed;
    RekeyedKeys(m, c, |m|, key);
    assert SomeFrontAt(m, c, |m|, key);
    j :| 0 <= j < |r| && r[j].key == key;
    forall i | Holds(r, i, seed)
      ensures i == j
    {
      RekeyedLine(m, c, |m|, i);
      var b :| b < |m| && FromLine(r[i], m, b, c);
      assert FromLine(r[i], m, b, c);
      assert Holds(m, b, seed);
    }
  }

  lemma JoinsAtKey(r: Slots, j: nat, c: Coordinate, p: Point)
    requires Sorted(r) && j < |r| && r[j].key == At(p, c)
    requires forall i :: Holds(r, i, p) ==> i == j
    ensures InOneLine(Step(r, Op(p, false), c), p)
  {
    hide Step, Sorted;
    var op := Op(p, false);
    NearestToKey(r, j);
    StepShape(r, op, c);
    assert StepOutcome(r, op, c) == Joins(j);
    hide Applied, Holds;
    forall i | Holds(Step(r, op, c), i, p)
      ensures i == j
    {
      AppliedHolds(r, Joins(j), p, c, i, p);
    }
  }

  /** Adding the seed a second time puts it where it already is, or where its line was dropped for. */
  lemma SeedAgain(m: Slots, c: Coordinate, seed: Point)
    requires NonEmptyLines(m) && SeedInFront(m, seed)
    ensures Rekeyed(m, c) != [] && InOneLine(Step(Rekeyed(m, c), Op(seed, false), c), seed)
  {
    hide Step, Sorted, Holds, InOneLine;
    var j := SeedSlot(m, c, seed);
    JoinsAtKey(Rekeyed(m, c), j, c, seed);
  }

  /** The way back starts with the seed and otherwise takes up new points only. */
  ghost predicate ReturnsOverSeed(forward: seq<Op>, backward: seq<Op>) {
    && forward != [] && backward != []
    && backward[0] == Op(forward[0].point, false)
    && (forall i, j :: 0 <= i < j < |forward| ==> forward[i].point != forward[j].point)
    && (forall i, j :: 0 <= i < j < |backward| ==> backward[i].point != backward[j].point)
    && (forall i, j :: 0 <= i < |forward| && 0 < j < |backward| ==> forward[i].point != backward[j].point)
  }

  lemma BackwardInOneLine(r: Slots, backward: seq<Op>, c: Coordinate, p: Point)
    requires Sorted(r) && r != [] && backward != [] && !backward[0].construct && InOneLine(r, p)
    requires OnceIn(backward, p)
    requires if p == backward[0].point then InOneLine(Step(r, backward[0], c), p)
             else NeverIn(backward, p) || forall i :: !Holds(r, i, p)
    ensures Startable(r, backward) && InOneLine(Run(r, backward, c), p)
  {
    hide Run, Step, InOneLine, Holds, Sorted;
    if p == backward[0].point {
      var first, rest := [backward[0]], backward[1..];
      assert backward == first + rest;
      RunSplit(r, first, rest, c);
      RunAppend(r, [], backward[0], c);
      assert [] + [backward[0]] == first;
      assert NeverIn(rest, p);
      RunInOneLine(Run(r, first, c), rest, c, p);
    } else {
      RunInOneLine(r, backward, c, p);
    }
  }

  /** After a whole sweep no point is in two lines, although the seed was added twice. */
  lemma SweptInOneLine(forward: seq<Op>, backward: seq<Op>, c: Coordinate, p: Point)
    requires ValidSweep(forward) && ReturnsOverSeed(forward, backward)
    ensures InOneLine(Swept(forward, backward, c), p)
  {
    hide Run, RekeyedTo, Sorted, Step, InOneLine, Holds, GoodLines, AllKeyedByLast, SeedInFront;
    ForwardGood(forward, c);
    var m, seed := Run([], forward, c), forward[0].point;
    var r := Rekeyed(m, c);
    EmptyInOneLine(p);
    RunInOneLine([], forward, c, p);
    RekeyedInOneLine(m, c, p);
    ForwardSeed(forward, c);
    SeedAgain(m, c, seed);
    if p != seed && !NeverIn(backward, p) {
      forall i
        ensures !Holds(r, i, p)
      {
        NotYetHeld(forward, c, i, p);
      }
    }
    BackwardInOneLine(r, backward, c, p);
  }

  lemma EmptyInOneLine(p: Point)
    ensures InOneLine([], p) && forall i :: !Holds([], i, p)
  {
  }

  lemma NotYetHeld(forward: seq<Op>, c: Coordinate, i: int, p: Point)
    requires ValidSweep(forward) && NeverIn(forward, p)
    ensures Startable([], forward) && NonEmptyLines(Run([], forward, c))
    ensures !Holds(Rekeyed(Run([], forward, c), c), i, p)
  {
    ForwardGood(forward, c);
    if Holds(Rekeyed(Run([], forward, c), c), i, p) {
      assert Swept(forward, [], c) == Rekeyed(Run([], forward, c), c);
      SweptHoldsOnlyAdded(forward, [], c, i, p);
    }
  }
}
