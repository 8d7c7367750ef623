/**
  When the points of the horizontal line where the vertical sweep starts are on one vertical
  line each (lib/calibration/pointgrid.cpp:181-209).

  Whatever the other horizontal lines hold, they are if neighbouring points of the start line
  are more than MAX_DIFF apart.  For any other start line there are lines to go with it that
  put one of its points on two vertical lines.
 */
module VerticalSpacing {
  import opened Common
  import opened OrderedMap
  import opened LineGrids
  import opened PointLines
  import opened PointSweep
  import opened PointGridSpec
  import opened PointGridTheorems
  import opened LineGroups
  import opened VerticalLines

  // ---------------------------------------------------------------- lines that know their points

  /** Lines with the point start at its coordinate, and some line does. */
  ghost predicate Home(m: Slots, p: Point, c: Coordinate) {
    && NonEmptyLines(m)
    && (forall i :: Holds(m, i, p) ==> FrontAt(m[i], c) == At(p, c))
    && (exists i :: 0 <= i < |m| && FrontAt(m[i], c) == At(p, c))
  }

  lemma {:induction false} AppliedHome(m: Slots, o: Outcome, q: Point, c: Coordinate, p: Point)
    requires ValidOutcome(m, o) && Home(m, p, c) && q != p
    ensures Home(Applied(m, o, q, c), p, c)
  {
    var m' := Applied(m, o, q, c);
    var i :| 0 <= i < |m| && FrontAt(m[i], c) == At(p, c);
    var i' := if o.Opens? && o.at <= i then i + 1 else i;
    assert m'[i'].value != [] && FrontAt(m'[i'], c) == At(p, c);
    forall j | Holds(m', j, p)
      ensures m'[j].value != [] && FrontAt(m'[j], c) == At(p, c)
    {
      AppliedHolds(m, o, q, c, j, p);
    }
  }

  lemma {:induction false} RunHome(m: Slots, ops: seq<Op>, c: Coordinate, p: Point)
    requires Startable(m, ops) && Home(m, p, c) && NeverIn(ops, p)
    ensures Home(Run(m, ops, c), p, c)
  {
    if ops != [] {
      hide Run, Applied, StepOutcome, Sorted, Home;
      var prefix, op := ops[..|ops| - 1], ops[|ops| - 1];
      RunHome(m, prefix, c, p);
      RunStep(m, ops, c);
      var before := Run(m, prefix, c);
      AppliedHome(before, StepOutcome(before, op, c), op.point, c, p);
    }
  }

  /** Lines with the point are at its coordinate, and some line is. */
  ghost predicate HomeKey(m: Slots, p: Point, c: Coordinate) {
    HasKey(m, At(p, c)) && forall i :: Holds(m, i, p) ==> m[i].key == At(p, c)
  }

  lemma {:induction false} RekeyedHome(m: Slots, c: Coordinate, p: Point)
    requires Home(m, p, c)
    ensures HomeKey(Rekeyed(m, c), p, c)
  {
    hide RekeyedTo, HasKey;
    var r := Rekeyed(m, c);
    RekeyedKeys(m, c, |m|, At(p, c));
    assert SomeFrontAt(m, c, |m|, At(p, c));
    forall i | Holds(r, i, p)
      ensures r[i].key == At(p, c)
    {
      RekeyedLine(m, c, |m|, i);
      var a :| a < |m| && FromLine(r[i], m, a, c);
      assert FromLine(r[i], m, a, c);
      assert Holds(m, a, p);
    }
  }

  lemma {:induction false} StepHomeKey(m: Slots, q: Point, c: Coordinate, p: Point)
    requires Sorted(m) && m != [] && HomeKey(m, q, c) && HomeKey(m, p, c)
    ensures HomeKey(Step(m, Op(q, false), c), p, c)
  {
    hide Step;
    var n :| 0 <= n < |m| && m[n].key == At(q, c);
    JoinAtKey(m, Op(q, false), c, n);
    var m' := Step(m, Op(q, false), c);
    var i :| 0 <= i < |m| && m[i].key == At(p, c);
    assert m'[i].key == At(p, c);
    forall j | Holds(m', j, p)
      ensures m'[j].key == At(p, c)
    {
      assert (j == n && p == q) || Holds(m, j, p);
    }
  }

  /** Adding such points again moves no key. */
  lemma {:induction false} RunHomeKeys(m: Slots, points: seq<Point>, c: Coordinate, p: Point)
    requires Sorted(m) && m != [] && HomeKey(m, p, c) && forall i :: 0 <= i < |points| ==> HomeKey(m, points[i], c)
    ensures HomeKey(Run(m, LineOps(points, false), c), p, c)
  {
    hide Run, Step, Sorted, HomeKey;
    var ops := LineOps(points, false);
    if points == [] {
      assert ops == [];
    } else {
      var n := |points| - 1;
      assert ops == LineOps(points[..n], false) + [ops[n]];
      RunAppend(m, LineOps(points[..n], false), ops[n], c);
      RunHomeKeys(m, points[..n], c, p);
      RunHomeKeys(m, points[..n], c, points[n]);
      StepHomeKey(Run(m, LineOps(points[..n], false), c), points[n], c, p);
    }
  }

  lemma {:induction false} HomeReturns(m: Slots, p: Point, c: Coordinate)
    requires Sorted(m) && m != [] && HomeKey(m, p, c)
    ensures ReturnsHome(m, p, c)
  {
    hide StepOutcome;
    var n :| 0 <= n < |m| && m[n].key == At(p, c);
    JoinAtKey(m, Op(p, false), c, n);
    forall i | Holds(m, i, p)
      ensures i == n
    {
    }
  }

  lemma {:induction false} GroupedHome(points: seq<Point>, c: Coordinate, k: nat)
    requires k < |points| && SortedBy(points, c) && Spaced(points, c)
    ensures Home(Grouped(points, c), points[k], c)
  {
    hide Grouped, Run, SortedBy, Spaced;
    GroupedRun(points, c);
    SpacedIsFlat(points, c);
    var i := GroupedHolds(points, c, k);
    assert FrontAt(Grouped(points, c)[i], c) == At(points[k], c);
  }

  // ---------------------------------------------------------------- the forward pass

  lemma {:induction false} UpOpsFront(lines: seq<GridLine>, lo: nat, hi: nat, construct: bool)
    requires lo < hi <= |lines|
    ensures UpOps(lines, lo, hi, lo % 2, construct) ==
            LineOps(lines[lo].points, construct) + UpOps(lines, lo + 1, hi, lo % 2, construct)
    decreases hi
  {
    if lo + 1 < hi {
      UpOpsFront(lines, lo, hi - 1, construct);
    } else {
      assert UpOps(lines, lo, lo, lo % 2, construct) == [] == UpOps(lines, hi, hi, lo % 2, construct);
    }
  }

  function AfterStart(lines: seq<GridLine>): seq<Op>
    requires |lines| >= 8
  {
    var start := |lines| / 3;
    UpOps(lines, start + 1, start + 6, start % 2, true) + UpOps(lines, start + 6, |lines|, start % 2, false)
  }

  /** The forward pass adds the start line and then nothing of it. */
  lemma {:induction false} ForwardFromStart(lines: seq<GridLine>, p: Point)
    requires |lines| >= 8 && OnlyOn(lines, |lines| / 3, p)
    ensures VerticalForward(lines, |lines| / 3 % 2) == LineOps(lines[|lines| / 3].points, true) + AfterStart(lines)
    ensures NeverIn(AfterStart(lines), p)
  {
    hide UpOps, OnlyOn, NeverIn, LineOps;
    var start := |lines| / 3;
    UpOpsFront(lines, start, start + 6, true);
    UpOpsTogether(lines, start + 1, start + 6, start % 2, true, start, p);
    UpOpsTogether(lines, start + 6, |lines|, start % 2, false, start, p);
    NeverInConcat(UpOps(lines, start + 1, start + 6, start % 2, true), UpOps(lines, start + 6, |lines|, start % 2, false), p);
  }

  /** The points of the start line are on no other line. */
  ghost predicate OwnStart(lines: seq<GridLine>)
    requires |lines| >= 8
  {
    forall k :: 0 <= k < |lines[|lines| / 3].points| ==> OnlyOn(lines, |lines| / 3, lines[|lines| / 3].points[k])
  }

  lemma {:induction false} ForwardHome(lines: seq<GridLine>, k: nat)
    requires |lines| >= 8 && NoEmptyLine(lines) && OwnStart(lines) && k < |lines[|lines| / 3].points|
    requires Spaced(lines[|lines| / 3].points, Y)
    ensures ValidSweep(VerticalForward(lines, |lines| / 3 % 2))
    ensures Startable([], VerticalForward(lines, |lines| / 3 % 2))
    ensures Home(Run([], VerticalForward(lines, |lines| / 3 % 2), Y), lines[|lines| / 3].points[k], Y)
  {
    hide Run, VerticalForward, AfterStart, Home, Grouped, Groups, NoEmptyLine, NeverIn;
    var start := |lines| / 3;
    var a, p := lines[start].points, lines[start].points[k];
    assert OnlyOn(lines, start, p);
    VerticalValid(lines, start % 2);
    ForwardFromStart(lines, p);
    GroupedRun(a, Y);
    GroupedHome(a, Y, k);
    RunSplit([], LineOps(a, true), AfterStart(lines), Y);
    RunHome(Grouped(a, Y), AfterStart(lines), Y, p);
  }

  // ---------------------------------------------------------------- the way back

  lemma {:induction false} WayBackHome(lines: seq<GridLine>, k: nat)
    requires |lines| >= 8 && NoEmptyLine(lines) && OwnStart(lines) && k < |lines[|lines| / 3].points|
    requires Spaced(lines[|lines| / 3].points, Y)
    ensures StartPointReturns(lines, k)
  {
    hide Run, RekeyedTo, VerticalForward, VerticalBackward, Home, HomeKey, NoEmptyLine, OwnStart, Spaced, ReturnsHome, Sorted;
    var start := |lines| / 3;
    var a := lines[start].points;
    var forward, backward := VerticalForward(lines, start % 2), VerticalBackward(lines, start % 2);
    VerticalValid(lines, start % 2);
    ForwardGood(forward, Y);
    var r := Rekeyed(Run([], forward, Y), Y);
    forall i | 0 <= i < |a|
      ensures HomeKey(r, a[i], Y)
    {
      ForwardHome(lines, i);
      RekeyedHome(Run([], forward, Y), Y, a[i]);
    }
    StartLineFirst(lines, k);
    FrontOps(lines, k);
    RunHomeKeys(r, a[..k], Y, a[k]);
    HomeReturns(OnTheWayBack(forward, backward, Y, k), a[k], Y);
  }

  lemma {:induction false} FrontOps(lines: seq<GridLine>, k: nat)
    requires |lines| >= 8 && k < |lines[|lines| / 3].points|
    ensures k < |VerticalBackward(lines, |lines| / 3 % 2)|
    ensures VerticalBackward(lines, |lines| / 3 % 2)[..k] == LineOps(lines[|lines| / 3].points[..k], false)
  {
    hide VerticalBackward;
    StartLineFirst(lines, k);
    var start := |lines| / 3;
    var front, ops := VerticalBackward(lines, start % 2)[..k], LineOps(lines[start].points[..k], false);
    forall j | 0 <= j < k
      ensures front[j] == ops[j]
    {
      StartLineFirst(lines, j);
    }
  }

  lemma {:induction false} FirstOf(points: seq<Point>, p: Point) returns (k: nat)
    requires p in points
    ensures k < |points| && points[k] == p && forall j :: 0 <= j < k ==> points[j] != p
  {
    if points[0] == p {
      k := 0;
    } else {
      var i := FirstOf(points[1..], p);
      k := i + 1;
    }
  }

  /**
    A spaced start line: each of its points is in one vertical line, whatever the other
    horizontal lines hold.
   */
  lemma {:induction false} SpacedInOneLine(lines: seq<GridLine>, p: Point)
    requires |lines| >= 8 && NoEmptyLine(lines) && OwnStart(lines) && Spaced(lines[|lines| / 3].points, Y)
    requires p in lines[|lines| / 3].points
    ensures InOneLine(VerticalSlots(lines, |lines| / 3 % 2), p)
  {
    hide VerticalForward, VerticalBackward, NoEmptyLine, Spaced, OnlyOn, Together, InOneLine, Swept, ReturnsHome, OnTheWayBack;
    var start := |lines| / 3;
    var k := FirstOf(lines[start].points, p);
    assert OnlyOn(lines, start, lines[start].points[k]);
    VerticalPasses(lines, start % 2, start, p);
    VerticalValid(lines, start % 2);
    StartLineFirst(lines, k);
    NotBefore(lines, k);
    SweptInOneLineIff(VerticalForward(lines, start % 2), VerticalBackward(lines, start % 2), Y, k);
    WayBackHome(lines, k);
  }

  /** With a spaced start line every point of the finalized grid is on at most one vertical line. */
  lemma {:induction false} SpacedOnOneLine(acc: seq<Point>, hs: Slots, odd: Slots, even: Slots, p: Point)
    requires Finalization(acc, hs, odd, even) && Spaced(hs[|hs| / 3].value, Y)
    ensures OnOneLine(FinalVertical(odd, even), p)
  {
    hide Rearranged, InOneLine, VerticalSlots, HorizontalSlots, FinalVertical, OnOneLine, Spaced, NoEmptyLine, OnlyOn;
    var lines, start := Tagged(hs), |hs| / 3;
    if Lies(lines, start, p) {
      forall k | 0 <= k < |lines[start].points|
        ensures OnlyOn(lines, start, lines[start].points[k])
      {
        assert Lies(lines, start, lines[start].points[k]);
        HorizontalOnlyOn(acc, hs, odd, even, start, lines[start].points[k]);
      }
      HorizontalOnlyOn(acc, hs, odd, even, start, p);
      SpacedInOneLine(lines, p);
      ReducedToFamily(acc, hs, odd, even, start, p);
    } else {
      OneVerticalLine(acc, hs, odd, even, p);
    }
  }
}
