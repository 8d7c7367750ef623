/**
  For every start line that is not spaced there are horizontal lines to go with it that put
  one of its points on two vertical lines (lib/calibration/pointgrid.cpp:184-209).

  The second constructing line pulls the vertical lines down by MAX_DIFF, up to one with points
  at different heights; the third one opens a new vertical line just above the top of it.  On
  the way back that line's top point is nearer to the new line than to its own.
 */
module VerticalSplit {
  import opened Common
  import opened OrderedMap
  import opened LineGrids
  import opened PointLines
  import opened PointSweep
  import opened PointGridSpec
  import opened PointGridTheorems
  import opened LineGroups
  import opened VerticalLines
  import opened VerticalSpacing

  /** Lines 2, 4 and 6 construct; group `l` of the start line 2 is split. */
  ghost predicate Splitting(lines: seq<GridLine>, l: nat, eps: real) {
    && |lines| == 8 && NoEmptyLine(lines) && SortedBy(lines[2].points, Y)
    && var a, ws := lines[2].points, lines[4].points;
       var m := Grouped(a, Y);
    && l < |m| && m[l].value != [] && FrontAt(m[l], Y) < m[l].key
    && |ws| == l + 1 && (forall i :: 0 <= i <= l ==> ws[i].y == m[i].key - MAX_DIFF)
    && |lines[6].points| == 1 && lines[6].points[0].y == m[l].key + eps
    && 0.0 < eps < MAX_DIFF
    && (forall k :: 0 <= k < |a| && a[k].y < m[l].key ==> a[k].y < m[l].key - eps)
    && (l + 1 < |m| ==> m[l].key + eps + MAX_DIFF < m[l + 1].key)
  }

  lemma {:induction false} SplittingOps(lines: seq<GridLine>)
    requires |lines| == 8
    ensures VerticalForward(lines, 0) ==
            LineOps(lines[2].points, true) + LineOps(lines[4].points, true) + LineOps(lines[6].points, true)
    ensures VerticalBackward(lines, 0) == LineOps(lines[2].points, false) + LineOps(lines[0].points, false)
  {
    var a := LineOps(lines[2].points, true);
    assert UpOps(lines, 2, 4, 0, true) == a;
    assert UpOps(lines, 2, 6, 0, true) == a + LineOps(lines[4].points, true);
    assert UpOps(lines, 2, 8, 0, true) == a + LineOps(lines[4].points, true) + LineOps(lines[6].points, true);
    assert UpOps(lines, 8, 8, 0, false) == [];
    var b := LineOps(lines[2].points, false);
    assert DownOps(lines, 2, 1, 0, false) == b;
    assert DownOps(lines, 2, 2, 0, false) == b;
    assert DownOps(lines, 2, 3, 0, false) == b + LineOps(lines[0].points, false);
  }

  // ---------------------------------------------------------------- the forward pass

  /** The first `k` lines after one more point each, MAX_DIFF below their keys. */
  function Lowered(m: Slots, ws: seq<Point>, k: nat): (m': Slots)
    requires k <= |ws| <= |m|
    ensures |m'| == |m|
    ensures forall i :: 0 <= i < |m| ==>
              m'[i] == if i < k then Slot(m[i].key - MAX_DIFF, m[i].value + [ws[i]]) else m[i]
  {
    seq(|m|, i requires 0 <= i < |m| => if i < k then Slot(m[i].key - MAX_DIFF, m[i].value + [ws[i]]) else m[i])
  }

  lemma {:induction false} LowerRun(m: Slots, last: real, ws: seq<Point>, k: nat)
    requires Groups(m, last, Y) && k <= |ws| <= |m|
    requires forall i :: 0 <= i < |ws| ==> ws[i].y == m[i].key - MAX_DIFF
    ensures Sorted(m) && Run(m, LineOps(ws, true)[..k], Y) == Lowered(m, ws, k)
  {
    hide Run, Step, Lowered;
    GroupsSorted(m, last, Y);
    var ops := LineOps(ws, true);
    if k == 0 {
      assert ops[..0] == [] && Lowered(m, ws, 0) == m;
    } else {
      LowerRun(m, last, ws, k - 1);
      var m' := Lowered(m, ws, k - 1);
      hide Groups;
      LowerStep(m, m', ws, k - 1);
      NextRun(m, ops, Y, k - 1, m');
      assert m'[k - 1 := Slot(ws[k - 1].y, m'[k - 1].value + [ws[k - 1]])] == Lowered(m, ws, k);
    }
  }

  lemma {:induction false} LowerStep(m: Slots, m': Slots, ws: seq<Point>, k: nat)
    requires k < |ws| <= |m| && m' == Lowered(m, ws, k) && ws[k].y == m[k].key - MAX_DIFF
    requires forall i, j :: 0 <= i < j < |m| ==> m[i].key + MAX_DIFF < m[j].key
    ensures Sorted(m')
    ensures Step(m', Op(ws[k], true), Y) == m'[k := Slot(ws[k].y, m'[k].value + [ws[k]])]
  {
    hide Step, Lowered;
    JoinStep(m', Op(ws[k], true), Y, k);
  }

  /** The vertical lines after the forward pass. */
  ghost function SplitLines(lines: seq<GridLine>, l: nat, eps: real): Slots
    requires Splitting(lines, l, eps)
  {
    var m := Grouped(lines[2].points, Y);
    Lowered(m, lines[4].points, l + 1)[..l + 1] + [Slot(m[l].key + eps, lines[6].points)] + m[l + 1..]
  }

  lemma {:induction false} SplitForward(lines: seq<GridLine>, l: nat, eps: real)
    requires Splitting(lines, l, eps)
    ensures ValidSweep(VerticalForward(lines, 0)) && Startable([], VerticalForward(lines, 0))
    ensures Run([], VerticalForward(lines, 0), Y) == SplitLines(lines, l, eps)
  {
    hide Run, Step, VerticalForward, VerticalBackward, Grouped, Groups, Lowered;
    SplittingOps(lines);
    VerticalValid(lines, 0);
    var a, ws, ns := lines[2].points, lines[4].points, lines[6].points;
    var m, last := Grouped(a, Y), a[|a| - 1].y;
    GroupedRun(a, Y);
    LowerRun(m, last, ws, l + 1);
    assert LineOps(ws, true)[..l + 1] == LineOps(ws, true);
    RunSplit([], LineOps(a, true), LineOps(ws, true), Y);
    GroupsSorted(m, last, Y);
    var m' := Lowered(m, ws, l + 1);
    SplitOpens(m, m', ws, ns[0], l, eps);
    assert LineOps(ns, true) == [Op(ns[0], true)] && ns == [ns[0]];
    RunAppend([], LineOps(a, true) + LineOps(ws, true), Op(ns[0], true), Y);
    assert m'[l + 1..] == m[l + 1..];
  }

  lemma {:induction false} SplitOpens(m: Slots, m': Slots, ws: seq<Point>, n: Point, l: nat, eps: real)
    requires l < |m| && |ws| == l + 1 && m' == Lowered(m, ws, l + 1) && Sorted(m') && n.y == m[l].key + eps && eps > 0.0
    requires forall i, j :: 0 <= i < j < |m| ==> m[i].key + MAX_DIFF < m[j].key
    requires l + 1 < |m| ==> m[l].key + eps + MAX_DIFF < m[l + 1].key
    ensures Step(m', Op(n, true), Y) == m'[..l + 1] + [Slot(n.y, [n])] + m'[l + 1..]
  {
    hide Step, Lowered;
    OpenStep(m', Op(n, true), Y, l + 1);
  }

  /** Where slot `i` of the split lines comes from. */
  lemma {:induction false} SplitSlot(lines: seq<GridLine>, l: nat, eps: real, i: nat)
    requires Splitting(lines, l, eps) && i < |SplitLines(lines, l, eps)|
    ensures var m, s := Grouped(lines[2].points, Y), SplitLines(lines, l, eps);
            && |s| == |m| + 1
            && s[i] == if i <= l then Slot(m[i].key - MAX_DIFF, m[i].value + [lines[4].points[i]])
                       else if i == l + 1 then Slot(m[l].key + eps, lines[6].points)
                       else m[i - 1]
  {
    hide Grouped, NoEmptyLine;
  }

  ghost function SplitFront(m: Slots, l: nat, eps: real, i: nat): real
    requires NonEmptyLines(m) && l < |m| && i <= |m|
  {
    if i <= l then FrontAt(m[i], Y) else if i == l + 1 then m[l].key + eps else FrontAt(m[i - 1], Y)
  }

  lemma {:induction false} FrontsApart(m: Slots, last: real, l: nat, eps: real, i: nat, j: nat)
    requires Groups(m, last, Y) && l < |m| && 0.0 < eps < MAX_DIFF && i < j <= |m|
    ensures SplitFront(m, l, eps, i) < SplitFront(m, l, eps, j)
  {
  }

  lemma {:induction false} SplitFronts(lines: seq<GridLine>, l: nat, eps: real)
    requires Splitting(lines, l, eps)
    ensures FrontsIncrease(SplitLines(lines, l, eps), Y)
    ensures NonEmptyLines(Grouped(lines[2].points, Y))
    ensures var m, s := Grouped(lines[2].points, Y), SplitLines(lines, l, eps);
            |s| == |m| + 1 && forall i :: 0 <= i < |s| ==> FrontAt(s[i], Y) == SplitFront(m, l, eps, i)
  {
    var a := lines[2].points;
    var m, s := Grouped(a, Y), SplitLines(lines, l, eps);
    GroupedRun(a, Y);
    assert NonEmptyLines(m);
    hide SplitLines, Grouped, Groups, Run;
    SplitSlot(lines, l, eps, 0);
    forall i | 0 <= i < |s|
      ensures s[i].value != [] && FrontAt(s[i], Y) == SplitFront(m, l, eps, i)
    {
      SplitSlot(lines, l, eps, i);
    }
    hide Splitting, SplitFront;
    forall i, j | 0 <= i < j < |s|
      ensures SplitFront(m, l, eps, i) < SplitFront(m, l, eps, j)
    {
      FrontsApart(m, a[|a| - 1].y, l, eps, i, j);
    }
  }

  // ---------------------------------------------------------------- the top of a group

  lemma {:induction false} FirstAtHeight(a: seq<Point>, k: nat) returns (i: nat)
    requires k < |a| && SortedBy(a, Y)
    ensures i < |a| && a[i].y == a[k].y && forall j :: 0 <= j < i ==> a[j].y < a[k].y
  {
    if k == 0 || a[k - 1].y < a[k].y {
      i := k;
    } else {
      i := FirstAtHeight(a, k - 1);
    }
  }

  /** The first point at the height of the group's key; it is in the group. */
  lemma {:induction false} TopOfGroup(a: seq<Point>, l: nat) returns (k: nat)
    requires a != [] && SortedBy(a, Y) && l < |Grouped(a, Y)|
    ensures k < |a| && a[k].y == Grouped(a, Y)[l].key && Holds(Grouped(a, Y), l, a[k])
    ensures forall j :: 0 <= j < k ==> a[j].y < a[k].y
  {
    hide Run, Grouped, Groups, GoodLines;
    var m, ops := Grouped(a, Y), LineOps(a, true);
    GroupedRun(a, Y);
    ForwardGood(ops, Y);
    var q := m[l].value[|m[l].value| - 1];
    assert KeyedByLast(m[l], Y);
    RunHoldsOnlyAdded([], ops, Y, l, q);
    EmptyInOneLine(q);
    var t :| 0 <= t < |ops| && ops[t].point == q;
    k := FirstAtHeight(a, t);
    var i := GroupedHolds(a, Y, k);
    SameGroup(m, a[|a| - 1].y, Y, i, l, a[k], q);
  }

  // ---------------------------------------------------------------- the way back

  ghost predicate HeldBeside(m: Slots, n: int, q: Point) {
    exists i :: i != n && Holds(m, i, q)
  }

  /** The line of `p` is below it, the new line just above it holds none of the points. */
  ghost predicate Torn(m: Slots, a: seq<Point>, p: Point, l: nat, eps: real) {
    && l + 1 < |m| && Holds(m, l, p) && m[l].key < p.y - eps && m[l + 1].key == p.y + eps
    && forall k :: 0 <= k < |a| ==> HeldBeside(m, l + 1, a[k])
  }

  ghost predicate SomeTwice(m: Slots, a: seq<Point>) {
    exists k :: 0 <= k < |a| && !InOneLine(m, a[k])
  }

  lemma {:induction false} JoinedTorn(m: Slots, a: seq<Point>, p: Point, l: nat, eps: real, n: nat, q: Point)
    requires Torn(m, a, p, l, eps) && n < |m| && n != l + 1 && q.y < p.y - eps
    ensures Torn(m[n := Slot(q.y, m[n].value + [q])], a, p, l, eps)
  {
    var m' := m[n := Slot(q.y, m[n].value + [q])];
    forall k | 0 <= k < |a|
      ensures HeldBeside(m', l + 1, a[k])
    {
      assert HeldBeside(m, l + 1, a[k]);
      var i :| i != l + 1 && Holds(m, i, a[k]);
      assert Holds(m', i, a[k]);
    }
  }

  /** A lower point joins the new line, and so is in two lines, or leaves the tear as it is. */
  lemma {:induction false} TornStep(m: Slots, a: seq<Point>, p: Point, l: nat, eps: real, k: nat)
    requires Sorted(m) && Torn(m, a, p, l, eps) && k < |a| && a[k].y < p.y - eps
    ensures var m' := Step(m, Op(a[k], false), Y);
            Torn(m', a, p, l, eps) || !InOneLine(m', a[k])
  {
    hide Step, Sorted;
    var q := a[k];
    var o, m' := StepOutcome(m, Op(q, false), Y), Step(m, Op(q, false), Y);
    StepShape(m, Op(q, false), Y);
    NeverOpens(m, Op(q, false), Y);
    hide StepOutcome;
    if o.Joins? {
      if o.at == l + 1 {
        assert HeldBeside(m, l + 1, q);
        var i :| i != l + 1 && Holds(m, i, q);
        assert Holds(m', i, q) && Holds(m', l + 1, q);
      } else {
        JoinedTorn(m, a, p, l, eps, o.at, q);
      }
    }
  }

  lemma {:induction false} TornRun(r: Slots, a: seq<Point>, p: Point, l: nat, eps: real, k: nat)
    requires Sorted(r) && Torn(r, a, p, l, eps) && k <= |a| && forall j :: 0 <= j < k ==> a[j].y < p.y - eps
    ensures var m := Run(r, LineOps(a, false)[..k], Y);
            Torn(m, a, p, l, eps) || SomeTwice(m, a)
  {
    hide Run, Step, Sorted, InOneLine;
    var ops := LineOps(a, false);
    if k == 0 {
      assert ops[..0] == [];
    } else {
      TornRun(r, a, p, l, eps, k - 1);
      var m := Run(r, ops[..k - 1], Y);
      NextRun(r, ops, Y, k - 1, m);
      hide Torn;
      if SomeTwice(m, a) {
        var j :| 0 <= j < |a| && !InOneLine(m, a[j]);
        StepTwice(m, ops[k - 1], a[j]);
      } else {
        TornStep(m, a, p, l, eps, k - 1);
      }
    }
  }

  lemma {:induction false} StepTwice(m: Slots, op: Op, p: Point)
    requires Sorted(m) && m != [] && !InOneLine(m, p)
    ensures !InOneLine(Step(m, op, Y), p)
  {
    hide Step, Sorted, InOneLine, StepOutcome, Applied;
    StepShape(m, op, Y);
    AppliedTwoLines(m, StepOutcome(m, op, Y), op.point, Y, p);
  }

  /** The point itself is nearer to the new line than to its own. */
  lemma {:induction false} TornEnd(m: Slots, a: seq<Point>, p: Point, l: nat, eps: real)
    requires Sorted(m) && Torn(m, a, p, l, eps) && 0.0 < eps < MAX_DIFF
    ensures !InOneLine(Step(m, Op(p, false), Y), p)
  {
    hide Step;
    var n := Nearest(m, p.y);
    NearestIsGlobal(m, p.y, n);
    assert Abs(m[n].key - p.y) <= Abs(m[l + 1].key - p.y);
    assert n != l;
    JoinStep(m, Op(p, false), Y, n);
    var m' := Step(m, Op(p, false), Y);
    assert Holds(m', l, p) && Holds(m', n, p);
  }

  lemma {:induction false} SplitIsTorn(lines: seq<GridLine>, l: nat, eps: real, k: nat)
    requires Splitting(lines, l, eps) && k < |lines[2].points|
    requires lines[2].points[k].y == Grouped(lines[2].points, Y)[l].key
    requires Holds(Grouped(lines[2].points, Y), l, lines[2].points[k])
    ensures NonEmptyLines(SplitLines(lines, l, eps))
    ensures Torn(Rekeyed(SplitLines(lines, l, eps), Y), lines[2].points, lines[2].points[k], l, eps)
  {
    hide Grouped, RekeyedTo, SplitLines, NoEmptyLine;
    var a := lines[2].points;
    var m, s := Grouped(a, Y), SplitLines(lines, l, eps);
    SplitFronts(lines, l, eps);
    RekeyedInOrder(s, Y, |s|);
    var r := Rekeyed(s, Y);
    forall i, q | Holds(m, i, q)
      ensures HeldBeside(r, l + 1, q) && (i == l ==> Holds(r, l, q))
    {
      var j := if i <= l then i else i + 1;
      SplitSlot(lines, l, eps, j);
      assert Holds(r, j, q);
    }
    forall j | 0 <= j < |a|
      ensures HeldBeside(r, l + 1, a[j])
    {
      var i := GroupedHolds(a, Y, j);
    }
    PointsBelow(lines, l, eps, m);
  }

  /** The front of the group is one of the points below the key. */
  lemma {:induction false} PointsBelow(lines: seq<GridLine>, l: nat, eps: real, m: Slots)
    requires Splitting(lines, l, eps) && m == Grouped(lines[2].points, Y)
    ensures FrontAt(m[l], Y) < m[l].key - eps
  {
    hide Run, Grouped;
    var a, f := lines[2].points, m[l].value[0];
    GroupedRun(a, Y);
    RunHoldsOnlyAdded([], LineOps(a, true), Y, l, f);
    EmptyInOneLine(f);
    var t :| 0 <= t < |LineOps(a, true)| && LineOps(a, true)[t].point == f;
    assert a[t] == f;
  }

  /** Some point of the start line is in two vertical lines. */
  lemma {:induction false} SplitInTwo(lines: seq<GridLine>, l: nat, eps: real)
    requires Splitting(lines, l, eps)
    ensures SomeTwice(VerticalSlots(lines, 0), lines[2].points)
  {
    hide Run, RekeyedTo, Grouped, Torn, InOneLine, VerticalForward, VerticalBackward, SplitLines, Sorted, SortedBy;
    var a := lines[2].points;
    var k := TopOfGroup(a, l);
    var p := a[k];
    SplitForward(lines, l, eps);
    SplitIsTorn(lines, l, eps, k);
    SplittingOps(lines);
    var r, backward := Rekeyed(SplitLines(lines, l, eps), Y), VerticalBackward(lines, 0);
    TornRun(r, a, p, l, eps, k);
    var front, rest := LineOps(a, false)[..k], backward[k..];
    assert backward == front + rest;
    RunSplit(r, front, rest, Y);
    var m := Run(r, front, Y);
    if Torn(m, a, p, l, eps) {
      TornEnd(m, a, p, l, eps);
      var last := rest[1..];
      assert rest == [Op(p, false)] + last;
      RunSplit(m, [Op(p, false)], last, Y);
      RunAppend(m, [], Op(p, false), Y);
      assert [] + [Op(p, false)] == [Op(p, false)];
      RunTwoLines(Run(m, [Op(p, false)], Y), last, Y, p);
    } else {
      var j :| 0 <= j < |a| && !InOneLine(m, a[j]);
      RunTwoLines(m, rest, Y, a[j]);
    }
  }

  // ---------------------------------------------------------------- building the lines

  method SteepGroup(a: seq<Point>) returns (l: nat)
    requires a != [] && SortedBy(a, Y) && !Spaced(a, Y)
    ensures l < |Grouped(a, Y)| && Grouped(a, Y)[l].value != []
    ensures FrontAt(Grouped(a, Y)[l], Y) < Grouped(a, Y)[l].key
  {
    hide Grouped;
    var m := Grouped(a, Y);
    ghost var g := UnspacedIsSteep(a, Y);
    l := 0;
    while m[l].value == [] || FrontAt(m[l], Y) >= m[l].key
      invariant l <= g
      decreases g - l
    {
      l := l + 1;
    }
  }

  /** A distance smaller than from `z` to any point below it, and small enough for the line above. */
  method SmallStep(a: seq<Point>, z: real, room: real) returns (eps: real)
    requires room > 0.0
    ensures 0.0 < eps < MAX_DIFF && eps < room
    ensures forall k :: 0 <= k < |a| && a[k].y < z ==> a[k].y < z - eps
  {
    eps := if room < 1.0 then room / 2.0 else 0.5;
    for i := 0 to |a|
      invariant 0.0 < eps < MAX_DIFF && eps < room
      invariant forall k :: 0 <= k < i && a[k].y < z ==> a[k].y < z - eps
    {
      if a[i].y < z && z - a[i].y <= eps {
        eps := (z - a[i].y) / 2.0;
      }
    }
  }

  method PointsAt(ys: seq<real>) returns (points: seq<Point>)
    ensures |points| == |ys| && fresh(set p | p in points)
    ensures forall i :: 0 <= i < |ys| ==> points[i].y == ys[i]
  {
    points := [];
    for i := 0 to |ys|
      invariant |points| == i && fresh(set p | p in points)
      invariant forall k :: 0 <= k < i ==> points[k].y == ys[k]
    {
      var p := new Point(0.0, ys[i]);
      points := points + [p];
    }
  }

  /**
    For any start line that is not spaced: horizontal lines around it, made of new points, for
    which one of its points is in two vertical lines.
   */
  method SplitStartLine(a: seq<Point>) returns (lines: seq<GridLine>)
    requires a != [] && SortedBy(a, Y) && !Spaced(a, Y)
    ensures |lines| == 8 && NoEmptyLine(lines) && lines[2].points == a && OwnStart(lines)
    ensures forall i :: 0 <= i < 8 ==> SortedBy(lines[i].points, Y)
    ensures SomeTwice(VerticalSlots(lines, 0), a)
  {
    hide Grouped, Groups, Run, Spaced, VerticalSlots, SomeTwice;
    var m := Grouped(a, Y);
    var l := SteepGroup(a);
    GroupedRun(a, Y);
    GroupsSorted(m, a[|a| - 1].y, Y);
    var z := m[l].key;
    var eps := SmallStep(a, z, if l + 1 < |m| then m[l + 1].key - z - MAX_DIFF else 1.0);
    var ws := PointsAt(seq(l + 1, i requires 0 <= i <= l => m[i].key - MAX_DIFF));
    var top := PointsAt([z + eps]);
    var any := PointsAt([0.0]);
    var o := GridLine(SUBGRID_B, any);
    lines := [GridLine(SUBGRID_A, any), o, GridLine(SUBGRID_A, a), o, GridLine(SUBGRID_A, ws), o,
              GridLine(SUBGRID_A, top), o];
    forall k | 0 <= k < |a|
      ensures OnlyOn(lines, 2, a[k])
    {
      OnlyStart(lines, a, any, ws, top, a[k]);
    }
    assert Splitting(lines, l, eps);
    SplitInTwo(lines, l, eps);
  }

  lemma {:induction false} OnlyStart(lines: seq<GridLine>, a: seq<Point>, any: seq<Point>, ws: seq<Point>,
                                     top: seq<Point>, p: Point)
    requires |lines| == 8 && lines[2].points == a && SortedBy(a, Y)
    requires lines[0].points == lines[1].points == lines[3].points == lines[5].points == lines[7].points == any
    requires lines[4].points == ws && lines[6].points == top
    requires p !in any && p !in ws && p !in top
    ensures OnlyOn(lines, 2, p)
  {
  }
}
