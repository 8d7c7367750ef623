/** The position of a line as the average over its middle third (lib/calibration/linegrid.cpp:47-80). */
module LineAverages {
  import opened Common
  import opened LineGrids
  import opened PointLines
  import opened PointGridSpec
  import opened MathUtil

  /** Horizontal lines use every point of the middle third, vertical lines every other one. */
  function FirstIndex(n: nat, step: nat): nat {
    var start := n / 3;
    if step == 2 && start % 2 == 1 then start - 1 else start
  }

  /** The coordinates of the points `i`, `i + step`, ... before `stop`. */
  function Every(points: seq<Point>, c: Coordinate, i: nat, stop: nat, step: nat): seq<real>
    requires stop <= |points| && step > 0
    decreases stop - i
  {
    if i >= stop then [] else [At(points[i], c)] + Every(points, c, i + step, stop, step)
  }

  function Middle(points: seq<Point>, c: Coordinate, step: nat): seq<real>
    requires 1 <= step <= 2
  {
    Every(points, c, FirstIndex(|points|, step), 2 * |points| / 3, step)
  }

  ghost predicate Within(points: seq<Point>, c: Coordinate, lo: real, hi: real) {
    forall k :: 0 <= k < |points| ==> lo <= At(points[k], c) <= hi
  }

  lemma {:induction false} EveryBounds(points: seq<Point>, c: Coordinate, i: nat, stop: nat, step: nat, lo: real, hi: real)
    requires stop <= |points| && step > 0
    requires Within(points, c, lo, hi)
    ensures forall k :: 0 <= k < |Every(points, c, i, stop, step)| ==> lo <= Every(points, c, i, stop, step)[k] <= hi
    decreases stop - i
  {
    if i < stop {
      EveryBounds(points, c, i + step, stop, step, lo, hi);
    }
  }

  lemma {:induction false} SumPrepend(x: real, xs: seq<real>)
    ensures Sum([x] + xs) == x + Sum(xs)
  {
    if xs == [] {
      assert [x] + xs == [x] && [x][..0] == [];
    } else {
      var n := |xs| - 1;
      assert ([x] + xs)[..n + 1] == [x] + xs[..n];
      SumPrepend(x, xs[..n]);
    }
  }

  lemma {:induction false} EveryAt(points: seq<Point>, c: Coordinate, i: nat, stop: nat, step: nat)
    requires i <= stop + 1 && stop <= |points| && 1 <= step <= 2
    ensures var e := Every(points, c, i, stop, step);
            && |e| == (if i >= stop then 0 else if step == 1 then stop - i else (stop - i + 1) / 2)
            && forall k :: 0 <= k < |e| ==> i + step * k < stop && e[k] == At(points[i + step * k], c)
    decreases stop - i
  {
    if i < stop {
      EveryAt(points, c, i + step, stop, step);
      var e, rest := Every(points, c, i, stop, step), Every(points, c, i + step, stop, step);
      forall k | 0 <= k < |e|
        ensures i + step * k < stop && e[k] == At(points[i + step * k], c)
      {
        if k > 0 {
          assert e[k] == rest[k - 1];
          assert i + step * k == i + step + step * (k - 1);
        }
      }
    }
  }

  /** Horizontal lines are averaged over all points of the middle third. */
  lemma {:induction false} MiddleOfHorizontal(points: seq<Point>, c: Coordinate)
    ensures var m, n := Middle(points, c, 1), |points|;
            |m| == 2 * n / 3 - n / 3 && forall k :: 0 <= k < |m| ==> n / 3 + k < n && m[k] == At(points[n / 3 + k], c)
  {
    EveryAt(points, c, |points| / 3, 2 * |points| / 3, 1);
  }

  /** Vertical lines are averaged over the points with even index from the even start of the middle third on. */
  lemma {:induction false} MiddleOfVertical(points: seq<Point>, c: Coordinate)
    ensures var m, n := Middle(points, c, 2), |points|;
            var start := 2 * (n / 3 / 2);
            && |m| == (if start >= 2 * n / 3 then 0 else (2 * n / 3 - start + 1) / 2)
            && forall k :: 0 <= k < |m| ==> start + 2 * k < n && m[k] == At(points[start + 2 * k], c)
  {
    EveryAt(points, c, FirstIndex(|points|, 2), 2 * |points| / 3, 2);
  }

  /** There is something to average exactly when the line has two points. */
  lemma MiddleNotEmptyIff(points: seq<Point>, c: Coordinate, step: nat)
    requires 1 <= step <= 2
    ensures Middle(points, c, step) != [] <==> |points| >= 2
  {
    var n := |points|;
    assert FirstIndex(n, step) < 2 * n / 3 <==> n >= 2;
  }

  /** `None` stands for the not-a-number position of a line without averaged points. */
  method AverageLine(points: seq<Point>, c: Coordinate, step: nat) returns (position: Option<real>)
    requires 1 <= step <= 2
    ensures position.Some? <==> |points| >= 2
    ensures position.Some? ==> Middle(points, c, step) != [] && position.value == Mean(Middle(points, c, step))
    ensures position.Some? ==> forall lo, hi :: Within(points, c, lo, hi) ==> lo <= position.value <= hi
  {
    hide Sum;
    MiddleNotEmptyIff(points, c, step);
    var sum, count := 0.0, 0;
    var stop := 2 * |points| / 3;
    var i := FirstIndex(|points|, step);
    ghost var all := Middle(points, c, step);
    SumOfNone();
    while i < stop
      invariant Sum(all) == sum + Sum(Every(points, c, i, stop, step))
      invariant |all| == count + |Every(points, c, i, stop, step)|
      decreases stop - i
    {
      SumPrepend(At(points[i], c), Every(points, c, i + step, stop, step));
      sum := sum + At(points[i], c);
      count := count + 1;
      i := i + step;
    }
    position := if count == 0 then None else Some(sum / count as real);
    forall lo, hi | position.Some? && Within(points, c, lo, hi)
      ensures lo <= position.value <= hi
    {
      EveryBounds(points, c, FirstIndex(|points|, step), stop, step, lo, hi);
      MeanBounds(all, lo, hi);
    }
  }

  lemma SumOfNone()
    ensures Sum([]) == 0.0
  {
  }

  /** The line grid of the lines of a point grid; undefined if a line has fewer than two points. */
  method LinesOf(lines: seq<GridLine>, c: Coordinate, step: nat) returns (r: Option<seq<Line>>)
    requires 1 <= step <= 2
    ensures r.Some? <==> forall i :: 0 <= i < |lines| ==> |lines[i].points| >= 2
    ensures r.Some? ==> |r.value| == |lines| && forall i :: 0 <= i < |lines| ==>
              && Middle(lines[i].points, c, step) != []
              && r.value[i] == Line(lines[i].subgrid, Mean(Middle(lines[i].points, c, step)))
  {
    hide Middle, Mean;
    var result: seq<Line> := [];
    var defined := true;
    for i := 0 to |lines|
      invariant defined <==> forall k :: 0 <= k < i ==> |lines[k].points| >= 2
      invariant defined ==> |result| == i
      invariant defined ==> forall k :: 0 <= k < i ==>
                  && Middle(lines[k].points, c, step) != []
                  && result[k] == Line(lines[k].subgrid, Mean(Middle(lines[k].points, c, step)))
    {
      var position := AverageLine(lines[i].points, c, step);
      if position.Some? && defined {
        result := result + [Line(lines[i].subgrid, position.value)];
      } else {
        defined := false;
      }
    }
    r := if defined then Some(result) else None;
  }

  /**
    The line grid of a point grid: the x of horizontal lines over all points of their middle
    third, the y of vertical lines over every other point.
   */
  method LineGridOf(horizontal: seq<GridLine>, vertical: seq<GridLine>) returns (r: Option<LineGrid>)
    ensures r.Some? <==> && (forall i :: 0 <= i < |horizontal| ==> |horizontal[i].points| >= 2)
                         && (forall i :: 0 <= i < |vertical| ==> |vertical[i].points| >= 2)
    ensures r.Some? ==> |r.value.horizontal| == |horizontal| && |r.value.vertical| == |vertical|
    ensures r.Some? ==> forall i :: 0 <= i < |horizontal| ==>
              && Middle(horizontal[i].points, X, 1) != []
              && r.value.horizontal[i] == Line(horizontal[i].subgrid, Mean(Middle(horizontal[i].points, X, 1)))
    ensures r.Some? ==> forall i :: 0 <= i < |vertical| ==>
              && Middle(vertical[i].points, Y, 2) != []
              && r.value.vertical[i] == Line(vertical[i].subgrid, Mean(Middle(vertical[i].points, Y, 2)))
  {
    hide Middle, Mean;
    var hs := LinesOf(horizontal, X, 1);
    var vs := LinesOf(vertical, Y, 2);
    r := if hs.Some? && vs.Some? then Some(LineGrid(hs.value, vs.value)) else None;
  }
}
