/**
  The row-by-row fill of `findCentroid` as a function of the set of OBJECT pixels
  (lib/calibration/lensdetector.cpp:40-149), and the connectivity it is meant to follow.
 */
module FloodFill {
  import opened Common

  const MAX_LENS_SIZE := 15

  datatype Pixel = Pixel(y: int, x: int)

  /** Columns `left` to `right` of one row, both included. */
  datatype Span = Span(left: int, right: int)

  /** The limits of the search around a start pixel. */
  datatype Window = Window(minx: int, maxx: int, maxy: int)

  function Min(a: int, b: int): int { if a < b then a else b }
  function Max(a: int, b: int): int { if a < b then b else a }

  function WindowOf(start: Pixel, rows: int, cols: int): Window {
    Window(Max(start.x - MAX_LENS_SIZE, 0), Min(start.x + MAX_LENS_SIZE, cols), Min(start.y + MAX_LENS_SIZE, rows))
  }

  // ---------------------------------------------------------------- one row

  /** The leftmost column of the object run that reaches left from `x`. */
  function LeftEnd(obj: set<Pixel>, y: int, x: int, minx: int): (l: int)
    ensures l <= x && (minx <= x ==> minx <= l)
    ensures forall c :: l <= c < x ==> Pixel(y, c) in obj
    ensures l - 1 < minx || Pixel(y, l - 1) !in obj
    decreases x - minx
  {
    if x - 1 >= minx && Pixel(y, x - 1) in obj then LeftEnd(obj, y, x - 1, minx) else x
  }

  /** The column after the object run that starts at `x`. */
  function RightStop(obj: set<Pixel>, y: int, x: int, maxx: int): (r: int)
    ensures x <= r && (x <= maxx ==> r <= maxx)
    ensures forall c :: x <= c < r ==> Pixel(y, c) in obj
    ensures r >= maxx || Pixel(y, r) !in obj
    decreases maxx - x
  {
    if x < maxx && Pixel(y, x) in obj then RightStop(obj, y, x + 1, maxx) else x
  }

  /** The first object column from `x` to `endx`, or the column after `endx`. */
  function FirstObject(obj: set<Pixel>, y: int, x: int, endx: int): (s: int)
    requires x <= endx + 1
    ensures x <= s <= endx + 1
    ensures forall c :: x <= c < s ==> Pixel(y, c) !in obj
    ensures s <= endx ==> Pixel(y, s) in obj
    decreases endx - x
  {
    if x > endx || Pixel(y, x) in obj then x else FirstObject(obj, y, x + 1, endx)
  }

  /** The pixels filled in row `y` when the row above was filled from `startx` to `endx`. */
  function FillRow(obj: set<Pixel>, y: int, startx: int, endx: int, w: Window): Option<Span>
    requires startx <= endx
  {
    if Pixel(y, startx) in obj then
      Some(Span(LeftEnd(obj, y, startx, w.minx), RightStop(obj, y, startx, w.maxx) - 1))
    else
      var s := FirstObject(obj, y, startx, endx);
      if s > endx then None else Some(Span(s, RightStop(obj, y, s, w.maxx) - 1))
  }

  /** What every filled row satisfies, whatever the mask holds. */
  lemma FillRowBounds(obj: set<Pixel>, y: int, startx: int, endx: int, w: Window)
    requires w.minx <= startx <= endx < w.maxx
    ensures var r := FillRow(obj, y, startx, endx, w);
            if r.None? then forall c :: startx <= c <= endx ==> Pixel(y, c) !in obj
            else
              var l, e := r.value.left, r.value.right;
              && w.minx <= l <= e < w.maxx
              && (forall c :: l <= c <= e ==> Pixel(y, c) in obj)
              && (Pixel(y, l - 1) !in obj || l == w.minx)
              && (Pixel(y, e + 1) !in obj || e + 1 == w.maxx)
              && (forall c :: startx <= c < l ==> Pixel(y, c) !in obj)
              && l <= endx && startx <= e
  {
    var r := FillRow(obj, y, startx, endx, w);
    if Pixel(y, startx) in obj {
      var stop := RightStop(obj, y, startx, w.maxx);
      assert stop > startx;
    } else {
      var s := FirstObject(obj, y, startx, endx);
      if s <= endx {
        assert RightStop(obj, y, s, w.maxx) > s;
        assert Pixel(y, s - 1) !in obj;
      }
    }
  }

  // ---------------------------------------------------------------- all rows

  /** The filled spans of the rows `y`, `y + 1`, ... */
  function Fill(obj: set<Pixel>, y: int, startx: int, endx: int, w: Window): seq<Span>
    requires w.minx <= startx <= endx < w.maxx
    decreases w.maxy - y
  {
    if y >= w.maxy then []
    else
      FillRowBounds(obj, y, startx, endx, w);
      var r := FillRow(obj, y, startx, endx, w);
      if r.None? then [] else [r.value] + Fill(obj, y + 1, r.value.left, r.value.right, w)
  }

  ghost predicate Covers(spans: seq<Span>, y: int, p: Pixel) {
    0 <= p.y - y < |spans| && spans[p.y - y].left <= p.x <= spans[p.y - y].right
  }

  /** Row `i` of a fill is the row fill below row `i - 1`, and the fill ends where that finds nothing. */
  lemma {:induction false} FillRows(obj: set<Pixel>, y: int, startx: int, endx: int, w: Window, i: nat)
    requires w.minx <= startx <= endx < w.maxx
    requires i <= |Fill(obj, y, startx, endx, w)|
    ensures var spans := Fill(obj, y, startx, endx, w);
            var l := if i == 0 then startx else spans[i - 1].left;
            var e := if i == 0 then endx else spans[i - 1].right;
            && w.minx <= l <= e < w.maxx
            && (i < |spans| ==> y + i < w.maxy && FillRow(obj, y + i, l, e, w) == Some(spans[i]))
            && (i == |spans| ==> y + i >= w.maxy || FillRow(obj, y + i, l, e, w) == None)
    decreases i
  {
    hide FillRow;
    if y < w.maxy {
      FillRowBounds(obj, y, startx, endx, w);
      var r := FillRow(obj, y, startx, endx, w);
      if i > 0 && r.Some? {
        FillRows(obj, y + 1, r.value.left, r.value.right, w, i - 1);
      }
    }
  }

  // ---------------------------------------------------------------- connectivity

  ghost predicate Adjacent(p: Pixel, q: Pixel) {
    (p.y == q.y && (p.x == q.x + 1 || p.x == q.x - 1)) || (p.x == q.x && (p.y == q.y + 1 || p.y == q.y - 1))
  }

  ghost predicate IsPath(s: set<Pixel>, path: seq<Pixel>) {
    && path != []
    && (forall i :: 0 <= i < |path| ==> path[i] in s)
    && (forall i :: 0 <= i < |path| - 1 ==> Adjacent(path[i], path[i + 1]))
  }

  /** `q` is connected to `p` by side-adjacent pixels of `s`. */
  ghost predicate Reach(s: set<Pixel>, p: Pixel, q: Pixel) {
    exists path :: IsPath(s, path) && path[0] == p && path[|path| - 1] == q
  }

  lemma ReachSelf(s: set<Pixel>, p: Pixel)
    requires p in s
    ensures Reach(s, p, p)
  {
    assert IsPath(s, [p]);
  }

  lemma ReachStep(s: set<Pixel>, p: Pixel, q: Pixel, r: Pixel)
    requires Reach(s, p, q) && Adjacent(q, r) && r in s
    ensures Reach(s, p, r)
  {
    var path :| IsPath(s, path) && path[0] == p && path[|path| - 1] == q;
    var longer := path + [r];
    assert IsPath(s, longer);
    assert longer[0] == p && longer[|longer| - 1] == r;
  }

  lemma ReachMember(s: set<Pixel>, p: Pixel, q: Pixel)
    requires Reach(s, p, q)
    ensures p in s && q in s
  {
    var path :| IsPath(s, path) && path[0] == p && path[|path| - 1] == q;
  }

  lemma ReachMono(s: set<Pixel>, t: set<Pixel>, p: Pixel, q: Pixel)
    requires Reach(s, p, q) && forall r :: r in s ==> r in t
    ensures Reach(t, p, q)
  {
    var path :| IsPath(s, path) && path[0] == p && path[|path| - 1] == q;
    assert IsPath(t, path);
  }

  /** Along a row. */
  lemma {:induction false} ReachRow(s: set<Pixel>, p: Pixel, y: int, a: int, b: int)
    requires Reach(s, p, Pixel(y, a))
    requires forall c :: Min(a, b) <= c <= Max(a, b) ==> Pixel(y, c) in s
    ensures Reach(s, p, Pixel(y, b))
    decreases if a < b then b - a else a - b
  {
    if a != b {
      var next := if a < b then a + 1 else a - 1;
      ReachStep(s, p, Pixel(y, a), Pixel(y, next));
      ReachRow(s, p, y, next, b);
    }
  }

  /** A property that spreads to side-adjacent pixels of `s` holds of everything reached. */
  lemma {:induction false} ReachInvariant(s: set<Pixel>, t: set<Pixel>, path: seq<Pixel>)
    requires IsPath(s, path) && path[0] in t
    requires forall p, q :: p in t && q in s && Adjacent(p, q) ==> q in t
    ensures path[|path| - 1] in t
  {
    if |path| > 1 {
      var n := |path| - 1;
      var shorter := path[..n];
      assert forall i :: 0 <= i < |shorter| ==> shorter[i] == path[i];
      ReachInvariant(s, t, shorter);
      assert Adjacent(path[n - 1], path[n]);
    }
  }

  // ---------------------------------------------------------------- what a fill marks

  /** The spans filled from a start pixel that is not in the last column. */
  function FillFrom(obj: set<Pixel>, start: Pixel, rows: int, cols: int): seq<Span>
    requires 0 <= start.x < cols - 1
  {
    Fill(obj, start.y, start.x, start.x + 1, WindowOf(start, rows, cols))
  }

  ghost function Marked(obj: set<Pixel>, start: Pixel, rows: int, cols: int): set<Pixel>
    requires 0 <= start.x < cols - 1
  {
    set p | p in obj && Covers(FillFrom(obj, start, rows, cols), start.y, p)
  }

  /** The span above row `i` of the fill. */
  function SpanAbove(spans: seq<Span>, start: Pixel, i: nat): Span
    requires i <= |spans|
  {
    if i == 0 then Span(start.x, start.x + 1) else spans[i - 1]
  }

  /** Row `i` of the fill and the row above, in all detail. */
  lemma SpanBounds(obj: set<Pixel>, start: Pixel, rows: int, cols: int, i: nat)
    requires 0 <= start.x < cols - 1 && i < |FillFrom(obj, start, rows, cols)|
    ensures var w := WindowOf(start, rows, cols);
            var spans := FillFrom(obj, start, rows, cols);
            var a, s := SpanAbove(spans, start, i), spans[i];
            var y := start.y + i;
            && y < w.maxy && w.minx <= a.left <= a.right < w.maxx && w.minx <= s.left <= s.right < w.maxx
            && (forall c :: s.left <= c <= s.right ==> Pixel(y, c) in obj)
            && (Pixel(y, s.left - 1) !in obj || s.left == w.minx)
            && (Pixel(y, s.right + 1) !in obj || s.right + 1 == w.maxx)
            && (forall c :: a.left <= c < s.left ==> Pixel(y, c) !in obj)
            && s.left <= a.right && a.left <= s.right
  {
    hide Fill, FillRow;
    var w := WindowOf(start, rows, cols);
    var a := SpanAbove(FillFrom(obj, start, rows, cols), start, i);
    FillRows(obj, start.y, start.x, start.x + 1, w, i);
    FillRowBounds(obj, start.y + i, a.left, a.right, w);
  }

  /** The row after the last filled one is outside the window or has no object below the last span. */
  lemma FillEnds(obj: set<Pixel>, start: Pixel, rows: int, cols: int)
    requires 0 <= start.x < cols - 1
    ensures var w := WindowOf(start, rows, cols);
            var spans := FillFrom(obj, start, rows, cols);
            var a := SpanAbove(spans, start, |spans|);
            var y := start.y + |spans|;
            y < w.maxy ==> forall c :: a.left <= c <= a.right ==> Pixel(y, c) !in obj
  {
    hide Fill, FillRow;
    var w := WindowOf(start, rows, cols);
    var spans := FillFrom(obj, start, rows, cols);
    var a := SpanAbove(spans, start, |spans|);
    FillRows(obj, start.y, start.x, start.x + 1, w, |spans|);
    FillRowBounds(obj, start.y + |spans|, a.left, a.right, w);
  }

  lemma CoveredInObject(obj: set<Pixel>, start: Pixel, rows: int, cols: int, p: Pixel)
    requires 0 <= start.x < cols - 1
    ensures p in Marked(obj, start, rows, cols) <==> Covers(FillFrom(obj, start, rows, cols), start.y, p)
  {
    hide FillFrom;
    if Covers(FillFrom(obj, start, rows, cols), start.y, p) {
      SpanBounds(obj, start, rows, cols, p.y - start.y);
      assert p == Pixel(p.y, p.x);
    }
  }

  /** An object start is marked. */
  lemma StartMarked(obj: set<Pixel>, start: Pixel, rows: int, cols: int)
    requires 0 <= start.x < cols - 1 && start.y < rows && start in obj
    ensures start in Marked(obj, start, rows, cols)
  {
    hide Fill, FillRow;
    var spans := FillFrom(obj, start, rows, cols);
    CoveredInObject(obj, start, rows, cols, start);
    FillEnds(obj, start, rows, cols);
    assert start == Pixel(start.y, start.x);
    if spans != [] {
      SpanBounds(obj, start, rows, cols, 0);
    }
  }

  /**
    Whatever the mask holds, the marked pixels are connected to the start through marked
    pixels.
   */
  lemma {:induction false} MarkedConnected(obj: set<Pixel>, start: Pixel, rows: int, cols: int, i: nat, c: int)
    requires 0 <= start.x < cols - 1 && start.y < rows && start in obj
    requires i < |FillFrom(obj, start, rows, cols)|
    requires FillFrom(obj, start, rows, cols)[i].left <= c <= FillFrom(obj, start, rows, cols)[i].right
    ensures Reach(Marked(obj, start, rows, cols), start, Pixel(start.y + i, c))
    decreases i
  {
    hide FillFrom, Marked, Reach;
    var spans, m := FillFrom(obj, start, rows, cols), Marked(obj, start, rows, cols);
    var y := start.y + i;
    SpanBounds(obj, start, rows, cols, i);
    forall x | spans[i].left <= x <= spans[i].right
      ensures Pixel(y, x) in m
    {
      CoveredInObject(obj, start, rows, cols, Pixel(y, x));
    }
    if i == 0 {
      StartMarked(obj, start, rows, cols);
      CoveredInObject(obj, start, rows, cols, start);
      ReachSelf(m, start);
      assert start == Pixel(y, start.x);
      ReachRow(m, start, y, start.x, c);
    } else {
      var x := Max(spans[i - 1].left, spans[i].left);
      MarkedConnected(obj, start, rows, cols, i - 1, x);
      ReachStep(m, start, Pixel(y - 1, x), Pixel(y, x));
      ReachRow(m, start, y, x, c);
    }
  }

  // ---------------------------------------------------------------- complete fills

  ghost predicate RowMajorFirst(obj: set<Pixel>, start: Pixel) {
    forall q :: Reach(obj, start, q) ==> start.y < q.y || (start.y == q.y && start.x <= q.x)
  }

  /** Every row of the component is one interval. */
  ghost predicate RowConvex(obj: set<Pixel>, start: Pixel) {
    forall y, a, b, c :: Reach(obj, start, Pixel(y, a)) && Reach(obj, start, Pixel(y, c)) && a <= b <= c
                         ==> Pixel(y, b) in obj
  }

  ghost predicate FitsWindow(obj: set<Pixel>, start: Pixel, w: Window) {
    forall q :: Reach(obj, start, q) ==> q.y < w.maxy && w.minx <= q.x < w.maxx
  }

  /** The component is less than 15 rows high, and at most 15 columns to the left and less than 15 to the right. */
  ghost predicate HasRoom(obj: set<Pixel>, start: Pixel) {
    forall q :: Reach(obj, start, q) ==> start.x - 15 <= q.x < start.x + 15 && q.y < start.y + 15
  }

  ghost predicate InImage(obj: set<Pixel>, rows: int, cols: int) {
    forall p :: p in obj ==> 0 <= p.y < rows && 0 <= p.x < cols
  }

  /** Inside the image the search window is the room. */
  lemma RoomIsWindow(obj: set<Pixel>, start: Pixel, rows: int, cols: int)
    requires start in obj && InImage(obj, rows, cols)
    ensures HasRoom(obj, start) <==> FitsWindow(obj, start, WindowOf(start, rows, cols))
  {
    forall q | Reach(obj, start, q)
      ensures q in obj
    {
      ReachMember(obj, start, q);
    }
  }

  /** The shapes the fill is meant for: row-convex objects no larger than a lens, started at their first pixel. */
  ghost predicate IsLens(obj: set<Pixel>, start: Pixel) {
    start in obj && RowMajorFirst(obj, start) && RowConvex(obj, start) && HasRoom(obj, start)
  }

  /** What a complete fill needs: nothing of the component above the start, convex rows, and room for it. */
  ghost predicate Fillable(obj: set<Pixel>, start: Pixel, rows: int, cols: int) {
    && start in obj
    && NothingAbove(obj, start) && RowConvex(obj, start)
    && FitsWindow(obj, start, WindowOf(start, rows, cols))
  }

  ghost predicate NothingAbove(obj: set<Pixel>, start: Pixel) {
    forall q :: Reach(obj, start, q) ==> start.y <= q.y
  }

  lemma MarkedReached(obj: set<Pixel>, start: Pixel, rows: int, cols: int, p: Pixel)
    requires 0 <= start.x < cols - 1 && start.y < rows && start in obj
    requires p in Marked(obj, start, rows, cols)
    ensures Reach(Marked(obj, start, rows, cols), start, p) && Reach(obj, start, p)
  {
    hide FillFrom, Reach;
    var m := Marked(obj, start, rows, cols);
    CoveredInObject(obj, start, rows, cols, p);
    MarkedConnected(obj, start, rows, cols, p.y - start.y, p.x);
    assert p == Pixel(start.y + (p.y - start.y), p.x);
    ReachMono(m, obj, start, p);
  }

  /** A filled row is the whole row of the component. */
  lemma SpanIsWholeRow(obj: set<Pixel>, start: Pixel, rows: int, cols: int, i: nat, x: int)
    requires 0 <= start.x < cols - 1 && start.y < rows && Fillable(obj, start, rows, cols)
    requires i < |FillFrom(obj, start, rows, cols)| && Reach(obj, start, Pixel(start.y + i, x))
    ensures FillFrom(obj, start, rows, cols)[i].left <= x <= FillFrom(obj, start, rows, cols)[i].right
  {
    hide FillFrom, Reach, NothingAbove, Marked;
    var s, y := FillFrom(obj, start, rows, cols)[i], start.y + i;
    SpanBounds(obj, start, rows, cols, i);
    CoveredInObject(obj, start, rows, cols, Pixel(y, s.left));
    CoveredInObject(obj, start, rows, cols, Pixel(y, s.right));
    MarkedReached(obj, start, rows, cols, Pixel(y, s.left));
    MarkedReached(obj, start, rows, cols, Pixel(y, s.right));
    assert FitsWindow(obj, start, WindowOf(start, rows, cols));
    assert x > s.right ==> Pixel(y, s.right + 1) in obj;
    assert x < s.left ==> Pixel(y, s.left - 1) in obj;
  }

  lemma NothingBelow(obj: set<Pixel>, start: Pixel, rows: int, cols: int, p: Pixel)
    requires 0 <= start.x < cols - 1 && Covers(FillFrom(obj, start, rows, cols), start.y, p)
    ensures p.y + 1 == start.y + |FillFrom(obj, start, rows, cols)| && p.y + 1 < WindowOf(start, rows, cols).maxy
            ==> Pixel(p.y + 1, p.x) !in obj
  {
    hide FillFrom;
    FillEnds(obj, start, rows, cols);
  }

  lemma MarkedClosed(obj: set<Pixel>, start: Pixel, rows: int, cols: int, p: Pixel, q: Pixel)
    requires 0 <= start.x < cols - 1 && start.y < rows && Fillable(obj, start, rows, cols)
    requires p in Marked(obj, start, rows, cols) && q in obj && Adjacent(p, q)
    ensures q in Marked(obj, start, rows, cols)
  {
    hide FillFrom, Reach, Marked, RowConvex;
    var spans := FillFrom(obj, start, rows, cols);
    CoveredInObject(obj, start, rows, cols, p);
    CoveredInObject(obj, start, rows, cols, q);
    MarkedReached(obj, start, rows, cols, p);
    ReachStep(obj, start, p, q);
    assert q == Pixel(start.y + (q.y - start.y), q.x);
    var i := q.y - start.y;
    assert 0 <= i <= |spans|;
    NothingBelow(obj, start, rows, cols, p);
    assert i == |spans| ==> q == Pixel(p.y + 1, p.x) && q.y < WindowOf(start, rows, cols).maxy;
    SpanIsWholeRow(obj, start, rows, cols, i, q.x);
  }

  /**
    Completeness: started in the first row of a row-convex component that fits the window, the
    fill marks exactly the pixels that are connected to the start.
   */
  lemma FillIsComponent(obj: set<Pixel>, start: Pixel, rows: int, cols: int, q: Pixel)
    requires 0 <= start.x < cols - 1 && start.y < rows && Fillable(obj, start, rows, cols)
    ensures q in Marked(obj, start, rows, cols) <==> Reach(obj, start, q)
  {
    hide Marked, Fillable;
    var m := Marked(obj, start, rows, cols);
    assert start in obj by { FillableStart(obj, start, rows, cols); }
    if q in m {
      MarkedReached(obj, start, rows, cols, q);
    }
    if Reach(obj, start, q) {
      var path :| IsPath(obj, path) && path[0] == start && path[|path| - 1] == q;
      StartMarked(obj, start, rows, cols);
      forall a, b | a in m && b in obj && Adjacent(a, b)
        ensures b in m
      {
        MarkedClosed(obj, start, rows, cols, a, b);
      }
      ReachInvariant(obj, m, path);
    }
  }

  lemma FillableStart(obj: set<Pixel>, start: Pixel, rows: int, cols: int)
    requires Fillable(obj, start, rows, cols)
    ensures start in obj
  {
  }

  lemma LensFillable(obj: set<Pixel>, start: Pixel, rows: int, cols: int)
    requires InImage(obj, rows, cols) && IsLens(obj, start)
    ensures Fillable(obj, start, rows, cols)
  {
    hide Reach, RowConvex, FitsWindow, HasRoom;
    RoomIsWindow(obj, start, rows, cols);
  }

  ghost predicate CompleteFill(obj: set<Pixel>, start: Pixel, rows: int, cols: int)
    requires 0 <= start.x < cols - 1
  {
    forall q :: q in Marked(obj, start, rows, cols) <==> Reach(obj, start, q)
  }

  lemma MarkedInWindow(obj: set<Pixel>, start: Pixel, rows: int, cols: int, p: Pixel)
    requires 0 <= start.x < cols - 1 && p in Marked(obj, start, rows, cols)
    ensures var w := WindowOf(start, rows, cols);
            start.y <= p.y < w.maxy && w.minx <= p.x < w.maxx
  {
    hide FillFrom;
    SpanBounds(obj, start, rows, cols, p.y - start.y);
  }

  lemma MarkedRow(obj: set<Pixel>, start: Pixel, rows: int, cols: int, y: int, a: int, b: int, c: int)
    requires 0 <= start.x < cols - 1 && a <= b <= c
    requires Pixel(y, a) in Marked(obj, start, rows, cols) && Pixel(y, c) in Marked(obj, start, rows, cols)
    ensures Pixel(y, b) in obj
  {
    hide FillFrom;
    SpanBounds(obj, start, rows, cols, y - start.y);
  }

  /**
    Started at any object pixel outside the last column, the fill marks exactly the component
    if and only if nothing of the component is above the start, its rows are intervals, and it
    reaches at most 15 columns to the left, and less than 15 to the right and down.
   */
  lemma FillIsComponentIff(obj: set<Pixel>, start: Pixel, rows: int, cols: int)
    requires InImage(obj, rows, cols) && start in obj && start.x < cols - 1
    ensures (forall q :: q in Marked(obj, start, rows, cols) <==> Reach(obj, start, q)) <==>
            && (forall q :: Reach(obj, start, q) ==> start.y <= q.y)
            && RowConvex(obj, start)
            && (forall q :: Reach(obj, start, q) ==> start.x - 15 <= q.x < start.x + 15 && q.y < start.y + 15)
  {
    hide Marked, Reach, RowConvex;
    CompleteIffFillable(obj, start, rows, cols);
    RoomIsWindow(obj, start, rows, cols);
  }

  lemma CompleteIffFillable(obj: set<Pixel>, start: Pixel, rows: int, cols: int)
    requires 0 <= start.x < cols - 1 && start.y < rows && start in obj
    ensures CompleteFill(obj, start, rows, cols) <==> Fillable(obj, start, rows, cols)
  {
    hide Marked, Reach;
    if Fillable(obj, start, rows, cols) {
      forall q
        ensures q in Marked(obj, start, rows, cols) <==> Reach(obj, start, q)
      {
        FillIsComponent(obj, start, rows, cols, q);
      }
    }
    if CompleteFill(obj, start, rows, cols) {
      forall q | Reach(obj, start, q)
        ensures start.y <= q.y
        ensures q.y < WindowOf(start, rows, cols).maxy
        ensures WindowOf(start, rows, cols).minx <= q.x < WindowOf(start, rows, cols).maxx
      {
        MarkedInWindow(obj, start, rows, cols, q);
      }
      forall y, a, b, c | Reach(obj, start, Pixel(y, a)) && Reach(obj, start, Pixel(y, c)) && a <= b <= c
        ensures Pixel(y, b) in obj
      {
        MarkedRow(obj, start, rows, cols, y, a, b, c);
      }
    }
  }
}
