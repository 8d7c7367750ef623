/** `findCentroid` as it runs (lib/calibration/lensdetector.cpp). */
module LensDetector {
  import opened Common
  import opened FloodFill
  import opened PixelMoments

  const PROCESSED := 128
  const OBJECT := 255

  /** The OBJECT pixels of a mask. */
  ghost function Objects(mask: array2<int>): set<Pixel>
    reads mask
  {
    set y, x | 0 <= y < mask.Length0 && 0 <= x < mask.Length1 && mask[y, x] == OBJECT :: Pixel(y, x)
  }

  lemma LeftEndIs(obj: set<Pixel>, y: int, x: int, minx: int, l: int)
    requires minx <= l <= x
    requires forall c :: l <= c < x ==> Pixel(y, c) in obj
    requires l - 1 < minx || Pixel(y, l - 1) !in obj
    ensures LeftEnd(obj, y, x, minx) == l
  {
    var e := LeftEnd(obj, y, x, minx);
    assert e < l ==> Pixel(y, l - 1) in obj;
    assert l < e ==> Pixel(y, e - 1) in obj;
  }

  lemma RightStopIs(obj: set<Pixel>, y: int, x: int, maxx: int, r: int)
    requires x <= r <= maxx
    requires forall c :: x <= c < r ==> Pixel(y, c) in obj
    requires r >= maxx || Pixel(y, r) !in obj
    ensures RightStop(obj, y, x, maxx) == r
  {
    var e := RightStop(obj, y, x, maxx);
    assert e < r ==> Pixel(y, e) in obj;
    assert r < e ==> Pixel(y, r) in obj;
  }

  lemma FirstObjectIs(obj: set<Pixel>, y: int, x: int, endx: int, s: int)
    requires x <= s <= endx + 1
    requires forall c :: x <= c < s ==> Pixel(y, c) !in obj
    requires s <= endx ==> Pixel(y, s) in obj
    ensures FirstObject(obj, y, x, endx) == s
  {
    var e := FirstObject(obj, y, x, endx);
    assert e < s ==> Pixel(y, e) !in obj;
    assert s < e ==> Pixel(y, s) !in obj;
  }

  /** Add the pixel to the moments and mark it. */
  method Visit(image: Image, mask: array2<int>, y: nat, x: nat, m: Moments) returns (m': Moments)
    requires Shaped(image, mask.Length0, mask.Length1) && y < mask.Length0 && x < mask.Length1
    modifies mask
    ensures m' == m.Plus(Weight(image, y, x))
    ensures forall r, c :: 0 <= r < mask.Length0 && 0 <= c < mask.Length1 ==>
              mask[r, c] == if r == y && c == x then PROCESSED else old(mask[r, c])
  {
    m' := Moments(m.m01 + x * image[y][x], m.m10 + y * image[y][x], m.sum + image[y][x]);
    mask[y, x] := PROCESSED;
  }

  /** Mark the object run left of `x0`. */
  method FillLeft(image: Image, mask: array2<int>, y: nat, x0: nat, minx: nat, m: Moments)
    returns (startx: nat, m': Moments)
    requires Shaped(image, mask.Length0, mask.Length1) && y < mask.Length0 && minx <= x0 < mask.Length1
    modifies mask
    ensures startx == LeftEnd(old(Objects(mask)), y, x0, minx) && minx <= startx <= x0
    ensures m' == m.Plus(SpanMoments(image, y, startx, x0))
    ensures forall r, c :: 0 <= r < mask.Length0 && 0 <= c < mask.Length1 ==>
              mask[r, c] == if r == y && startx <= c < x0 then PROCESSED else old(mask[r, c])
  {
    hide Weight, LeftEnd;
    startx, m' := x0, m;
    var x: int := x0 - 1;
    while x >= minx && mask[y, x] == OBJECT
      invariant x == startx - 1 && minx <= startx <= x0
      invariant forall c :: startx <= c < x0 ==> Pixel(y, c) in old(Objects(mask))
      invariant m' == m.Plus(SpanMoments(image, y, startx, x0))
      invariant forall r, c :: 0 <= r < mask.Length0 && 0 <= c < mask.Length1 ==>
                  mask[r, c] == if r == y && startx <= c < x0 then PROCESSED else old(mask[r, c])
    {
      SpanMomentsLeft(image, y, x, x0);
      m' := Visit(image, mask, y, x, m');
      startx := startx - 1;
      x := x - 1;
    }
    LeftEndIs(old(Objects(mask)), y, x0, minx, startx);
  }

  /** Mark the object run from `x0` on. */
  method FillRight(image: Image, mask: array2<int>, y: nat, x0: nat, maxx: nat, m: Moments)
    returns (x: nat, m': Moments)
    requires Shaped(image, mask.Length0, mask.Length1) && y < mask.Length0 && x0 <= maxx <= mask.Length1
    modifies mask
    ensures x == RightStop(old(Objects(mask)), y, x0, maxx) && x0 <= x <= maxx
    ensures m' == m.Plus(SpanMoments(image, y, x0, x))
    ensures forall r, c :: 0 <= r < mask.Length0 && 0 <= c < mask.Length1 ==>
              mask[r, c] == if r == y && x0 <= c < x then PROCESSED else old(mask[r, c])
  {
    hide Weight, RightStop;
    x, m' := x0, m;
    while x < maxx && mask[y, x] == OBJECT
      invariant x0 <= x <= maxx
      invariant forall c :: x0 <= c < x ==> Pixel(y, c) in old(Objects(mask))
      invariant m' == m.Plus(SpanMoments(image, y, x0, x))
      invariant forall r, c :: 0 <= r < mask.Length0 && 0 <= c < mask.Length1 ==>
                  mask[r, c] == if r == y && x0 <= c < x then PROCESSED else old(mask[r, c])
    {
      m' := Visit(image, mask, y, x, m');
      x := x + 1;
    }
    RightStopIs(old(Objects(mask)), y, x0, maxx, x);
  }

  /** Skip to the first object column between `startx` and `endx`. */
  method FindStart(mask: array2<int>, y: nat, startx: nat, endx: nat) returns (s: nat)
    requires y < mask.Length0 && startx <= endx < mask.Length1
    ensures s == FirstObject(Objects(mask), y, startx, endx)
  {
    hide FirstObject;
    s := startx;
    while s <= endx && mask[y, s] != OBJECT
      invariant startx <= s <= endx + 1
      invariant forall c :: startx <= c < s ==> Pixel(y, c) !in Objects(mask)
    {
      s := s + 1;
    }
    FirstObjectIs(Objects(mask), y, startx, endx, s);
  }

  /** The right end does not depend on pixels left of the start. */
  lemma RightStopAgrees(obj: set<Pixel>, obj': set<Pixel>, y: int, x: int, maxx: int)
    requires x <= maxx && forall c :: x <= c < maxx ==> (Pixel(y, c) in obj <==> Pixel(y, c) in obj')
    ensures RightStop(obj, y, x, maxx) == RightStop(obj', y, x, maxx)
  {
    RightStopIs(obj', y, x, maxx, RightStop(obj, y, x, maxx));
  }

  /** Fill one row, given the span of the row above. */
  method FillOneRow(image: Image, mask: array2<int>, y: nat, above: Span, w: Window, m: Moments)
    returns (span: Option<Span>, m': Moments)
    requires Shaped(image, mask.Length0, mask.Length1) && y < mask.Length0
    requires 0 <= w.minx <= above.left <= above.right < w.maxx <= mask.Length1
    modifies mask
    ensures span == FillRow(old(Objects(mask)), y, above.left, above.right, w)
    ensures span.Some? ==> w.minx <= span.value.left <= span.value.right < w.maxx
    ensures m' == if span.Some? then m.Plus(SpanMoments(image, y, span.value.left, span.value.right + 1)) else m
    ensures forall r, c :: 0 <= r < mask.Length0 && 0 <= c < mask.Length1 ==>
              mask[r, c] == if span.Some? && r == y && span.value.left <= c <= span.value.right then PROCESSED
                            else old(mask[r, c])
  {
    hide LeftEnd, RightStop, FirstObject, SpanMoments, Weight;
    ghost var obj := Objects(mask);
    FillRowBounds(obj, y, above.left, above.right, w);
    if mask[y, above.left] == OBJECT {
      var startx, x;
      startx, m' := FillLeft(image, mask, y, above.left, w.minx, m);
      RightStopAgrees(obj, Objects(mask), y, above.left, w.maxx);
      x, m' := FillRight(image, mask, y, above.left, w.maxx, m');
      SpanMomentsSplit(image, y, startx, above.left, x);
      span := Some(Span(startx, x - 1));
    } else {
      var s := FindStart(mask, y, above.left, above.right);
      if s > above.right {
        return None, m;
      }
      var x;
      x, m' := FillRight(image, mask, y, s, w.maxx, m);
      span := Some(Span(s, x - 1));
    }
  }

  /** All spans of a fill lie in the image. */
  lemma FillInside(image: Image, obj: set<Pixel>, start: Pixel, rows: nat, cols: nat)
    requires Shaped(image, rows, cols) && 0 <= start.y < rows && 0 <= start.x < cols - 1
    ensures SpansInside(image, start.y, FillFrom(obj, start, rows, cols))
  {
    hide FillFrom;
    var spans := FillFrom(obj, start, rows, cols);
    forall i | 0 <= i < |spans|
      ensures start.y + i < rows && 0 <= spans[i].left <= spans[i].right < cols
    {
      SpanBounds(obj, start, rows, cols, i);
    }
    if spans != [] {
      SpanBounds(obj, start, rows, cols, |spans| - 1);
    }
  }

  lemma PrefixInside(image: Image, y: nat, spans: seq<Span>, k: nat)
    requires SpansInside(image, y, spans) && k < |spans|
    ensures SpansInside(image, y, spans[..k]) && SpansInside(image, y, spans[..k + 1])
    ensures SpansMoments(image, y, spans[..k + 1]) ==
            SpansMoments(image, y, spans[..k]).Plus(SpanMoments(image, y + k, spans[k].left, spans[k].right + 1))
  {
    assert spans[..k + 1][..k] == spans[..k];
  }

  /**
    Fill the object at `start`; the marked pixels and the moments are the ones of `Marked`, and
    the centroid is that of the moments.  A start in the last column is skipped.
   */
  method FindCentroid(image: Image, mask: array2<int>, start: Pixel)
    returns (moments: Option<Moments>, centroid: Option<Position>)
    requires Shaped(image, mask.Length0, mask.Length1)
    requires 0 <= start.y < mask.Length0 && 0 <= start.x < mask.Length1
    modifies mask
    ensures moments.None? <==> start.x == mask.Length1 - 1
    ensures moments.None? ==> centroid == Some(Position(0.0, 0.0)) && forall r, c :: 0 <= r < mask.Length0 && 0 <= c < mask.Length1 ==>
              mask[r, c] == old(mask[r, c])
    ensures moments.Some? ==>
              var marked := Marked(old(Objects(mask)), start, mask.Length0, mask.Length1);
              && moments.value == Total(image, marked) && centroid == Centroid(moments.value)
              && forall r, c :: 0 <= r < mask.Length0 && 0 <= c < mask.Length1 ==>
                   mask[r, c] == if Pixel(r, c) in marked then PROCESSED else old(mask[r, c])
    ensures moments.Some? && IsLens(old(Objects(mask)), start) ==>
              forall r, c :: 0 <= r < mask.Length0 && 0 <= c < mask.Length1 ==>
                mask[r, c] == if Reach(old(Objects(mask)), start, Pixel(r, c)) then 128 else old(mask[r, c])
  {
    hide Marked, IsLens, Reach, Total;
    if start.x == mask.Length1 - 1 {
      return None, Some(Position(0.0, 0.0));
    }
    var m := FillObject(image, mask, start);
    if IsLens(old(Objects(mask)), start) {
      LensFillable(old(Objects(mask)), start, mask.Length0, mask.Length1);
      forall q
        ensures q in Marked(old(Objects(mask)), start, mask.Length0, mask.Length1) <==> Reach(old(Objects(mask)), start, q)
      {
        FillIsComponent(old(Objects(mask)), start, mask.Length0, mask.Length1, q);
      }
    }
    moments, centroid := Some(m), Centroid(m);
  }

  method FillObject(image: Image, mask: array2<int>, start: Pixel) returns (m: Moments)
    requires Shaped(image, mask.Length0, mask.Length1)
    requires 0 <= start.y < mask.Length0 && 0 <= start.x < mask.Length1 - 1
    modifies mask
    ensures var marked := Marked(old(Objects(mask)), start, mask.Length0, mask.Length1);
            && m == Total(image, marked)
            && forall r, c :: 0 <= r < mask.Length0 && 0 <= c < mask.Length1 ==>
                 mask[r, c] == if Pixel(r, c) in marked then PROCESSED else old(mask[r, c])
  {
    hide FillFrom, FillRow, SpansMoments, SpanMoments, Total, Moments.Plus, Marked;
    var w := WindowOf(start, mask.Length0, mask.Length1);
    ghost var obj := Objects(mask);
    ghost var spans := FillFrom(obj, start, mask.Length0, mask.Length1);
    ghost var k := 0;
    FillInside(image, obj, start, mask.Length0, mask.Length1);
    m := ZERO;
    NoSpans(image, start.y);
    var above, y := Span(start.x, start.x + 1), start.y;
    while y < w.maxy
      invariant 0 <= k <= |spans| && y == start.y + k && above == SpanAbove(spans, start, k)
      invariant w.minx <= above.left <= above.right < w.maxx
      invariant SpansInside(image, start.y, spans[..k]) && m == SpansMoments(image, start.y, spans[..k])
      invariant forall r, c :: 0 <= r < mask.Length0 && 0 <= c < mask.Length1 ==>
                  mask[r, c] == if Covers(spans[..k], start.y, Pixel(r, c)) then PROCESSED else old(mask[r, c])
      decreases w.maxy - y
    {
      FillStep(obj, start, mask.Length0, mask.Length1, k);
      FillRowAgrees(obj, Objects(mask), y, above, w);
      var span;
      span, m := FillOneRow(image, mask, y, above, w, m);
      if span.None? {
        break;
      }
      PrefixInside(image, start.y, spans, k);
      above, y, k := span.value, y + 1, k + 1;
    }
    FillStep(obj, start, mask.Length0, mask.Length1, k);
    assert spans[..|spans|] == spans;
    forall p
      ensures p in Marked(obj, start, mask.Length0, mask.Length1) <==> Covers(spans, start.y, p)
    {
      CoveredInObject(obj, start, mask.Length0, mask.Length1, p);
    }
    SpansTotal(image, Marked(obj, start, mask.Length0, mask.Length1), start.y, spans);
  }

  lemma NoSpans(image: Image, y: nat)
    requires y <= |image|
    ensures SpansInside(image, y, []) && SpansMoments(image, y, []) == ZERO
  {
  }

  /** Row `k` of the fill comes from the span above it. */
  lemma FillStep(obj: set<Pixel>, start: Pixel, rows: int, cols: int, k: nat)
    requires 0 <= start.x < cols - 1 && k <= |FillFrom(obj, start, rows, cols)|
    ensures var w := WindowOf(start, rows, cols);
            var spans := FillFrom(obj, start, rows, cols);
            var a := SpanAbove(spans, start, k);
            && w.minx <= a.left <= a.right < w.maxx
            && (k < |spans| ==> start.y + k < w.maxy && FillRow(obj, start.y + k, a.left, a.right, w) == Some(spans[k]))
            && (k == |spans| ==> start.y + k >= w.maxy || FillRow(obj, start.y + k, a.left, a.right, w) == None)
  {
    hide FillRow, Fill;
    FillRows(obj, start.y, start.x, start.x + 1, WindowOf(start, rows, cols), k);
  }

  /** A row fill depends on its own row only. */
  lemma FillRowAgrees(obj: set<Pixel>, obj': set<Pixel>, y: int, above: Span, w: Window)
    requires w.minx <= above.left <= above.right < w.maxx
    requires forall c :: w.minx <= c < w.maxx ==> (Pixel(y, c) in obj <==> Pixel(y, c) in obj')
    ensures FillRow(obj, y, above.left, above.right, w) == FillRow(obj', y, above.left, above.right, w)
  {
    hide LeftEnd, RightStop, FirstObject;
    if Pixel(y, above.left) in obj {
      LeftEndIs(obj', y, above.left, w.minx, LeftEnd(obj, y, above.left, w.minx));
      RightStopAgrees(obj, obj', y, above.left, w.maxx);
    } else {
      var s := FirstObject(obj, y, above.left, above.right);
      FirstObjectIs(obj', y, above.left, above.right, s);
      if s <= above.right {
        RightStopAgrees(obj, obj', y, s, w.maxx);
      }
    }
  }

  /** The centroid of a filled object stays within 15 pixels of its start. */
  lemma CentroidInWindow(image: Image, obj: set<Pixel>, start: Pixel, rows: nat, cols: nat)
    requires Shaped(image, rows, cols) && NonNegative(image)
    requires 0 <= start.y < rows && 0 <= start.x < cols - 1
    ensures var c := Centroid(Total(image, Marked(obj, start, rows, cols)));
            c.Some? ==> && (start.x - 15) as real <= c.value.x <= (start.x + 14) as real
                        && start.y as real <= c.value.y <= (start.y + 14) as real
  {
    hide Total, FillFrom;
    var b := Box(start.x - 15, start.x + 14, start.y, start.y + 14);
    forall p | p in Marked(obj, start, rows, cols)
      ensures b.left <= p.x <= b.right && b.top <= p.y <= b.bottom
    {
      CoveredInObject(obj, start, rows, cols, p);
      SpanBounds(obj, start, rows, cols, p.y - start.y);
    }
    CentroidInBox(image, Marked(obj, start, rows, cols), b);
  }
}
