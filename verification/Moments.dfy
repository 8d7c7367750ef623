/** Image moments of a set of pixels: the sums that `findCentroid` accumulates. */
module PixelMoments {
  import opened Common
  import opened FloodFill

  type Image = seq<seq<int>>

  ghost predicate Shaped(image: Image, rows: nat, cols: nat) {
    |image| == rows && forall y :: 0 <= y < rows ==> |image[y]| == cols
  }

  /** First moments in x and y, and the mass. */
  datatype Moments = Moments(m01: int, m10: int, sum: int) {
    function Plus(other: Moments): Moments {
      Moments(m01 + other.m01, m10 + other.m10, sum + other.sum)
    }
  }

  const ZERO := Moments(0, 0, 0)

  function Weight(image: Image, y: nat, x: nat): Moments
    requires y < |image| && x < |image[y]|
  {
    Moments(x * image[y][x], y * image[y][x], image[y][x])
  }

  /** Moments of the columns `a` to `b - 1` of one row. */
  function SpanMoments(image: Image, y: nat, a: nat, b: nat): Moments
    requires y < |image| && a <= b <= |image[y]|
    decreases b
  {
    if a == b then ZERO else SpanMoments(image, y, a, b - 1).Plus(Weight(image, y, b - 1))
  }

  /** The same sum, taken from the left. */
  lemma {:induction false} SpanMomentsLeft(image: Image, y: nat, a: nat, b: nat)
    requires y < |image| && a < b <= |image[y]|
    ensures SpanMoments(image, y, a, b) == Weight(image, y, a).Plus(SpanMoments(image, y, a + 1, b))
    decreases b
  {
    if a + 1 < b {
      SpanMomentsLeft(image, y, a, b - 1);
    }
  }

  lemma {:induction false} SpanMomentsSplit(image: Image, y: nat, a: nat, m: nat, b: nat)
    requires y < |image| && a <= m <= b <= |image[y]|
    ensures SpanMoments(image, y, a, b) == SpanMoments(image, y, a, m).Plus(SpanMoments(image, y, m, b))
    decreases b
  {
    if m < b {
      SpanMomentsSplit(image, y, a, m, b - 1);
    }
  }

  // ---------------------------------------------------------------- sums over sets

  ghost function Contribution(image: Image, s: set<Pixel>, y: nat, x: nat): Moments
    requires y < |image| && x < |image[y]|
  {
    if Pixel(y, x) in s then Weight(image, y, x) else ZERO
  }

  ghost function RowTotal(image: Image, s: set<Pixel>, y: nat, x: nat): Moments
    requires y < |image| && x <= |image[y]|
  {
    if x == 0 then ZERO
    else RowTotal(image, s, y, x - 1).Plus(Contribution(image, s, y, x - 1))
  }

  /** The moments of the pixels of `s` in the first `y` rows. */
  ghost function TotalTo(image: Image, s: set<Pixel>, y: nat): Moments
    requires y <= |image|
  {
    if y == 0 then ZERO
    else TotalTo(image, s, y - 1).Plus(RowTotal(image, s, y - 1, |image[y - 1]|))
  }

  ghost function Total(image: Image, s: set<Pixel>): Moments {
    TotalTo(image, s, |image|)
  }

  lemma PlusSwap(a: Moments, b: Moments, c: Moments, d: Moments)
    ensures a.Plus(b).Plus(c.Plus(d)) == a.Plus(c).Plus(b.Plus(d))
  {
  }

  lemma PlusZero(a: Moments)
    ensures a.Plus(ZERO) == a && ZERO.Plus(a) == a
  {
  }

  lemma ContributionUnion(image: Image, s: set<Pixel>, t: set<Pixel>, y: nat, x: nat)
    requires y < |image| && x < |image[y]| && s !! t
    ensures Contribution(image, s + t, y, x) == Contribution(image, s, y, x).Plus(Contribution(image, t, y, x))
  {
    hide Weight, Moments.Plus;
    PlusZero(Weight(image, y, x));
    PlusZero(ZERO);
    var p := Pixel(y, x);
    if p in s {
      assert p !in t && p in s + t;
    }
  }

  lemma {:induction false} RowTotalUnion(image: Image, s: set<Pixel>, t: set<Pixel>, y: nat, x: nat)
    requires y < |image| && x <= |image[y]| && s !! t
    ensures RowTotal(image, s + t, y, x) == RowTotal(image, s, y, x).Plus(RowTotal(image, t, y, x))
  {
    hide Contribution, Moments.Plus;
    PlusZero(ZERO);
    if x > 0 {
      RowTotalUnion(image, s, t, y, x - 1);
      ContributionUnion(image, s, t, y, x - 1);
      PlusSwap(RowTotal(image, s, y, x - 1), RowTotal(image, t, y, x - 1),
               Contribution(image, s, y, x - 1), Contribution(image, t, y, x - 1));
    }
  }

  lemma {:induction false} TotalToUnion(image: Image, s: set<Pixel>, t: set<Pixel>, y: nat)
    requires y <= |image| && s !! t
    ensures TotalTo(image, s + t, y) == TotalTo(image, s, y).Plus(TotalTo(image, t, y))
  {
    hide RowTotal, Moments.Plus;
    PlusZero(ZERO);
    if y > 0 {
      var w := |image[y - 1]|;
      TotalToUnion(image, s, t, y - 1);
      RowTotalUnion(image, s, t, y - 1, w);
      PlusSwap(TotalTo(image, s, y - 1), TotalTo(image, t, y - 1),
               RowTotal(image, s, y - 1, w), RowTotal(image, t, y - 1, w));
    }
  }

  /** Disjoint sets add up. */
  lemma TotalUnion(image: Image, s: set<Pixel>, t: set<Pixel>)
    requires s !! t
    ensures Total(image, s + t) == Total(image, s).Plus(Total(image, t))
  {
    TotalToUnion(image, s, t, |image|);
  }

  lemma {:induction false} RowTotalNone(image: Image, s: set<Pixel>, y: nat, x: nat)
    requires y < |image| && x <= |image[y]| && forall c :: 0 <= c < x ==> Pixel(y, c) !in s
    ensures RowTotal(image, s, y, x) == ZERO
  {
    if x > 0 {
      RowTotalNone(image, s, y, x - 1);
    }
  }

  lemma {:induction false} RowTotalSpan(image: Image, s: set<Pixel>, y: nat, x: nat, l: nat, r: nat)
    requires y < |image| && x <= |image[y]| && l <= r <= |image[y]|
    requires forall c :: 0 <= c < |image[y]| ==> (Pixel(y, c) in s <==> l <= c < r)
    ensures RowTotal(image, s, y, x) == if x <= l then ZERO else SpanMoments(image, y, l, if x < r then x else r)
  {
    hide Weight, Moments.Plus;
    PlusZero(ZERO);
    PlusZero(SpanMoments(image, y, l, r));
    if x > 0 {
      RowTotalSpan(image, s, y, x - 1, l, r);
    }
  }

  // ---------------------------------------------------------------- fills

  ghost predicate SpansInside(image: Image, y: nat, spans: seq<Span>) {
    && y + |spans| <= |image|
    && forall i :: 0 <= i < |spans| ==> 0 <= spans[i].left <= spans[i].right < |image[y + i]|
  }

  /** The moments of the spans of consecutive rows from `y` on. */
  ghost function SpansMoments(image: Image, y: nat, spans: seq<Span>): Moments
    requires SpansInside(image, y, spans)
  {
    if spans == [] then ZERO
    else
      var n := |spans| - 1;
      SpansMoments(image, y, spans[..n]).Plus(SpanMoments(image, y + n, spans[n].left, spans[n].right + 1))
  }

  /** How many of the spans lie in the first `k` rows. */
  ghost function SpansBelow(y: nat, spans: seq<Span>, k: nat): nat
    ensures SpansBelow(y, spans, k) <= |spans|
  {
    if k <= y then 0 else if k - y < |spans| then k - y else |spans|
  }

  lemma TotalRow(image: Image, s: set<Pixel>, y: nat, spans: seq<Span>, k: nat)
    requires SpansInside(image, y, spans) && k < |image|
    requires forall p :: p in s <==> Covers(spans, y, p)
    ensures RowTotal(image, s, k, |image[k]|) ==
            if 0 <= k - y < |spans| then SpanMoments(image, k, spans[k - y].left, spans[k - y].right + 1) else ZERO
  {
    hide RowTotal, SpanMoments;
    if 0 <= k - y < |spans| {
      RowTotalSpan(image, s, k, |image[k]|, spans[k - y].left, spans[k - y].right + 1);
    } else {
      RowTotalNone(image, s, k, |image[k]|);
    }
  }

  lemma {:induction false} TotalBelow(image: Image, s: set<Pixel>, y: nat, spans: seq<Span>, k: nat)
    requires SpansInside(image, y, spans) && k <= |image|
    requires forall p :: p in s <==> Covers(spans, y, p)
    ensures TotalTo(image, s, k) == SpansMoments(image, y, spans[..SpansBelow(y, spans, k)])
    decreases k
  {
    hide RowTotal, SpanMoments, Moments.Plus, Covers;
    if k > 0 {
      TotalBelow(image, s, y, spans, k - 1);
      TotalRow(image, s, y, spans, k - 1);
      PlusZero(TotalTo(image, s, k - 1));
      var i := SpansBelow(y, spans, k - 1);
      if SpansBelow(y, spans, k) == i + 1 {
        assert spans[..i + 1][..i] == spans[..i];
      }
    }
  }

  /** The moments accumulated span by span are the moments of the covered pixels. */
  lemma SpansTotal(image: Image, s: set<Pixel>, y: nat, spans: seq<Span>)
    requires SpansInside(image, y, spans)
    requires forall p :: p in s <==> Covers(spans, y, p)
    ensures SpansMoments(image, y, spans) == Total(image, s)
  {
    TotalBelow(image, s, y, spans, |image|);
    assert spans[..|spans|] == spans;
  }

  // ---------------------------------------------------------------- one pixel

  lemma {:induction false} ContributionOfPixel(image: Image, p: Pixel, y: nat, x: nat)
    requires y < |image| && x < |image[y]|
    ensures Contribution(image, {p}, y, x) == if p.y == y && p.x == x then Weight(image, y, x) else ZERO
  {
    hide Weight;
  }

  lemma {:induction false} RowOfPixel(image: Image, p: Pixel, y: nat, x: nat)
    requires y < |image| && x <= |image[y]|
    ensures RowTotal(image, {p}, y, x) == if p.y == y && 0 <= p.x < x then Weight(image, y, p.x) else ZERO
  {
    hide Weight, Contribution, Moments.Plus;
    if x > 0 {
      RowOfPixel(image, p, y, x - 1);
      ContributionOfPixel(image, p, y, x - 1);
      PlusZero(RowTotal(image, {p}, y, x - 1));
      PlusZero(Weight(image, y, x - 1));
    }
  }

  lemma {:induction false} RowsOfPixel(image: Image, p: Pixel, y: nat)
    requires y <= |image| && 0 <= p.y < |image| && 0 <= p.x < |image[p.y]|
    ensures TotalTo(image, {p}, y) == if p.y < y then Weight(image, p.y, p.x) else ZERO
  {
    hide Weight, RowTotal, Moments.Plus;
    if y > 0 {
      RowsOfPixel(image, p, y - 1);
      RowOfPixel(image, p, y - 1, |image[y - 1]|);
      PlusZero(TotalTo(image, {p}, y - 1));
      PlusZero(RowTotal(image, {p}, y - 1, |image[y - 1]|));
    }
  }

  /** The moments of a single pixel; with `TotalUnion` this gives those of every set. */
  lemma {:induction false} TotalOfPixel(image: Image, p: Pixel)
    requires 0 <= p.y < |image| && 0 <= p.x < |image[p.y]|
    ensures var v := image[p.y][p.x];
            Total(image, {p}) == Moments(p.x * v, p.y * v, v)
  {
    RowsOfPixel(image, p, |image|);
  }

  // ---------------------------------------------------------------- centroids

  datatype Position = Position(x: real, y: real)

  /** The centroid; there is none for an object of mass zero, where the code divides by zero. */
  function Centroid(m: Moments): Option<Position> {
    if m.sum == 0 then None else Some(Position(m.m01 as real / m.sum as real, m.m10 as real / m.sum as real))
  }

  datatype Box = Box(left: int, right: int, top: int, bottom: int)

  ghost predicate InBox(s: set<Pixel>, b: Box) {
    forall p :: p in s ==> b.left <= p.x <= b.right && b.top <= p.y <= b.bottom
  }

  ghost predicate NonNegative(image: Image) {
    forall y, x :: 0 <= y < |image| && 0 <= x < |image[y]| ==> image[y][x] >= 0
  }

  /** The first moments are at most and at least the mass times the sides of the box. */
  ghost predicate Balanced(m: Moments, b: Box) {
    && m.sum >= 0
    && b.left * m.sum <= m.m01 <= b.right * m.sum
    && b.top * m.sum <= m.m10 <= b.bottom * m.sum
  }

  lemma BalancedPlus(m: Moments, n: Moments, b: Box)
    requires Balanced(m, b) && Balanced(n, b)
    ensures Balanced(m.Plus(n), b)
  {
    assert b.left * (m.sum + n.sum) == b.left * m.sum + b.left * n.sum;
    assert b.right * (m.sum + n.sum) == b.right * m.sum + b.right * n.sum;
    assert b.top * (m.sum + n.sum) == b.top * m.sum + b.top * n.sum;
    assert b.bottom * (m.sum + n.sum) == b.bottom * m.sum + b.bottom * n.sum;
  }

  lemma Scaled(lo: int, x: int, hi: int, v: int)
    requires lo <= x <= hi && v >= 0
    ensures lo * v <= x * v <= hi * v
  {
    assert (x - lo) * v >= 0 && (hi - x) * v >= 0;
  }

  lemma BalancedPixel(image: Image, s: set<Pixel>, y: nat, x: nat, b: Box)
    requires InBox(s, b) && NonNegative(image) && y < |image| && x < |image[y]|
    ensures Balanced(Contribution(image, s, y, x), b)
  {
    if Pixel(y, x) in s {
      var v := image[y][x];
      Scaled(b.left, x, b.right, v);
      Scaled(b.top, y, b.bottom, v);
    }
  }

  lemma {:induction false} BalancedRow(image: Image, s: set<Pixel>, y: nat, x: nat, b: Box)
    requires InBox(s, b) && NonNegative(image) && y < |image| && x <= |image[y]|
    ensures Balanced(RowTotal(image, s, y, x), b)
  {
    if x > 0 {
      BalancedRow(image, s, y, x - 1, b);
      BalancedPixel(image, s, y, x - 1, b);
      BalancedPlus(RowTotal(image, s, y, x - 1), Contribution(image, s, y, x - 1), b);
    }
  }

  lemma {:induction false} BalancedTo(image: Image, s: set<Pixel>, y: nat, b: Box)
    requires InBox(s, b) && NonNegative(image) && y <= |image|
    ensures Balanced(TotalTo(image, s, y), b)
  {
    if y > 0 {
      BalancedTo(image, s, y - 1, b);
      BalancedRow(image, s, y - 1, |image[y - 1]|, b);
      BalancedPlus(TotalTo(image, s, y - 1), RowTotal(image, s, y - 1, |image[y - 1]|), b);
    }
  }

  lemma QuotientBetween(lo: int, hi: int, m: int, n: int)
    requires n > 0 && lo * n <= m <= hi * n
    ensures lo as real <= m as real / n as real <= hi as real
  {
    var q := m as real / n as real;
    assert q * n as real == m as real;
    assert (lo * n) as real == lo as real * n as real;
    assert (hi * n) as real == hi as real * n as real;
    assert (q - lo as real) * n as real >= 0.0;
    assert (hi as real - q) * n as real >= 0.0;
  }

  /** The centroid of a set of pixels lies in every box around the set. */
  lemma CentroidInBox(image: Image, s: set<Pixel>, b: Box)
    requires NonNegative(image) && InBox(s, b)
    ensures var c := Centroid(Total(image, s));
            c.Some? ==> && b.left as real <= c.value.x <= b.right as real
                        && b.top as real <= c.value.y <= b.bottom as real
  {
    hide TotalTo;
    var m := Total(image, s);
    BalancedTo(image, s, |image|, b);
    if m.sum != 0 {
      QuotientBetween(b.left, b.right, m.m01, m.sum);
      QuotientBetween(b.top, b.bottom, m.m10, m.sum);
    }
  }
}
