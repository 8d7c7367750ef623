/**
  The scan over the whole mask (lib/calibration/lensdetector.cpp:267-281): what all fills of a
  scan do together.
 */
module LensScan {
  import opened Common
  import opened FloodFill
  import opened PixelMoments
  import opened LensDetector

  // ---------------------------------------------------------------- components

  lemma {:induction false} PathAvoids(obj: set<Pixel>, taken: set<Pixel>, path: seq<Pixel>)
    requires IsPath(obj, path) && path[0] !in taken && Closed(obj, taken)
    ensures IsPath(obj - taken, path)
  {
    var rest := obj - taken;
    forall p, q | p in rest && q in obj && Adjacent(p, q)
      ensures q in rest
    {
      assert Adjacent(q, p);
    }
    forall i | 0 <= i < |path|
      ensures path[i] in rest
    {
      var prefix := path[..i + 1];
      assert IsPath(obj, prefix);
      ReachInvariant(obj, rest, prefix);
    }
  }

  /** No object pixel outside the set is adjacent to it. */
  ghost predicate Closed(obj: set<Pixel>, s: set<Pixel>) {
    forall p, q :: p in s && q in obj && Adjacent(p, q) ==> q in s
  }

  lemma ReachAvoids(obj: set<Pixel>, taken: set<Pixel>, s: Pixel, q: Pixel)
    requires Reach(obj, s, q) && s !in taken && Closed(obj, taken)
    ensures Reach(obj - taken, s, q)
  {
    var path :| IsPath(obj, path) && path[0] == s && path[|path| - 1] == q;
    PathAvoids(obj, taken, path);
  }

  ghost predicate Before(p: Pixel, q: Pixel) {
    p.y < q.y || (p.y == q.y && p.x < q.x)
  }

  /**
    Every component of the mask, seen from its first pixel, has intervals as rows, reaches at
    most 15 columns to the left and less than 15 to the right and down, and does not start in
    the last column.
   */
  ghost predicate OnlyLenses(obj: set<Pixel>, cols: int) {
    forall s :: s in obj && RowMajorFirst(obj, s) ==> s.x < cols - 1 && IsLens(obj, s)
  }

  lemma RowConvexRest(obj: set<Pixel>, taken: set<Pixel>, s: Pixel)
    requires Closed(obj, taken) && s in obj && s !in taken && RowConvex(obj, s)
    ensures RowConvex(obj - taken, s)
  {
    hide Reach, Closed;
    var rest := obj - taken;
    forall y, a, b, c | Reach(rest, s, Pixel(y, a)) && Reach(rest, s, Pixel(y, c)) && a <= b <= c
      ensures Pixel(y, b) in rest
    {
      ReachMono(rest, obj, s, Pixel(y, a));
      ReachMono(rest, obj, s, Pixel(y, c));
      assert forall x :: a <= x <= b ==> Pixel(y, x) in obj;
      ReachRow(obj, s, y, a, b);
      ReachAvoids(obj, taken, s, Pixel(y, b));
      ReachMember(rest, s, Pixel(y, b));
    }
  }

  /** Taking away whole components leaves the other lenses as they are. */
  lemma LensRest(obj: set<Pixel>, taken: set<Pixel>, s: Pixel)
    requires Closed(obj, taken) && s !in taken && IsLens(obj, s)
    ensures IsLens(obj - taken, s)
  {
    hide Reach, Closed, RowConvex;
    var rest := obj - taken;
    RowConvexRest(obj, taken, s);
    forall q | Reach(rest, s, q)
      ensures Reach(obj, s, q)
    {
      ReachMono(rest, obj, s, q);
    }
  }

  // ---------------------------------------------------------------- the fills of a scan

  /** What the fills of a scan have done so far. */
  datatype Scan = Scan(regions: seq<set<Pixel>>, starts: seq<Pixel>, taken: set<Pixel>, hits: set<Pixel>)

  ghost predicate Disjoint(regions: seq<set<Pixel>>) {
    forall i, j :: 0 <= i < j < |regions| ==> regions[i] !! regions[j]
  }

  function SumAll(ms: seq<Moments>): Moments {
    if ms == [] then ZERO else SumAll(ms[..|ms| - 1]).Plus(ms[|ms| - 1])
  }

  ghost predicate InSome(regions: seq<set<Pixel>>, p: Pixel) {
    exists i :: 0 <= i < |regions| && p in regions[i]
  }

  /** One centroid per region, computed over exactly that region; no pixel in two regions. */
  ghost predicate GoodScan(image: Image, obj: set<Pixel>, s: Scan, ms: seq<Moments>) {
    && |ms| == |s.regions| == |s.starts|
    && Disjoint(s.regions)
    && (forall p :: p in s.taken <==> InSome(s.regions, p))
    && s.taken <= obj && s.hits <= obj && s.taken !! s.hits
    && (forall i :: 0 <= i < |ms| ==> ms[i] == Total(image, s.regions[i]))
    && (forall i :: 0 <= i < |ms| ==> s.starts[i] in s.regions[i])
    && (forall i, p :: 0 <= i < |ms| && p in s.regions[i] ==> Reach(s.regions[i], s.starts[i], p))
  }

  ghost predicate NothingLost(image: Image, s: Scan, ms: seq<Moments>) {
    SumAll(ms) == Total(image, s.taken)
  }

  /** Every region is the whole component of its start. */
  ghost predicate WholeComponents(obj: set<Pixel>, s: Scan) {
    && |s.starts| == |s.regions|
    && Closed(obj, s.taken)
    && forall i, q :: 0 <= i < |s.regions| ==> (q in s.regions[i] <==> Reach(obj, s.starts[i], q))
  }

  function Extended(s: Scan, region: set<Pixel>, start: Pixel): Scan {
    Scan(s.regions + [region], s.starts + [start], s.taken + region, s.hits)
  }

  lemma InSomeExtended(regions: seq<set<Pixel>>, region: set<Pixel>, p: Pixel)
    ensures InSome(regions + [region], p) <==> InSome(regions, p) || p in region
  {
    var longer := regions + [region];
    assert longer[|regions|] == region;
    if i :| 0 <= i < |regions| && p in regions[i] {
      assert longer[i] == regions[i];
    }
  }

  lemma ExtendScan(image: Image, obj: set<Pixel>, s: Scan, ms: seq<Moments>, start: Pixel, rows: int, cols: int)
    requires GoodScan(image, obj, s, ms)
    requires 0 <= start.x < cols - 1 && start.y < rows && start in obj - s.taken - s.hits
    ensures var region := Marked(obj - s.taken - s.hits, start, rows, cols);
            GoodScan(image, obj, Extended(s, region, start), ms + [Total(image, region)])
  {
    hide Marked, Reach, Total, InSome;
    var rest := obj - s.taken - s.hits;
    var region := Marked(rest, start, rows, cols);
    MarkedInside(rest, start, rows, cols);
    StartMarked(rest, start, rows, cols);
    forall p | p in region
      ensures Reach(region, start, p)
    {
      MarkedReached(rest, start, rows, cols, p);
    }
    forall p
      ensures InSome(s.regions + [region], p) <==> InSome(s.regions, p) || p in region
    {
      InSomeExtended(s.regions, region, p);
    }
    forall i | 0 <= i < |s.regions|
      ensures s.regions[i] !! region
    {
      RegionTaken(s.regions, i);
    }
  }

  lemma RegionTaken(regions: seq<set<Pixel>>, i: nat)
    requires i < |regions|
    ensures forall p :: p in regions[i] ==> InSome(regions, p)
  {
  }

  lemma MarkedInside(obj: set<Pixel>, start: Pixel, rows: int, cols: int)
    requires 0 <= start.x < cols - 1
    ensures Marked(obj, start, rows, cols) <= obj
  {
  }

  lemma ExtendTotal(image: Image, s: Scan, ms: seq<Moments>, region: set<Pixel>, start: Pixel)
    requires NothingLost(image, s, ms) && s.taken !! region
    ensures NothingLost(image, Extended(s, region, start), ms + [Total(image, region)])
  {
    hide Total;
    TotalUnion(image, s.taken, region);
    var longer := ms + [Total(image, region)];
    assert longer[..|longer| - 1] == ms;
  }

  /** Filling at the first pixel that is left takes the whole component of that pixel. */
  lemma ExtendComponents(obj: set<Pixel>, s: Scan, start: Pixel, rows: int, cols: int)
    requires WholeComponents(obj, s) && OnlyLenses(obj, cols) && s.taken <= obj && InImage(obj, rows, cols)
    requires start in obj - s.taken
    requires forall p :: p in obj - s.taken ==> !Before(p, start)
    ensures start.x < cols - 1
    ensures WholeComponents(obj, Extended(s, Marked(obj - s.taken, start, rows, cols), start))
  {
    hide Marked, Reach, Before, IsLens, Fillable;
    var rest := obj - s.taken;
    StartIsFirst(obj, s.taken, start);
    LensRest(obj, s.taken, start);
    LensFillable(rest, start, rows, cols);
    var region := Marked(rest, start, rows, cols);
    forall q
      ensures q in region <==> Reach(obj, start, q)
    {
      FillIsComponent(rest, start, rows, cols, q);
      if Reach(rest, start, q) {
        ReachMono(rest, obj, start, q);
      }
      if Reach(obj, start, q) {
        ReachAvoids(obj, s.taken, start, q);
      }
    }
    forall p, q | p in s.taken + region && q in obj && Adjacent(p, q)
      ensures q in s.taken + region
    {
      if p in region {
        ReachStep(obj, start, p, q);
      }
    }
  }

  lemma StartIsFirst(obj: set<Pixel>, taken: set<Pixel>, start: Pixel)
    requires Closed(obj, taken) && start in obj - taken
    requires forall p :: p in obj - taken ==> !Before(p, start)
    ensures RowMajorFirst(obj, start)
  {
    hide Reach, Closed;
    forall q | Reach(obj, start, q)
      ensures start.y < q.y || (start.y == q.y && start.x <= q.x)
    {
      ReachAvoids(obj, taken, start, q);
      ReachMember(obj - taken, start, q);
      assert !Before(q, start);
    }
  }

  // ---------------------------------------------------------------- the scan

  const DEBUG := 192

  /** Invariant of the scan: everything before the cursor is done. */
  ghost predicate ScanState(image: Image, rows: nat, cols: nat, left: set<Pixel>, obj: set<Pixel>, s: Scan,
                            ms: seq<Moments>, cursor: Pixel)
  {
    && left == obj - s.taken - s.hits && InImage(obj, rows, cols)
    && GoodScan(image, obj, s, ms) && NothingLost(image, s, ms)
    && (forall p :: p in left && Before(p, cursor) ==> p.x == cols - 1)
    && (OnlyLenses(obj, cols) && s.hits == {} ==>
          WholeComponents(obj, s) && forall p :: p in left ==> !Before(p, cursor))
  }

  function Hit(s: Scan, p: Pixel, isObject: bool): Scan {
    if isObject then s.(hits := s.hits + {p}) else s
  }

  lemma ScanStart(image: Image, rows: nat, cols: nat, obj: set<Pixel>)
    requires InImage(obj, rows, cols)
    ensures ScanState(image, rows, cols, obj, obj, Scan([], [], {}, {}), [], Pixel(0, 0))
  {
    RowsOfNothing(image, |image|);
    assert Closed(obj, {});
  }

  lemma {:induction false} RowsOfNothing(image: Image, y: nat)
    requires y <= |image|
    ensures TotalTo(image, {}, y) == ZERO
  {
    hide RowTotal, Moments.Plus;
    PlusZero(ZERO);
    if y > 0 {
      RowsOfNothing(image, y - 1);
      RowTotalNone(image, {}, y - 1, |image[y - 1]|);
    }
  }

  /** The cursor moves on when the pixel under it is no object any more, or is in the last column. */
  lemma ScanMoves(image: Image, rows: nat, cols: nat, left: set<Pixel>, obj: set<Pixel>, s: Scan,
                  ms: seq<Moments>, cursor: Pixel, next: Pixel)
    requires ScanState(image, rows, cols, left, obj, s, ms, cursor)
    requires cursor in left ==> cursor.x == cols - 1
    requires cursor in left ==> !(OnlyLenses(obj, cols) && s.hits == {})
    requires forall p :: p in left && Before(p, next) ==> Before(p, cursor) || p == cursor
    ensures ScanState(image, rows, cols, left, obj, s, ms, next)
  {
    hide GoodScan, NothingLost, WholeComponents, OnlyLenses, Before;
  }

  lemma ScanFills(image: Image, rows: nat, cols: nat, left: set<Pixel>, obj: set<Pixel>, s: Scan,
                  ms: seq<Moments>, start: Pixel)
    requires ScanState(image, rows, cols, left, obj, s, ms, start)
    requires start in left && 0 <= start.x < cols - 1 && start.y < rows
    ensures var region := Marked(left, start, rows, cols);
            && start in region
            && ScanState(image, rows, cols, left - region, obj, Extended(s, region, start), ms + [Total(image, region)], start)
  {
    hide Marked, GoodScan, NothingLost, WholeComponents, OnlyLenses, Before, Total;
    var region := Marked(left, start, rows, cols);
    StartMarked(left, start, rows, cols);
    MarkedInside(left, start, rows, cols);
    ExtendScan(image, obj, s, ms, start, rows, cols);
    GoodScanTaken(image, obj, s, ms);
    ExtendTotal(image, s, ms, region, start);
    if OnlyLenses(obj, cols) && s.hits == {} {
      assert obj - s.taken - s.hits == obj - s.taken;
      ExtendComponents(obj, s, start, rows, cols);
    }
  }

  lemma GoodScanTaken(image: Image, obj: set<Pixel>, s: Scan, ms: seq<Moments>)
    requires GoodScan(image, obj, s, ms)
    ensures s.taken <= obj
  {
  }

  /** A debug mark can only take a pixel away. */
  lemma ScanHit(image: Image, rows: nat, cols: nat, left: set<Pixel>, obj: set<Pixel>, s: Scan,
                ms: seq<Moments>, cursor: Pixel, p: Pixel)
    requires ScanState(image, rows, cols, left, obj, s, ms, cursor)
    ensures ScanState(image, rows, cols, left - {p}, obj, Hit(s, p, p in left), ms, cursor)
  {
    hide WholeComponents, OnlyLenses, Before, Reach, Total;
  }

  /** With lenses only and no object pixel overwritten, a start in the last column does not occur. */
  lemma NoLastColumn(image: Image, rows: nat, cols: nat, left: set<Pixel>, obj: set<Pixel>, s: Scan,
                     ms: seq<Moments>, start: Pixel)
    requires ScanState(image, rows, cols, left, obj, s, ms, start)
    requires start in left && 0 <= start.x && start.y < rows && start.x == cols - 1
    ensures !(OnlyLenses(obj, cols) && s.hits == {})
  {
    hide GoodScan, NothingLost, OnlyLenses, Before;
    if OnlyLenses(obj, cols) && s.hits == {} {
      assert obj - s.taken - s.hits == obj - s.taken;
      GoodScanTaken(image, obj, s, ms);
      ExtendComponents(obj, s, start, rows, cols);
    }
  }

  ghost predicate InMask(mask: array2<int>, p: Pixel) {
    0 <= p.y < mask.Length0 && 0 <= p.x < mask.Length1
  }

  /** The moments that were computed, without the skipped starts. */
  function Computed(found: seq<Option<Moments>>): seq<Moments> {
    if found == [] then []
    else
      var n := |found| - 1;
      Computed(found[..n]) + if found[n].Some? then [found[n].value] else []
  }

  /** Process one object pixel: fill, and leave the debug mark at the refined centroid. */
  method ScanPixel(image: Image, mask: array2<int>, start: Pixel, refine: Option<Position> -> Pixel,
                   ghost obj: set<Pixel>, ghost s: Scan, ghost ms: seq<Moments>)
    returns (moments: Option<Moments>, ghost s': Scan, ghost ms': seq<Moments>)
    requires Shaped(image, mask.Length0, mask.Length1)
    requires forall m :: InMask(mask, refine(m))
    requires InMask(mask, start) && mask[start.y, start.x] == OBJECT
    requires ScanState(image, mask.Length0, mask.Length1, Objects(mask), obj, s, ms, start)
    modifies mask
    ensures ScanState(image, mask.Length0, mask.Length1, Objects(mask), obj, s', ms', start)
    ensures ms' == ms + if moments.Some? then [moments.value] else []
    ensures start in Objects(mask) ==>
              start.x == mask.Length1 - 1 && !(OnlyLenses(obj, mask.Length1) && s'.hits == {})
  {
    hide ScanState, Marked, Total, OnlyLenses;
    ghost var left := Objects(mask);
    ghost var rows, cols := mask.Length0, mask.Length1;
    var centroid;
    moments, centroid := FindCentroid(image, mask, start);
    assert start in left;
    if moments.Some? {
      ScanFills(image, rows, cols, left, obj, s, ms, start);
      ghost var region := Marked(left, start, rows, cols);
      assert Objects(mask) == left - region;
      s', ms' := Extended(s, region, start), ms + [moments.value];
    } else {
      NoLastColumn(image, rows, cols, left, obj, s, ms, start);
      assert Objects(mask) == left;
      s', ms' := s, ms;
    }
    ghost var rest := Objects(mask);
    var p := refine(centroid);
    ScanHit(image, rows, cols, rest, obj, s', ms', start, p);
    mask[p.y, p.x] := DEBUG;
    assert Objects(mask) == rest - {p};
    s' := Hit(s', p, p in rest);
  }

  /** Scan the mask row by row. */
  method Detect(image: Image, mask: array2<int>, refine: Option<Position> -> Pixel)
    returns (found: seq<Option<Moments>>, ghost s: Scan)
    requires Shaped(image, mask.Length0, mask.Length1)
    requires forall m :: InMask(mask, refine(m))
    modifies mask
    ensures GoodScan(image, old(Objects(mask)), s, Computed(found)) && NothingLost(image, s, Computed(found))
    ensures Objects(mask) == old(Objects(mask)) - s.taken - s.hits
    ensures forall p :: p in Objects(mask) ==> p.x == mask.Length1 - 1
    ensures OnlyLenses(old(Objects(mask)), mask.Length1) && s.hits == {} ==>
              WholeComponents(old(Objects(mask)), s) && Objects(mask) == {}
  {
    hide ScanState, OnlyLenses;
    found, s := [], Scan([], [], {}, {});
    ghost var obj, rows, cols := Objects(mask), mask.Length0, mask.Length1;
    ScanStart(image, rows, cols, obj);
    for row := 0 to mask.Length0
      invariant ScanState(image, rows, cols, Objects(mask), obj, s, Computed(found), Pixel(row, 0))
    {
      for col := 0 to mask.Length1
        invariant ScanState(image, rows, cols, Objects(mask), obj, s, Computed(found), Pixel(row, col))
      {
        ghost var ms := Computed(found);
        if mask[row, col] == OBJECT {
          var moments;
          moments, s, ms := ScanPixel(image, mask, Pixel(row, col), refine, obj, s, ms);
          found := found + [moments];
          assert found[..|found| - 1] + [moments] == found;
        }
        ScanMoves(image, rows, cols, Objects(mask), obj, s, ms, Pixel(row, col), Pixel(row, col + 1));
      }
      NextRow(image, rows, cols, Objects(mask), obj, s, Computed(found), row);
    }
    ScanEnds(image, rows, cols, Objects(mask), obj, s, Computed(found));
  }

  lemma NextRow(image: Image, rows: nat, cols: nat, left: set<Pixel>, obj: set<Pixel>, s: Scan,
                ms: seq<Moments>, row: nat)
    requires ScanState(image, rows, cols, left, obj, s, ms, Pixel(row, cols))
    requires forall p :: p in left ==> 0 <= p.x < cols
    ensures ScanState(image, rows, cols, left, obj, s, ms, Pixel(row + 1, 0))
  {
    hide GoodScan, NothingLost, WholeComponents, OnlyLenses;
    assert forall p :: p in left ==> (Before(p, Pixel(row + 1, 0)) <==> Before(p, Pixel(row, cols)));
  }

  lemma ScanEnds(image: Image, rows: nat, cols: nat, left: set<Pixel>, obj: set<Pixel>, s: Scan, ms: seq<Moments>)
    requires ScanState(image, rows, cols, left, obj, s, ms, Pixel(rows, 0))
    requires forall p :: p in left ==> p.y < rows
    ensures GoodScan(image, obj, s, ms) && NothingLost(image, s, ms) && left == obj - s.taken - s.hits
    ensures forall p :: p in left ==> p.x == cols - 1
    ensures OnlyLenses(obj, cols) && s.hits == {} ==> WholeComponents(obj, s) && left == {}
  {
    hide GoodScan, NothingLost, WholeComponents, OnlyLenses;
    assert forall p :: p in left ==> Before(p, Pixel(rows, 0));
  }
}
