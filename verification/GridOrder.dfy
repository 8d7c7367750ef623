/**
  The merged map keeps the order of the lines of every increasing grid, whatever the other
  grids contain and whatever happened before.
 */
module GridOrder {
  import opened Common
  import opened OrderedMap
  import opened LineGrids
  import opened GridMath
  import opened GridMathTheorems

  ghost predicate Increasing(lines: seq<Line>) {
    forall i, j :: 0 <= i < j < |lines| ==> lines[i].position < lines[j].position
  }

  /** Entries further up never hold earlier lines of grid `h`. */
  ghost predicate InOrder(m: LineSlots, h: nat) {
    forall i, j, a, b :: Holds(m, i, a) && Holds(m, j, b) && a.grid == h && b.grid == h && i < j
                         ==> a.line <= b.line
  }

  /** Slots from index `from` on hold no line of grid `h`. */
  ghost predicate NoneFrom(m: LineSlots, h: nat, from: int) {
    forall i, a :: from <= i && Holds(m, i, a) ==> a.grid != h
  }

  /**
    The last line of the grid being inserted, at position `p`, landed in slot `e`: every
    later (higher) position is closer to `e` than to any slot below, and no higher position
    up to the key of `e` is far enough from it to open a slot of its own.
   */
  ghost predicate Anchored(m: LineSlots, p: real, e: int, limit: real) {
    && 0 <= e < |m|
    && m[e].key - p < limit
    && (e > 0 ==> m[e].key + m[e - 1].key <= 2.0 * p)
  }

  lemma JoinAnchors(m: LineSlots, line: Line, r: Referee, limit: real)
    requires Keyed(m) && m != [] && Merges(m, line.position, limit)
    ensures var n := Nearest(m, line.position);
            Anchored(m[n := MergedSlot(m[n], line, r)], line.position, n, limit)
  {
    var p := line.position;
    var n := Nearest(m, p);
    MergedBetween(m[n], line, r);
    NearestSeparates(m, p, p);
    NearestIsGlobal(m, p, n);
    hide MergedSlot;
    assert n > 0 ==> Abs(m[n].key - p) <= Abs(m[n - 1].key - p);
  }

  /** Whatever the insertion does, the slot it used is anchored at the inserted position. */
  lemma InsertionAnchors(m: LineSlots, line: Line, r: Referee, limit: real)
    requires Keyed(m) && m != [] && limit > 0.0
    ensures var o := InsertOutcome(m, line.position, limit);
            Anchored(Applied(m, o, line, r), line.position, o.at, limit)
  {
    if Merges(m, line.position, limit) {
      JoinAnchors(m, line, r, limit);
    }
  }

  /** A higher position never lands below the slot of the previous one. */
  lemma LandsAtOrAbove(m: LineSlots, p: real, e: int, q: real, limit: real)
    requires Sorted(m) && Anchored(m, p, e, limit) && p < q
    ensures var o := InsertOutcome(m, q, limit);
            if o.Joins? then e <= o.at else e < o.at
  {
    var ub := LowerBound(m, q);
    if ub <= e {
      assert q <= m[e].key;
      assert e > 0 ==> m[e - 1].key < q;
      assert Nearest(m, q) == e;
    }
  }

  lemma HoldsFresh(m: LineSlots, n: nat, s: Slot<Entry>, i: int, a: Referee)
    requires n <= |m|
    requires Holds(m[..n] + [s] + m[n..], i, a)
    ensures i == n ==> a in s.value.referees
    ensures i < n ==> Holds(m, i, a)
    ensures n < i ==> Holds(m, i - 1, a)
  {
  }

  /** Where a referee of the new map was before. */
  lemma AppliedHolds(m: LineSlots, o: Outcome, line: Line, r: Referee, i: int, a: Referee)
    requires ValidOutcome(m, o) && Holds(Applied(m, o, line, r), i, a)
    ensures if !o.Dropped? && i == o.at && a == r then true
            else if o.Fresh? && o.at < i then Holds(m, i - 1, a)
            else Holds(m, i, a) && (o.Fresh? ==> i < o.at)
  {
    if o.Fresh? {
      HoldsFresh(m, o.at, NewSlot(line, r), i, a);
    }
  }

  lemma OthersKeepOrder(m: LineSlots, o: Outcome, line: Line, r: Referee, h: nat)
    requires ValidOutcome(m, o) && InOrder(m, h) && r.grid != h
    ensures InOrder(Applied(m, o, line, r), h)
  {
    var m' := Applied(m, o, line, r);
    hide Applied;
    forall i, j, a, b | Holds(m', i, a) && Holds(m', j, b) && a.grid == h && b.grid == h && i < j
      ensures a.line <= b.line
    {
      AppliedHolds(m, o, line, r, i, a);
      AppliedHolds(m, o, line, r, j, b);
    }
  }

  lemma OwnKeepsOrder(m: LineSlots, o: Outcome, line: Line, r: Referee)
    requires ValidOutcome(m, o) && InOrder(m, r.grid) && !o.Dropped?
    requires NoneFrom(m, r.grid, if o.Joins? then o.at + 1 else o.at)
    requires forall i, a :: Holds(m, i, a) && a.grid == r.grid ==> a.line <= r.line
    ensures InOrder(Applied(m, o, line, r), r.grid)
    ensures NoneFrom(Applied(m, o, line, r), r.grid, o.at + 1)
  {
    var m' := Applied(m, o, line, r);
    hide Applied;
    forall i, a | o.at + 1 <= i && Holds(m', i, a)
      ensures a.grid != r.grid
    {
      AppliedHolds(m, o, line, r, i, a);
    }
    forall i, j, a, b | Holds(m', i, a) && Holds(m', j, b) && a.grid == r.grid && b.grid == r.grid && i < j
      ensures a.line <= b.line
    {
      AppliedHolds(m, o, line, r, i, a);
      AppliedHolds(m, o, line, r, j, b);
    }
  }

  /** Only lines already offered are referees. */
  lemma RefereesOffered(axis: Axis, g: nat, k: nat, limit: real)
    requires Mergeable(axis) && InRun(axis, g, k) && limit > 0.0
    ensures forall i, a :: Holds(After(axis, g, k, limit), i, a) ==> Offered(axis, g, k, a)
  {
    var m := After(axis, g, k, limit);
    forall i, a | Holds(m, i, a)
      ensures Offered(axis, g, k, a)
    {
      BagCounts(m, i, a);
      RunConserves(axis, g, k, limit, a);
    }
  }

  ghost predicate OnePerLine(m: LineSlots, lines: seq<Line>, k: nat)
    requires k <= |lines|
  {
    |m| == k && forall i :: 0 <= i < k ==> m[i] == NewSlot(lines[i], Referee(0, i))
  }

  lemma NextLine(m: LineSlots, lines: seq<Line>, k: nat, limit: real)
    requires k < |lines| && Increasing(lines) && OnePerLine(m, lines, k) && Keyed(m) && limit > 0.0
    ensures OnePerLine(Offer(m, lines[k], Referee(0, k), limit), lines, k + 1)
  {
    hide Offer;
    OfferShape(m, lines[k], Referee(0, k), limit);
    LowerBoundIs(m, lines[k].position, k);
  }

  /** An increasing first grid becomes one slot per line, in order. */
  lemma {:induction false} SeedInOrder(axis: Axis, k: nat, limit: real)
    requires Mergeable(axis) && InRun(axis, 0, k) && limit > 0.0 && Increasing(axis[0])
    ensures OnePerLine(After(axis, 0, k, limit), axis[0], k)
  {
    hide Offer;
    if k > 0 {
      SeedInOrder(axis, k - 1, limit);
      RunIsExact(axis, 0, k - 1, limit);
      NextLine(After(axis, 0, k - 1, limit), axis[0], k - 1, limit);
    }
  }

  ghost predicate Frontier(m: LineSlots, h: nat, p: real, limit: real) {
    exists e :: Anchored(m, p, e, limit) && NoneFrom(m, h, e + 1)
  }

  lemma OwnLine(axis: Axis, g: nat, k: nat, limit: real)
    requires Mergeable(axis) && InRun(axis, g, k) && limit > 0.0 && g > 0 && k > 0
    requires Increasing(axis[g])
    requires InOrder(After(axis, g, k - 1, limit), g)
    requires if k == 1 then NoneFrom(After(axis, g, 0, limit), g, 0)
             else Frontier(After(axis, g, k - 1, limit), g, axis[g][k - 2].position, limit)
    ensures InOrder(After(axis, g, k, limit), g)
    ensures Frontier(After(axis, g, k, limit), g, axis[g][k - 1].position, limit)
  {
    hide Offer, Applied, Anchored, LowerBound, InsertOutcome;
    var m, line, r := After(axis, g, k - 1, limit), axis[g][k - 1], Referee(g, k - 1);
    var o := InsertOutcome(m, line.position, limit);
    RunIsExact(axis, g, k - 1, limit);
    OfferShape(m, line, r, limit);
    InsertionAnchors(m, line, r, limit);
    if k > 1 {
      var p := axis[g][k - 2].position;
      var e :| Anchored(m, p, e, limit) && NoneFrom(m, g, e + 1);
      LandsAtOrAbove(m, p, e, line.position, limit);
    }
    RefereesOffered(axis, g, k - 1, limit);
    OwnKeepsOrder(m, o, line, r);
  }

  lemma {:induction false} RunInOrder(axis: Axis, g: nat, k: nat, limit: real, h: nat)
    requires Mergeable(axis) && InRun(axis, g, k) && limit > 0.0
    requires h < |axis| && Increasing(axis[h])
    ensures InOrder(After(axis, g, k, limit), h)
    ensures g == h > 0 && k > 0 ==> Frontier(After(axis, g, k, limit), h, axis[h][k - 1].position, limit)
    decreases g, k
  {
    hide Offer, OfferOutcome, Applied, InOrder, Frontier, Increasing;
    if k > 0 {
      RunInOrder(axis, g, k - 1, limit, h);
      if g != h {
        var m, line, r := After(axis, g, k - 1, limit), axis[g][k - 1], Referee(g, k - 1);
        RunIsExact(axis, g, k - 1, limit);
        OfferShape(m, line, r, limit);
        OthersKeepOrder(m, OfferOutcome(m, line.position, g, limit), line, r, h);
      } else if h == 0 {
        SeedKeepsOrder(axis, k, limit);
      } else {
        NoneYet(axis, g, limit);
        OwnLine(axis, g, k, limit);
      }
    } else if g > 0 {
      RunInOrder(axis, g - 1, |axis[g - 1]|, limit, h);
    } else {
      NothingInOrder(h);
    }
  }

  lemma NoneYet(axis: Axis, g: nat, limit: real)
    requires Mergeable(axis) && InRun(axis, g, 0) && limit > 0.0
    ensures NoneFrom(After(axis, g, 0, limit), g, 0)
  {
    RefereesOffered(axis, g, 0, limit);
  }

  lemma SeedKeepsOrder(axis: Axis, k: nat, limit: real)
    requires Mergeable(axis) && InRun(axis, 0, k) && limit > 0.0 && Increasing(axis[0])
    ensures InOrder(After(axis, 0, k, limit), 0)
  {
    hide After;
    SeedInOrder(axis, k, limit);
  }

  lemma NothingInOrder(h: nat)
    ensures InOrder([], h)
  {
  }
}
