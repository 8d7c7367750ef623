/**
  What the counter of a merged entry counts (lib/calibration/gridmath.cpp:44).

  It is described as the number of grids that an entry was constructed from, and the
  selection of the target lines compares it with the number of grids.  It counts lines: two
  lines of one grid can meet in one entry.  A grid never does this, whatever it is merged
  with, exactly when its lines are pairwise at least twice the limit apart.
 */
module GridCount {
  import opened Common
  import opened OrderedMap
  import opened LineGrids
  import opened GridMath
  import opened GridMathTheorems
  import opened GridOrder
  import opened GridAverage

  // ---------------------------------------------------------------- lines that are far apart

  /** Any two lines are at least `2 * limit` apart, in whatever order they are listed. */
  ghost predicate SpreadOut(lines: seq<Line>, limit: real) {
    forall a, b :: 0 <= a < b < |lines| ==> Abs(lines[a].position - lines[b].position) >= 2.0 * limit
  }

  /** No entry holds two lines of grid `h`. */
  ghost predicate OnePerEntry(m: LineSlots, h: nat) {
    forall i, a, b :: Holds(m, i, a) && Holds(m, i, b) && a.grid == h && b.grid == h ==> a == b
  }

  /** The entry of every line of grid `h` is still within the limit of it. */
  ghost predicate Near(axis: Axis, m: LineSlots, h: nat, limit: real) {
    forall i, a :: Holds(m, i, a) && a.grid == h && ValidReferee(axis, a)
                   ==> Abs(m[i].key - axis[h][a.line].position) < limit
  }

  lemma OthersStayOne(m: LineSlots, o: Outcome, line: Line, r: Referee, h: nat)
    requires ValidOutcome(m, o) && OnePerEntry(m, h) && (r.grid != h || !o.Joins?)
    ensures OnePerEntry(Applied(m, o, line, r), h)
  {
    var m' := Applied(m, o, line, r);
    forall i, a, b | Holds(m', i, a) && Holds(m', i, b) && a.grid == h && b.grid == h
      ensures a == b
    {
      if o.Fresh? && i == o.at {
        assert m'[i] == NewSlot(line, r);
      } else {
        hide Applied;
        AppliedHolds(m, o, line, r, i, a);
        AppliedHolds(m, o, line, r, i, b);
      }
    }
  }

  /** A line joins no entry that holds another line of its grid. */
  lemma JoinsForeign(axis: Axis, m: LineSlots, r: Referee, limit: real, a: Referee)
    requires Keyed(m) && m != [] && ValidReferee(axis, r) && Merges(m, axis[r.grid][r.line].position, limit)
    requires SpreadOut(axis[r.grid], limit) && Near(axis, m, r.grid, limit)
    requires a.grid == r.grid && a.line < r.line
    ensures !Holds(m, Nearest(m, axis[r.grid][r.line].position), a)
  {
    assert Abs(axis[r.grid][a.line].position - axis[r.grid][r.line].position) >= 2.0 * limit;
  }

  lemma OwnStaysNear(axis: Axis, m: LineSlots, r: Referee, limit: real)
    requires Keyed(m) && m != [] && limit > 0.0 && ValidReferee(axis, r)
    requires Near(axis, m, r.grid, limit)
    requires var line := axis[r.grid][r.line];
             var o := InsertOutcome(m, line.position, limit);
             forall a :: o.Joins? && Holds(m, o.at, a) ==> a.grid != r.grid
    ensures var line := axis[r.grid][r.line];
            Near(axis, Applied(m, InsertOutcome(m, line.position, limit), line, r), r.grid, limit)
  {
    var h, line := r.grid, axis[r.grid][r.line];
    var o := InsertOutcome(m, line.position, limit);
    var m' := Applied(m, o, line, r);
    if o.Joins? {
      MergedBetween(m[o.at], line, r);
    }
    hide Keyed, Sorted, LowerBound;
    forall i, a | Holds(m', i, a) && a.grid == h && ValidReferee(axis, a)
      ensures Abs(m'[i].key - axis[h][a.line].position) < limit
    {
      AppliedHolds(m, o, line, r, i, a);
    }
  }

  /** One more line of a spread out grid: still one per entry, and every entry near its line. */
  lemma OwnStaysOne(axis: Axis, m: LineSlots, r: Referee, limit: real)
    requires Keyed(m) && m != [] && limit > 0.0 && ValidReferee(axis, r)
    requires SpreadOut(axis[r.grid], limit) && OnePerEntry(m, r.grid) && Near(axis, m, r.grid, limit)
    requires forall i, a :: Holds(m, i, a) && a.grid == r.grid ==> a.line < r.line
    ensures var line := axis[r.grid][r.line];
            var m' := Applied(m, InsertOutcome(m, line.position, limit), line, r);
            OnePerEntry(m', r.grid) && Near(axis, m', r.grid, limit)
  {
    hide OnePerEntry, Near, SpreadOut, Applied;
    var line := axis[r.grid][r.line];
    var o := InsertOutcome(m, line.position, limit);
    if o.Joins? {
      forall a | Holds(m, o.at, a)
        ensures a.grid != r.grid
      {
        if a.grid == r.grid {
          JoinsForeign(axis, m, r, limit, a);
        }
      }
      OwnSlotOnly(m, o, line, r);
    } else {
      OthersStayOne(m, o, line, r, r.grid);
    }
    OwnStaysNear(axis, m, r, limit);
  }

  lemma OwnSlotOnly(m: LineSlots, o: Outcome, line: Line, r: Referee)
    requires ValidOutcome(m, o) && OnePerEntry(m, r.grid) && o.Joins?
    requires forall a :: Holds(m, o.at, a) ==> a.grid != r.grid
    ensures OnePerEntry(Applied(m, o, line, r), r.grid)
  {
    var m' := Applied(m, o, line, r);
    hide Applied;
    forall i, a, b | Holds(m', i, a) && Holds(m', i, b) && a.grid == r.grid && b.grid == r.grid
      ensures a == b
    {
      AppliedHolds(m, o, line, r, i, a);
      AppliedHolds(m, o, line, r, i, b);
    }
  }

  lemma RunStep(axis: Axis, g: nat, k: nat, limit: real, h: nat)
    requires Mergeable(axis) && InRun(axis, g, k) && k > 0 && limit > 0.0 && h < |axis|
    requires h == 0 || SpreadOut(axis[h], limit)
    requires OnePerEntry(After(axis, g, k - 1, limit), h)
    requires g <= h && h > 0 ==> Near(axis, After(axis, g, k - 1, limit), h, limit)
    ensures OnePerEntry(After(axis, g, k, limit), h)
    ensures g <= h && h > 0 ==> Near(axis, After(axis, g, k, limit), h, limit)
  {
    hide Offer, Applied, InsertOutcome, OnePerEntry, Near, SpreadOut;
    var m, line, r := After(axis, g, k - 1, limit), axis[g][k - 1], Referee(g, k - 1);
    RunIsExact(axis, g, k - 1, limit);
    OfferShape(m, line, r, limit);
    if g == h > 0 {
      RefereesOffered(axis, g, k - 1, limit);
      OwnStaysOne(axis, m, r, limit);
    } else {
      OthersStayOne(m, OfferOutcome(m, line.position, g, limit), line, r, h);
      if g < h {
        NothingYet(axis, g, k, limit, h);
      }
    }
  }

  /** Before the first line of grid `h` there is nothing to be near to. */
  lemma NothingYet(axis: Axis, g: nat, k: nat, limit: real, h: nat)
    requires Mergeable(axis) && InRun(axis, g, k) && limit > 0.0 && (g < h || (g == h && k == 0))
    ensures Near(axis, After(axis, g, k, limit), h, limit)
  {
    RefereesOffered(axis, g, k, limit);
  }

  /**
    A grid whose lines are spread out has at most one line in every entry, after every step of
    every run and whatever the other grids contain.  The first grid needs no condition.
   */
  lemma {:induction false} SpreadOutMeetsNever(axis: Axis, g: nat, k: nat, limit: real, h: nat)
    requires Mergeable(axis) && InRun(axis, g, k) && limit > 0.0 && h < |axis|
    requires h == 0 || SpreadOut(axis[h], limit)
    ensures OnePerEntry(After(axis, g, k, limit), h)
    ensures g <= h && h > 0 ==> Near(axis, After(axis, g, k, limit), h, limit)
    decreases g, k
  {
    hide Offer, Near, SpreadOut;
    if k > 0 {
      SpreadOutMeetsNever(axis, g, k - 1, limit, h);
      RunStep(axis, g, k, limit, h);
    } else {
      if g > 0 {
        SpreadOutMeetsNever(axis, g - 1, |axis[g - 1]|, limit, h);
      }
      if g <= h {
        NothingYet(axis, g, 0, limit, h);
      }
    }
  }

  // ---------------------------------------------------------------- the counter as a number of grids

  ghost function GridsOf(rs: seq<Referee>): set<nat> {
    set r | r in rs :: r.grid
  }

  lemma {:induction false} DistinctGridsCount(rs: seq<Referee>)
    requires forall i, j :: 0 <= i < j < |rs| ==> rs[i].grid != rs[j].grid
    ensures |GridsOf(rs)| == |rs|
  {
    if rs != [] {
      var n := |rs| - 1;
      DistinctGridsCount(rs[..n]);
      assert rs == rs[..n] + [rs[n]];
      assert GridsOf(rs) == GridsOf(rs[..n]) + {rs[n].grid};
      assert rs[n].grid !in GridsOf(rs[..n]);
    }
  }

  /**
    When the lines of all grids but the first are spread out, the counter of every entry is the
    number of grids it was constructed from, so a line is retained exactly when more than half
    of the grids have it.
   */
  lemma CounterCountsGrids(axis: Axis, limit: real, i: nat)
    requires Mergeable(axis) && limit > 0.0
    requires forall h :: 0 < h < |axis| ==> SpreadOut(axis[h], limit)
    requires i < |Merged(axis, limit)|
    ensures var e := Merged(axis, limit)[i].value;
            && e.counter == |GridsOf(e.referees)|
            && (Retained(e, |axis|) <==> 2 * |GridsOf(e.referees)| > |axis|)
  {
    hide Merged, SpreadOut;
    var m, n := Merged(axis, limit), |axis|;
    MergedIsExact(axis, limit);
    assert ExactSlot(axis, m[i]);
    var rs := m[i].value.referees;
    forall s, t | 0 <= s < t < |rs|
      ensures rs[s].grid != rs[t].grid
    {
      var a, b := rs[s], rs[t];
      assert Holds(m, i, a) && Holds(m, i, b);
      assert ValidReferee(axis, a);
      if a.grid == b.grid {
        MeetsNeverMerged(axis, limit, a.grid);
        assert a == b;
        EveryLineInOneEntry(axis, limit, a);
        CountedTwice(rs, a);
      }
    }
    DistinctGridsCount(rs);
  }

  lemma MeetsNeverMerged(axis: Axis, limit: real, h: nat)
    requires Mergeable(axis) && limit > 0.0 && h < |axis|
    requires h == 0 || SpreadOut(axis[h], limit)
    ensures OnePerEntry(Merged(axis, limit), h)
  {
    SpreadOutMeetsNever(axis, |axis| - 1, |axis[|axis| - 1]|, limit, h);
  }

  // ---------------------------------------------------------------- lines that can meet

  /** Two lines of the second of four grids meet; their entry is retained for two grids out of four. */
  const CROWDED: Axis := [[Line(SUBGRID_A, 0.0)], [Line(SUBGRID_A, 0.0), Line(SUBGRID_A, 5.0)], [], []]

  lemma CounterExceedsGrids()
    ensures Mergeable(CROWDED) && |Merged(CROWDED, LIMIT_HORIZONTAL)| == 1
    ensures var e := Merged(CROWDED, LIMIT_HORIZONTAL)[0].value;
            && e.counter == 3 && GridsOf(e.referees) == {0, 1}
            && Retained(e, |CROWDED|) && !(2 * |GridsOf(e.referees)| > |CROWDED|)
  {
    hide Inserted, Emplace, Sorted;
    var limit := LIMIT_HORIZONTAL;
    SeedInOrder(CROWDED, 1, limit);
    var m0 := After(CROWDED, 1, 0, limit);
    assert m0 == After(CROWDED, 0, 1, limit);
    RunIsExact(CROWDED, 1, 0, limit);
    InsertionShape(m0, CROWDED[1][0], Referee(1, 0), limit);
    var m1 := After(CROWDED, 1, 1, limit);
    RunIsExact(CROWDED, 1, 1, limit);
    assert m1 == [MergedSlot(m0[0], CROWDED[1][0], Referee(1, 0))];
    assert m1[0].key == 0.0;
    InsertionShape(m1, CROWDED[1][1], Referee(1, 1), limit);
    var m2 := After(CROWDED, 1, 2, limit);
    assert m2 == [MergedSlot(m1[0], CROWDED[1][1], Referee(1, 1))];
    assert m2 == After(CROWDED, 2, 0, limit) == After(CROWDED, 3, 0, limit);
    assert m2[0].value.referees == [Referee(0, 0), Referee(1, 0), Referee(1, 1)];
    assert GridsOf(m2[0].value.referees) == {0, 1};
  }

  /**
    Many grids with one line at `center`, and then the grid in question.  The entry at the
    center has so many referees that one more line moves it by `slack` at most; every line
    within `radius` of the center is then within the limit of that entry.
   */
  datatype Trap = Trap(center: real, radius: real, slack: real, size: nat)

  ghost predicate Tight(t: Trap, limit: real) {
    t.slack > 0.0 && t.radius + t.slack < limit <= t.slack * (t.size as real + 2.0)
  }

  ghost function Baited(t: Trap, lines: seq<Line>): (axis: Axis)
    ensures |axis| == t.size + 2 && axis[t.size + 1] == lines && Mergeable(axis)
    ensures forall g :: 0 <= g <= t.size ==> axis[g] == [Line(SUBGRID_A, t.center)]
  {
    seq(t.size + 1, g => [Line(SUBGRID_A, t.center)]) + [lines]
  }

  lemma {:induction false} BaitGathers(t: Trap, lines: seq<Line>, g: nat, limit: real)
    requires g <= t.size && limit > 0.0
    ensures var m := After(Baited(t, lines), g, 1, limit);
            |m| == 1 && m[0].key == t.center && m[0].value.counter == g + 1
  {
    hide Inserted, Emplace, Sorted;
    var axis := Baited(t, lines);
    if g == 0 {
      SeedInOrder(axis, 1, limit);
    } else {
      BaitGathers(t, lines, g - 1, limit);
      var m := After(axis, g, 0, limit);
      assert m == After(axis, g - 1, 1, limit);
      RunIsExact(axis, g, 0, limit);
      InsertionShape(m, axis[g][0], Referee(g, 0), limit);
      MergedBetween(m[0], axis[g][0], Referee(g, 0));
    }
  }

  ghost predicate HasLineOf(m: LineSlots, i: int, h: nat) {
    exists a :: Holds(m, i, a) && a.grid == h
  }

  /** Slot `z` is the trap: lines `< k` within the radius are in it, and all other slots are of grid `h`. */
  ghost predicate Trapping(t: Trap, lines: seq<Line>, m: LineSlots, h: nat, k: nat, z: int)
    requires k <= |lines|
  {
    && 0 <= z < |m|
    && (if HasLineOf(m, z, h) then Abs(m[z].key - t.center) <= t.slack
        else m[z].key == t.center && m[z].value.counter == t.size + 1)
    && (forall i :: 0 <= i < |m| && i != z ==> HasLineOf(m, i, h))
    && (forall a :: 0 <= a < k && Abs(lines[a].position - t.center) <= t.radius ==> Holds(m, z, Referee(h, a)))
  }

  lemma StillHasLine(m: LineSlots, o: Outcome, line: Line, r: Referee, i: int, h: nat)
    requires ValidOutcome(m, o) && HasLineOf(m, i, h)
    ensures HasLineOf(Applied(m, o, line, r), if o.Fresh? && o.at <= i then i + 1 else i, h)
  {
    var a :| Holds(m, i, a) && a.grid == h;
    assert Holds(Applied(m, o, line, r), if o.Fresh? && o.at <= i then i + 1 else i, a);
  }

  /** A meeting is never undone. */
  lemma MeetingStays(m: LineSlots, o: Outcome, line: Line, r: Referee, h: nat)
    requires ValidOutcome(m, o) && !OnePerEntry(m, h)
    ensures !OnePerEntry(Applied(m, o, line, r), h)
  {
    var m' := Applied(m, o, line, r);
    var i, a, b :| Holds(m, i, a) && Holds(m, i, b) && a.grid == h && b.grid == h && a != b;
    var j := if o.Fresh? && o.at <= i then i + 1 else i;
    assert Holds(m', j, a) && Holds(m', j, b);
  }

  /** Joining an entry that has a line of the grid already is a meeting. */
  lemma JoiningMeets(m: LineSlots, o: Outcome, line: Line, r: Referee)
    requires ValidOutcome(m, o) && o.Joins? && HasLineOf(m, o.at, r.grid)
    requires !Holds(m, o.at, r)
    ensures !OnePerEntry(Applied(m, o, line, r), r.grid)
  {
    var m' := Applied(m, o, line, r);
    var a :| Holds(m, o.at, a) && a.grid == r.grid;
    assert Holds(m', o.at, a) && Holds(m', o.at, r);
  }

  lemma TrapBarelyMoves(t: Trap, limit: real, p: real)
    requires Tight(t, limit) && Abs(t.center - p) < limit
    ensures Abs(RunningMean(t.size + 1, t.center, p) - t.center) <= t.slack
  {
    var y, c := RunningMean(t.size + 1, t.center, p), (t.size + 1) as real;
    RunningMeanExact(t.size + 1, t.center, p);
    hide RunningMean;
    var n := c + 1.0;
    assert n == t.size as real + 2.0;
    assert limit <= t.slack * n;
    Shifted(c, y, t.center, p);
    Cancelled(n, y - t.center, t.slack);
    Cancelled(n, t.center - y, t.slack);
  }

  lemma Shifted(c: real, y: real, x: real, p: real)
    requires (c + 1.0) * y == c * x + p
    ensures (c + 1.0) * (y - x) == p - x && (c + 1.0) * (x - y) == x - p
  {
    assert (c + 1.0) * (y - x) == (c + 1.0) * y - c * x - x;
    assert (c + 1.0) * (x - y) == c * x + x - (c + 1.0) * y;
  }

  lemma Cancelled(n: real, a: real, b: real)
    requires n > 0.0 && n * a <= b * n
    ensures a <= b
  {
    assert n * (b - a) >= 0.0;
  }

  /** A line within the radius joins some entry. */
  lemma TrappedLineJoins(t: Trap, lines: seq<Line>, m: LineSlots, h: nat, k: nat, z: int, limit: real)
    requires Keyed(m) && Tight(t, limit) && k < |lines| && Trapping(t, lines, m, h, k, z)
    requires Abs(lines[k].position - t.center) <= t.radius
    ensures InsertOutcome(m, lines[k].position, limit).Joins?
  {
    var n := Nearest(m, lines[k].position);
    NearestIsGlobal(m, lines[k].position, n);
    assert Abs(m[z].key - lines[k].position) < limit;
    assert Abs(m[n].key - lines[k].position) <= Abs(m[z].key - lines[k].position);
  }

  lemma TrapCloses(t: Trap, lines: seq<Line>, m: LineSlots, h: nat, k: nat, z: nat, limit: real)
    requires Keyed(m) && Tight(t, limit) && k < |lines| && Trapping(t, lines, m, h, k, z)
    requires !HasLineOf(m, z, h) && InsertOutcome(m, lines[k].position, limit) == Joins(z)
    ensures Trapping(t, lines, Applied(m, Joins(z), lines[k], Referee(h, k)), h, k + 1, z)
  {
    var r := Referee(h, k);
    var m' := Applied(m, Joins(z), lines[k], r);
    TrapBarelyMoves(t, limit, lines[k].position);
    hide RunningMean;
    assert Holds(m', z, r);
    assert HasLineOf(m', z, h);
    forall i | 0 <= i < |m'| && i != z
      ensures HasLineOf(m', i, h)
    {
      StillHasLine(m, Joins(z), lines[k], r, i, h);
    }
  }

  lemma TrapWaits(t: Trap, lines: seq<Line>, m: LineSlots, h: nat, k: nat, z: nat, n: nat)
    requires k < |lines| && n <= |m| && Trapping(t, lines, m, h, k, z)
    requires Abs(lines[k].position - t.center) > t.radius
    ensures Trapping(t, lines, Applied(m, Fresh(n), lines[k], Referee(h, k)), h, k + 1, if n <= z then z + 1 else z)
  {
    var r := Referee(h, k);
    var m' := Applied(m, Fresh(n), lines[k], r);
    var z' := if n <= z then z + 1 else z;
    assert m'[z'] == m[z];
    forall a
      ensures Holds(m', z', a) <==> Holds(m, z, a)
    {
    }
    forall i | 0 <= i < |m'| && i != z'
      ensures HasLineOf(m', i, h)
    {
      if i == n {
        assert Holds(m', i, r);
      } else {
        StillHasLine(m, Fresh(n), lines[k], r, if i < n then i else i - 1, h);
      }
    }
  }

  ghost predicate TrapSet(t: Trap, lines: seq<Line>, m: LineSlots, h: nat, k: nat)
    requires k <= |lines|
  {
    !OnePerEntry(m, h) || exists z: nat :: Trapping(t, lines, m, h, k, z)
  }

  lemma TrapStep(t: Trap, lines: seq<Line>, m: LineSlots, h: nat, k: nat, limit: real)
    requires Keyed(m) && m != [] && Tight(t, limit) && limit > 0.0 && k < |lines| && TrapSet(t, lines, m, h, k)
    requires forall i :: !Holds(m, i, Referee(h, k))
    ensures TrapSet(t, lines, Applied(m, InsertOutcome(m, lines[k].position, limit), lines[k], Referee(h, k)), h, k + 1)
  {
    hide Keyed, Applied, OnePerEntry, Trapping, InsertOutcome;
    var line, r := lines[k], Referee(h, k);
    assert Sorted(m) by { KeyedIsSorted(m); }
    var o := InsertOutcome(m, line.position, limit);
    if !OnePerEntry(m, h) {
      MeetingStays(m, o, line, r, h);
    } else {
      var z: nat :| Trapping(t, lines, m, h, k, z);
      TrapSteps(t, lines, m, h, k, z, limit);
    }
  }

  lemma KeyedIsSorted(m: LineSlots)
    requires Keyed(m)
    ensures Sorted(m)
  {
  }

  lemma TrapSteps(t: Trap, lines: seq<Line>, m: LineSlots, h: nat, k: nat, z: nat, limit: real)
    requires Keyed(m) && m != [] && Tight(t, limit) && k < |lines| && Trapping(t, lines, m, h, k, z)
    requires forall i :: !Holds(m, i, Referee(h, k))
    ensures TrapSet(t, lines, Applied(m, InsertOutcome(m, lines[k].position, limit), lines[k], Referee(h, k)), h, k + 1)
  {
    hide Applied, InsertOutcome, OnePerEntry, HasLineOf;
    var line, r := lines[k], Referee(h, k);
    var o := InsertOutcome(m, line.position, limit);
    if Abs(line.position - t.center) <= t.radius {
      TrappedLineJoins(t, lines, m, h, k, z, limit);
    }
    if o.Fresh? {
      TrapWaits(t, lines, m, h, k, z, o.at);
    } else if HasLineOf(m, o.at, h) {
      JoiningMeets(m, o, line, r);
    } else {
      TrapCloses(t, lines, m, h, k, z, limit);
    }
  }

  lemma {:induction false} TrapRun(t: Trap, lines: seq<Line>, k: nat, limit: real)
    requires Tight(t, limit) && limit > 0.0 && k <= |lines|
    ensures TrapSet(t, lines, After(Baited(t, lines), t.size + 1, k, limit), t.size + 1, k)
  {
    hide Offer, Applied, InsertOutcome, TrapSet;
    var axis, h := Baited(t, lines), t.size + 1;
    if k == 0 {
      TrapOpens(t, lines, limit);
    } else {
      TrapRun(t, lines, k - 1, limit);
      var m, r := After(axis, h, k - 1, limit), Referee(h, k - 1);
      RunIsExact(axis, h, k - 1, limit);
      OfferShape(m, lines[k - 1], r, limit);
      RefereesOffered(axis, h, k - 1, limit);
      TrapStep(t, lines, m, h, k - 1, limit);
    }
  }

  lemma TrapOpens(t: Trap, lines: seq<Line>, limit: real)
    requires limit > 0.0
    ensures TrapSet(t, lines, After(Baited(t, lines), t.size + 1, 0, limit), t.size + 1, 0)
  {
    hide Offer;
    var axis, h := Baited(t, lines), t.size + 1;
    var m := After(axis, h, 0, limit);
    BaitGathers(t, lines, t.size, limit);
    assert m == After(axis, t.size, 1, limit);
    RefereesOffered(axis, h, 0, limit);
    assert !HasLineOf(m, 0, h);
    assert Trapping(t, lines, m, h, 0, 0);
  }

  lemma TrapAround(center: real, radius: real, limit: real) returns (t: Trap)
    requires 0.0 <= radius < limit
    ensures t.center == center && t.radius == radius && Tight(t, limit)
  {
    var slack := (limit - radius) / 2.0;
    var x := limit / slack;
    assert slack * x == limit;
    var size: nat := x.Floor;
    var y := size as real + 2.0;
    assert y > x;
    assert slack * y - slack * x == slack * (y - x) > 0.0;
    t := Trap(center, radius, slack, size);
  }

  /** Lines `a` and `b` less than twice the limit apart meet in some run, if no other two do. */
  lemma CloseLinesMeet(lines: seq<Line>, a: nat, b: nat, limit: real) returns (axis: Axis, g: nat)
    requires a < b < |lines| && Abs(lines[a].position - lines[b].position) < 2.0 * limit
    ensures 0 < g < |axis| && axis[g] == lines && Mergeable(axis) && !OnePerEntry(Merged(axis, limit), g)
  {
    hide TrapSet, OnePerEntry, After, Mergeable;
    var p, q := lines[a].position, lines[b].position;
    var t := TrapAround((p + q) / 2.0, Abs(p - q) / 2.0, limit);
    axis, g := Baited(t, lines), t.size + 1;
    TrapRun(t, lines, |lines|, limit);
    TrapCatches(t, lines, Merged(axis, limit), g, a, b);
  }

  lemma TrapCatches(t: Trap, lines: seq<Line>, m: LineSlots, h: nat, a: nat, b: nat)
    requires TrapSet(t, lines, m, h, |lines|) && a < b < |lines|
    requires Abs(lines[a].position - t.center) <= t.radius && Abs(lines[b].position - t.center) <= t.radius
    ensures !OnePerEntry(m, h)
  {
    if z: nat :| Trapping(t, lines, m, h, |lines|, z) {
      assert Holds(m, z, Referee(h, a)) && Holds(m, z, Referee(h, b));
    }
  }

  // ---------------------------------------------------------------- the exact condition

  /** Merged as a later grid with any other grids, no two of these lines are counted in one entry. */
  ghost predicate NeverMeet(lines: seq<Line>, limit: real) {
    forall axis: Axis, g: nat :: 0 < g < |axis| && Mergeable(axis) && axis[g] == lines
                                 ==> OnePerEntry(Merged(axis, limit), g)
  }

  /**
    Lines of a grid are never counted twice in an entry, whatever the grid is merged with, if
    and only if they are pairwise at least twice the limit apart.
   */
  lemma NeverMeetIff(lines: seq<Line>, limit: real)
    requires limit > 0.0
    ensures NeverMeet(lines, limit) <==> SpreadOut(lines, limit)
  {
    hide Mergeable, Merged;
    if SpreadOut(lines, limit) {
      forall axis: Axis, g: nat | 0 < g < |axis| && Mergeable(axis) && axis[g] == lines
        ensures OnePerEntry(Merged(axis, limit), g)
      {
        MeetsNeverMerged(axis, limit, g);
      }
    } else {
      var a, b :| 0 <= a < b < |lines| && Abs(lines[a].position - lines[b].position) < 2.0 * limit;
      var axis, g := CloseLinesMeet(lines, a, b, limit);
    }
  }
}
