/**
  Merging the lines of many grids along one axis (lib/calibration/gridmath.cpp).

  `axis[g]` holds the lines of grid `g`.  Lines are merged one at a time into an ordered map
  from position to entry; the map after the lines of all grids before `g` and the first `k`
  lines of grid `g` is `After(axis, g, k, limit)`.
 */
module GridMath {
  import opened Common
  import opened OrderedMap
  import opened LineGrids

  datatype Referee = Referee(grid: nat, line: nat)

  datatype Entry = Entry(line: Line, counter: nat, referees: seq<Referee>)

  type LineSlots = seq<Slot<Entry>>

  type Axis = seq<seq<Line>>

  // ---------------------------------------------------------------- one insertion

  function NewEntry(line: Line, r: Referee): Entry {
    Entry(line, 1, [r])
  }

  /** The mean `x` of `c` positions, updated with one more position. */
  function RunningMean(c: nat, x: real, p: real): real {
    var denom := 1.0 / (c as real + 1.0);
    c as real * denom * x + p * denom
  }

  function MergedEntry(e: Entry, line: Line, r: Referee): Entry {
    var position := RunningMean(e.counter, e.line.position, line.position);
    Entry(e.line.(position := position), e.counter + 1, e.referees + [r])
  }

  predicate Merges(m: LineSlots, p: real, limit: real)
    requires Sorted(m) && m != []
  {
    Abs(m[Nearest(m, p)].key - p) < limit
  }

  function Inserted(m: LineSlots, line: Line, r: Referee, limit: real): LineSlots
    requires Sorted(m) && m != []
  {
    if Merges(m, line.position, limit) then
      var n := Nearest(m, line.position);
      var e := MergedEntry(m[n].value, line, r);
      Emplace(Erase(m, n), e.line.position, e)
    else
      Emplace(m, line.position, NewEntry(line, r))
  }

  ghost predicate Keyed(m: LineSlots) {
    Sorted(m) && forall i :: 0 <= i < |m| ==> m[i].key == m[i].value.line.position
  }

  lemma RunningMeanExact(c: nat, x: real, p: real)
    ensures Between(RunningMean(c, x, p), x, p)
    ensures (c as real + 1.0) * RunningMean(c, x, p) == c as real * x + p
  {
    var n := c as real + 1.0;
    var d := 1.0 / n;
    var y := RunningMean(c, x, p);
    assert n * d == 1.0;
    assert y == x + (p - x) * d by {
      assert c as real * d == 1.0 - d;
    }
    assert n * y == n * x + (p - x) * (n * d);
    assert 0.0 < d <= 1.0;
    if x <= p {
      assert 0.0 <= (p - x) * d <= p - x;
    } else {
      assert 0.0 <= (x - p) * d <= x - p;
      assert (p - x) * d == -((x - p) * d);
    }
  }

  function NewSlot(line: Line, r: Referee): Slot<Entry> {
    Slot(line.position, NewEntry(line, r))
  }

  function MergedSlot(s: Slot<Entry>, line: Line, r: Referee): Slot<Entry> {
    var e := MergedEntry(s.value, line, r);
    Slot(e.line.position, e)
  }

  lemma MergedBetween(s: Slot<Entry>, line: Line, r: Referee)
    requires s.key == s.value.line.position
    ensures Between(MergedSlot(s, line, r).key, s.key, line.position)
  {
    RunningMeanExact(s.value.counter, s.key, line.position);
  }

  /** What a line does to the map: nothing, a new slot, or a merge into a slot. */
  datatype Outcome = Dropped | Fresh(at: nat) | Joins(at: nat)

  ghost predicate ValidOutcome(m: LineSlots, o: Outcome) {
    match o
    case Dropped => true
    case Fresh(n) => n <= |m|
    case Joins(n) => n < |m|
  }

  ghost function Applied(m: LineSlots, o: Outcome, line: Line, r: Referee): LineSlots
    requires ValidOutcome(m, o)
  {
    match o
    case Dropped => m
    case Fresh(n) => m[..n] + [NewSlot(line, r)] + m[n..]
    case Joins(n) => m[n := MergedSlot(m[n], line, r)]
  }

  ghost function InsertOutcome(m: LineSlots, p: real, limit: real): (o: Outcome)
    requires Sorted(m) && m != []
    ensures ValidOutcome(m, o) && !o.Dropped?
  {
    if Merges(m, p, limit) then Joins(Nearest(m, p)) else Fresh(LowerBound(m, p))
  }

  /**
    Insertion loses and reorders nothing: a merge is an update of one slot in place, and the
    other branch always adds a slot, because a position at least `limit` away from the
    nearest key is no key.
   */
  lemma InsertionShape(m: LineSlots, line: Line, r: Referee, limit: real)
    requires Keyed(m) && m != [] && limit > 0.0
    ensures Inserted(m, line, r, limit) == Applied(m, InsertOutcome(m, line.position, limit), line, r)
    ensures Keyed(Inserted(m, line, r, limit))
  {
    var p := line.position;
    if Merges(m, p, limit) {
      var n := Nearest(m, p);
      MergedBetween(m[n], line, r);
      RekeyInPlace(m, p, MergedSlot(m[n], line, r).key, MergedEntry(m[n].value, line, r));
    } else {
      NearestIsGlobal(m, p, Nearest(m, p));
      assert !HasKey(m, p);
      EmplaceNew(m, p, NewEntry(line, r));
    }
  }

  // ---------------------------------------------------------------- whole runs

  /** A line of the first grid is emplaced, a line of a later grid inserted. */
  function Offer(m: LineSlots, line: Line, r: Referee, limit: real): (m': LineSlots)
    requires Sorted(m) && (m == [] ==> r.grid == 0)
    ensures Sorted(m') && m' != []
  {
    if r.grid == 0 then Emplace(m, line.position, NewEntry(line, r)) else Inserted(m, line, r, limit)
  }

  ghost function OfferOutcome(m: LineSlots, p: real, grid: nat, limit: real): (o: Outcome)
    requires Sorted(m) && (m == [] ==> grid == 0)
    ensures ValidOutcome(m, o)
  {
    if grid > 0 then InsertOutcome(m, p, limit)
    else if HasKey(m, p) then Dropped
    else Fresh(LowerBound(m, p))
  }

  lemma OfferShape(m: LineSlots, line: Line, r: Referee, limit: real)
    requires Keyed(m) && (m == [] ==> r.grid == 0) && limit > 0.0
    ensures Offer(m, line, r, limit) == Applied(m, OfferOutcome(m, line.position, r.grid, limit), line, r)
  {
    if r.grid > 0 {
      InsertionShape(m, line, r, limit);
    } else if !HasKey(m, line.position) {
      EmplaceNew(m, line.position, NewEntry(line, r));
    }
  }

  /** The calls `insertLine` makes on an empty map are undefined, so the first grid must have lines. */
  ghost predicate Mergeable(axis: Axis) {
    axis != [] && (axis[0] == [] ==> forall g :: 0 <= g < |axis| ==> axis[g] == [])
  }

  ghost predicate InRun(axis: Axis, g: nat, k: nat) {
    g < |axis| && k <= |axis[g]|
  }

  function After(axis: Axis, g: nat, k: nat, limit: real): (m: LineSlots)
    requires Mergeable(axis) && InRun(axis, g, k)
    ensures Sorted(m)
    ensures axis[0] != [] && (0 < g || 0 < k) ==> m != []
    decreases g, k
  {
    if k > 0 then
      var m := After(axis, g, k - 1, limit);
      Offer(m, axis[g][k - 1], Referee(g, k - 1), limit)
    else if g > 0 then After(axis, g - 1, |axis[g - 1]|, limit)
    else []
  }

  function Merged(axis: Axis, limit: real): (m: LineSlots)
    requires Mergeable(axis)
  {
    After(axis, |axis| - 1, |axis[|axis| - 1]|, limit)
  }
}
