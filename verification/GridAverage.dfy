/**
  Averaging line grids: the target grid and the lookup tables from the lines of every source
  grid to the lines of the target (lib/calibration/gridmath.cpp, lib/calibration/gridmapper.cpp).
 */
module GridAverage {
  import opened OrderedMap
  import opened LineGrids
  import opened GridMath
  import opened GridMathTheorems
  import opened GridOrder

  const LIMIT_HORIZONTAL := 17.0
  const LIMIT_VERTICAL := 8.0

  // ---------------------------------------------------------------- extraction of one axis

  /** An entry is retained when it collected lines from more than half as many grids. */
  predicate Retained(e: Entry, n: nat) {
    e.counter > n / 2
  }

  /** Number of retained entries among the first `i` slots. */
  function Rank(m: LineSlots, n: nat, i: nat): nat
    requires i <= |m|
  {
    if i == 0 then 0 else Rank(m, n, i - 1) + if Retained(m[i - 1].value, n) then 1 else 0
  }

  /** The retained lines of the first `i` slots, in order. */
  function Target(m: LineSlots, n: nat, i: nat): (t: seq<Line>)
    requires i <= |m|
    ensures |t| == Rank(m, n, i)
  {
    if i == 0 then []
    else Target(m, n, i - 1) + if Retained(m[i - 1].value, n) then [m[i - 1].value.line] else []
  }

  type Tables = seq<seq<nat>>

  ghost predicate Fits(axis: Axis, t: Tables) {
    |t| == |axis| && forall g :: 0 <= g < |t| ==> |t[g]| == |axis[g]|
  }

  /** The tables after mapping the first `k` referees of one entry to target line `to`. */
  ghost function SetReferees(axis: Axis, t: Tables, rs: seq<Referee>, to: nat, k: nat): (t': Tables)
    requires Fits(axis, t) && ValidReferees(axis, rs) && k <= |rs|
    ensures Fits(axis, t')
  {
    if k == 0 then t
    else
      var t' := SetReferees(axis, t, rs, to, k - 1);
      var r := rs[k - 1];
      var row: seq<nat> := t'[r.grid][r.line := to];
      t'[r.grid := row]
  }

  /** The value-initialised tables. */
  ghost function NoMapping(axis: Axis): (t: Tables)
    ensures Fits(axis, t)
  {
    seq(|axis|, g requires 0 <= g < |axis| => seq(|axis[g]|, l => 0))
  }

  /** The tables after the first `i` slots have been extracted. */
  ghost function Mapping(axis: Axis, m: LineSlots, n: nat, i: nat): (t: Tables)
    requires i <= |m| && Exact(axis, m)
    ensures Fits(axis, t)
  {
    if i == 0 then NoMapping(axis)
    else
      var t := Mapping(axis, m, n, i - 1);
      var e := m[i - 1].value;
      if Retained(e, n) then SetReferees(axis, t, e.referees, Rank(m, n, i - 1), |e.referees|) else t
  }

  lemma {:induction false} SetRefereesAt(axis: Axis, t: Tables, rs: seq<Referee>, to: nat, k: nat, r: Referee)
    requires Fits(axis, t) && ValidReferees(axis, rs) && k <= |rs| && ValidReferee(axis, r)
    ensures SetReferees(axis, t, rs, to, k)[r.grid][r.line] == if r in rs[..k] then to else t[r.grid][r.line]
  {
    if k > 0 {
      SetRefereesAt(axis, t, rs, to, k - 1, r);
      assert rs[..k] == rs[..k - 1] + [rs[k - 1]];
    }
  }

  ghost predicate Unique(m: LineSlots, r: Referee) {
    forall i, j :: Holds(m, i, r) && Holds(m, j, r) ==> i == j
  }

  ghost predicate RetainedAt(m: LineSlots, n: nat, i: int, r: Referee) {
    Holds(m, i, r) && Retained(m[i].value, n)
  }

  lemma MappingStep(axis: Axis, m: LineSlots, n: nat, k: nat, r: Referee)
    requires k < |m| && Exact(axis, m) && ValidReferee(axis, r)
    ensures Mapping(axis, m, n, k + 1)[r.grid][r.line] ==
            if RetainedAt(m, n, k, r) then Rank(m, n, k) else Mapping(axis, m, n, k)[r.grid][r.line]
  {
    hide SetReferees, Rank, PositionSum;
    var e := m[k].value;
    SetRefereesAt(axis, Mapping(axis, m, n, k), e.referees, Rank(m, n, k), |e.referees|, r);
    assert e.referees[..|e.referees|] == e.referees;
  }

  lemma MappingNone(axis: Axis, m: LineSlots, n: nat, r: Referee)
    requires Exact(axis, m) && ValidReferee(axis, r)
    ensures Mapping(axis, m, n, 0)[r.grid][r.line] == 0
  {
  }

  lemma {:induction false} MappingAt(axis: Axis, m: LineSlots, n: nat, k: nat, r: Referee)
    requires k <= |m| && Exact(axis, m) && ValidReferee(axis, r) && Unique(m, r)
    ensures forall i :: i < k && RetainedAt(m, n, i, r) ==> Mapping(axis, m, n, k)[r.grid][r.line] == Rank(m, n, i)
    ensures (forall i :: i < k ==> !RetainedAt(m, n, i, r)) ==> Mapping(axis, m, n, k)[r.grid][r.line] == 0
  {
    hide Mapping, Rank, Exact, Retained;
    if k == 0 {
      MappingNone(axis, m, n, r);
    } else {
      MappingAt(axis, m, n, k - 1, r);
      MappingStep(axis, m, n, k - 1, r);
    }
  }

  lemma {:induction false} RankMonotone(m: LineSlots, n: nat, i: nat, j: nat)
    requires i <= j <= |m|
    ensures Rank(m, n, i) <= Rank(m, n, j)
    ensures i < j && Retained(m[i].value, n) ==> Rank(m, n, i) < Rank(m, n, j)
  {
    if i < j {
      RankMonotone(m, n, i, j - 1);
    }
  }

  lemma {:induction false} TargetAt(m: LineSlots, n: nat, k: nat, i: nat)
    requires i < k <= |m| && Retained(m[i].value, n)
    ensures Rank(m, n, i) < |Target(m, n, k)| && Target(m, n, k)[Rank(m, n, i)] == m[i].value.line
  {
    if i < k - 1 {
      TargetAt(m, n, k - 1, i);
    }
  }

  lemma {:induction false} TargetSlot(m: LineSlots, n: nat, k: nat, t: nat) returns (i: nat)
    requires k <= |m| && t < |Target(m, n, k)|
    ensures i < k && Retained(m[i].value, n) && Rank(m, n, i) == t
  {
    if t < Rank(m, n, k - 1) {
      i := TargetSlot(m, n, k - 1, t);
    } else {
      i := k - 1;
    }
  }

  // ---------------------------------------------------------------- theorems about one axis

  /** The target lines of one axis. */
  function TargetLines(axis: Axis, limit: real): seq<Line>
    requires Mergeable(axis)
  {
    var m := Merged(axis, limit);
    Target(m, |axis|, |m|)
  }

  /** The lookup tables of one axis, one per grid. */
  ghost function LookupTables(axis: Axis, limit: real): (t: Tables)
    requires Mergeable(axis) && limit > 0.0
    ensures Fits(axis, t)
  {
    MergedIsExact(axis, limit);
    var m := Merged(axis, limit);
    Mapping(axis, m, |axis|, |m|)
  }

  /** The merged entry of line `r` made it into the target. */
  ghost predicate RetainedLine(axis: Axis, limit: real, r: Referee)
    requires Mergeable(axis)
  {
    exists i :: RetainedAt(Merged(axis, limit), |axis|, i, r)
  }

  lemma MergedUnique(axis: Axis, limit: real, r: Referee)
    requires Mergeable(axis) && limit > 0.0
    ensures Unique(Merged(axis, limit), r)
  {
    EveryLineInOneEntry(axis, limit, r);
  }

  /** A retained line is mapped to its entry's place among the retained entries, any other line to 0. */
  lemma LookupOf(axis: Axis, limit: real, r: Referee)
    requires Mergeable(axis) && limit > 0.0 && ValidReferee(axis, r)
    ensures var m := Merged(axis, limit);
            var to := LookupTables(axis, limit)[r.grid][r.line];
            && (forall i :: RetainedAt(m, |axis|, i, r) ==> to == Rank(m, |axis|, i))
            && (!RetainedLine(axis, limit, r) ==> to == 0)
  {
    hide After, Mapping, Rank, Exact, Retained, Unique, Sorted, Mergeable;
    var m := Merged(axis, limit);
    MergedIsExact(axis, limit);
    MergedUnique(axis, limit, r);
    MappingAt(axis, m, |axis|, |m|, r);
  }

  /**
    Order preservation: the lookup of an increasing grid is non-decreasing on the lines whose
    merged entry is retained, for any number of grids and any contents of the others.
   */
  lemma LookupPreservesOrder(axis: Axis, limit: real, h: nat, a: nat, b: nat)
    requires Mergeable(axis) && limit > 0.0
    requires h < |axis| && Increasing(axis[h]) && a < b < |axis[h]|
    requires RetainedLine(axis, limit, Referee(h, a)) && RetainedLine(axis, limit, Referee(h, b))
    ensures LookupTables(axis, limit)[h][a] <= LookupTables(axis, limit)[h][b]
  {
    hide LookupTables, After, Rank;
    var m, n := Merged(axis, limit), |axis|;
    var i :| RetainedAt(m, n, i, Referee(h, a));
    var j :| RetainedAt(m, n, j, Referee(h, b));
    LookupOf(axis, limit, Referee(h, a));
    LookupOf(axis, limit, Referee(h, b));
    RunInOrder(axis, n - 1, |axis[n - 1]|, limit, h);
    assert InOrder(m, h);
    assert i <= j;
    RankMonotone(m, n, i, j);
  }

  /** Every lookup names a target line as soon as there is one. */
  lemma LookupInRange(axis: Axis, limit: real, r: Referee)
    requires Mergeable(axis) && limit > 0.0 && ValidReferee(axis, r)
    requires TargetLines(axis, limit) != []
    ensures LookupTables(axis, limit)[r.grid][r.line] < |TargetLines(axis, limit)|
  {
    hide LookupTables, After, Rank;
    var m, n := Merged(axis, limit), |axis|;
    LookupOf(axis, limit, r);
    if RetainedLine(axis, limit, r) {
      var i :| RetainedAt(m, n, i, r);
      TargetAt(m, n, |m|, i);
    }
  }

  /** Target lines are strictly increasing, for any input. */
  lemma TargetIncreasing(axis: Axis, limit: real)
    requires Mergeable(axis) && limit > 0.0
    ensures Increasing(TargetLines(axis, limit))
  {
    hide After, Rank, Target;
    var m, n := Merged(axis, limit), |axis|;
    MergedIsExact(axis, limit);
    forall s, t | 0 <= s < t < |TargetLines(axis, limit)|
      ensures TargetLines(axis, limit)[s].position < TargetLines(axis, limit)[t].position
    {
      var i := TargetSlot(m, n, |m|, s);
      var j := TargetSlot(m, n, |m|, t);
      TargetAt(m, n, |m|, i);
      TargetAt(m, n, |m|, j);
      if j < i {
        RankMonotone(m, n, j, i);
      }
    }
  }

  /**
    Each target line is the mean of `rs`, and `rs` are precisely the retained source lines that
    the tables send to it; each of them occurs in `rs` once.
   */
  lemma TargetIsMeanOfItsSources(axis: Axis, limit: real, t: nat) returns (rs: seq<Referee>)
    requires Mergeable(axis) && limit > 0.0 && t < |TargetLines(axis, limit)|
    ensures rs != [] && ValidReferees(axis, rs) && |rs| > |axis| / 2
    ensures |rs| as real * TargetLines(axis, limit)[t].position == PositionSum(axis, rs)
    ensures TargetLines(axis, limit)[t].subgrid == axis[rs[0].grid][rs[0].line].subgrid
    ensures forall r :: ValidReferee(axis, r) ==>
              (r in rs <==> RetainedLine(axis, limit, r) && LookupTables(axis, limit)[r.grid][r.line] == t)
    ensures forall r :: multiset(rs)[r] <= 1
  {
    hide LookupTables, After, Rank, Target, PositionSum;
    var m, n := Merged(axis, limit), |axis|;
    var i := TargetSlot(m, n, |m|, t);
    TargetAt(m, n, |m|, i);
    MergedIsExact(axis, limit);
    rs := m[i].value.referees;
    assert ExactSlot(axis, m[i]);
    SourcesOfSlot(axis, limit, i);
    forall r
      ensures multiset(rs)[r] <= 1
    {
      EveryLineInOneEntry(axis, limit, r);
      assert r in rs ==> Holds(m, i, r);
    }
  }

  lemma SourcesOfSlot(axis: Axis, limit: real, i: nat)
    requires Mergeable(axis) && limit > 0.0
    requires i < |Merged(axis, limit)| && Retained(Merged(axis, limit)[i].value, |axis|)
    ensures var m := Merged(axis, limit);
            forall r :: ValidReferee(axis, r) ==>
              (r in m[i].value.referees <==>
               RetainedLine(axis, limit, r) && LookupTables(axis, limit)[r.grid][r.line] == Rank(m, |axis|, i))
  {
    hide LookupTables, After, Rank;
    var m, n := Merged(axis, limit), |axis|;
    forall r | ValidReferee(axis, r)
      ensures r in m[i].value.referees <==>
              RetainedLine(axis, limit, r) && LookupTables(axis, limit)[r.grid][r.line] == Rank(m, n, i)
    {
      LookupOf(axis, limit, r);
      if r in m[i].value.referees {
        assert RetainedAt(m, n, i, r);
      }
      if j :| RetainedAt(m, n, j, r) && Rank(m, n, j) == Rank(m, n, i) {
        RankMonotone(m, n, if i <= j then i else j, if i <= j then j else i);
      }
    }
  }

  // ---------------------------------------------------------------- lines that are not retained

  /** Line `r` is one of the lines that target line `t` was averaged from. */
  ghost predicate SourceOf(axis: Axis, limit: real, r: Referee, t: nat)
    requires Mergeable(axis)
  {
    exists i :: RetainedAt(Merged(axis, limit), |axis|, i, r) && Rank(Merged(axis, limit), |axis|, i) == t
  }

  /** The tables send a line to a target exactly when the target was averaged from it. */
  ghost predicate LookupIsSourceRelation(axis: Axis, limit: real)
    requires Mergeable(axis) && limit > 0.0
  {
    forall r, t: nat :: ValidReferee(axis, r) ==>
      (LookupTables(axis, limit)[r.grid][r.line] == t <==> SourceOf(axis, limit, r, t))
  }

  /**
    A line whose entry was not retained keeps the initial table value and so claims target
    line 0; the tables are the source relation exactly when there is no such line.
   */
  lemma LookupExactIff(axis: Axis, limit: real)
    requires Mergeable(axis) && limit > 0.0
    ensures LookupIsSourceRelation(axis, limit) <==>
            forall r :: ValidReferee(axis, r) ==> RetainedLine(axis, limit, r)
  {
    hide LookupTables, Merged, Rank, Mergeable;
    forall r | ValidReferee(axis, r)
      ensures (forall t: nat :: LookupTables(axis, limit)[r.grid][r.line] == t <==> SourceOf(axis, limit, r, t))
              <==> RetainedLine(axis, limit, r)
    {
      LookupOf(axis, limit, r);
      var to := LookupTables(axis, limit)[r.grid][r.line];
      if RetainedLine(axis, limit, r) {
        assert SourceOf(axis, limit, r, to);
      } else {
        assert !SourceOf(axis, limit, r, to);
      }
    }
  }

  ghost predicate NonDecreasing(row: seq<nat>) {
    forall a, b :: 0 <= a < b < |row| ==> row[a] <= row[b]
  }

  /**
    Some line of grid `h` that is not retained comes after a line whose entry is retained
    and has a retained entry below it.
   */
  ghost predicate FallsBack(axis: Axis, limit: real, h: nat)
    requires Mergeable(axis) && h < |axis|
  {
    var m, n := Merged(axis, limit), |axis|;
    exists a: nat, b: nat, i: nat, j: nat ::
      && a < b < |axis[h]| && j < i
      && RetainedAt(m, n, i, Referee(h, a)) && Retained(m[j].value, n)
      && !RetainedLine(axis, limit, Referee(h, b))
  }

  lemma {:induction false} RankPositive(m: LineSlots, n: nat, i: nat) returns (j: nat)
    requires i <= |m| && Rank(m, n, i) > 0
    ensures j < i && Retained(m[j].value, n)
  {
    if Retained(m[i - 1].value, n) {
      j := i - 1;
    } else {
      j := RankPositive(m, n, i - 1);
    }
  }

  /** A falling pair of lookups ends in a line that is not retained. */
  lemma FallingPair(axis: Axis, limit: real, h: nat, a: nat, b: nat)
    requires Mergeable(axis) && limit > 0.0 && h < |axis| && Increasing(axis[h])
    requires a < b < |axis[h]| && LookupTables(axis, limit)[h][a] > LookupTables(axis, limit)[h][b]
    ensures FallsBack(axis, limit, h)
  {
    hide LookupTables, Merged, Rank, Mergeable, Increasing;
    var m, n := Merged(axis, limit), |axis|;
    LookupOf(axis, limit, Referee(h, a));
    var i: nat :| RetainedAt(m, n, i, Referee(h, a));
    var j := RankPositive(m, n, i);
    if RetainedLine(axis, limit, Referee(h, b)) {
      LookupPreservesOrder(axis, limit, h, a, b);
    }
  }

  lemma FallingBack(axis: Axis, limit: real, h: nat)
    requires Mergeable(axis) && limit > 0.0 && h < |axis| && FallsBack(axis, limit, h)
    ensures !NonDecreasing(LookupTables(axis, limit)[h])
  {
    hide LookupTables, Merged, Rank, Mergeable;
    var m, n := Merged(axis, limit), |axis|;
    var a: nat, b: nat, i: nat, j: nat :|
      && a < b < |axis[h]| && j < i
      && RetainedAt(m, n, i, Referee(h, a)) && Retained(m[j].value, n)
      && !RetainedLine(axis, limit, Referee(h, b));
    LookupOf(axis, limit, Referee(h, a));
    LookupOf(axis, limit, Referee(h, b));
    RankMonotone(m, n, j, i);
  }

  /**
    The lookup of an increasing grid is non-decreasing on all its lines if and only if no line
    that is not retained comes after one that is mapped above the first target line.
   */
  lemma LookupNonDecreasingIff(axis: Axis, limit: real, h: nat)
    requires Mergeable(axis) && limit > 0.0 && h < |axis| && Increasing(axis[h])
    ensures NonDecreasing(LookupTables(axis, limit)[h]) <==> !FallsBack(axis, limit, h)
  {
    hide LookupTables, Merged, FallsBack, Increasing, Mergeable;
    var row := LookupTables(axis, limit)[h];
    if a, b :| 0 <= a < b < |row| && row[a] > row[b] {
      FallingPair(axis, limit, h, a, b);
    }
    if FallsBack(axis, limit, h) {
      FallingBack(axis, limit, h);
    }
  }

  const SAMPLE: Axis := [[Line(SUBGRID_A, 0.0), Line(SUBGRID_B, 50.0), Line(SUBGRID_A, 100.0)],
                         [Line(SUBGRID_A, 0.0), Line(SUBGRID_B, 50.0)]]

  lemma SampleStep(m: LineSlots, n: nat, line: Line, r: Referee)
    requires Keyed(m) && n < |m| && m[n].key == line.position
    ensures Inserted(m, line, r, LIMIT_HORIZONTAL) == m[n := MergedSlot(m[n], line, r)]
    ensures Keyed(m[n := MergedSlot(m[n], line, r)])
    ensures MergedSlot(m[n], line, r).key == line.position
  {
    NearestToKey(m, n);
    InsertionShape(m, line, r, LIMIT_HORIZONTAL);
    MergedBetween(m[n], line, r);
  }

  lemma SampleMerged()
    ensures Mergeable(SAMPLE) && Increasing(SAMPLE[0])
    ensures var m := Merged(SAMPLE, LIMIT_HORIZONTAL);
            && |m| == 3 && m[0].value.counter == 2 && m[1].value.counter == 2 && m[2].value.counter == 1
            && Referee(0, 0) in m[0].value.referees && Referee(0, 1) in m[1].value.referees
            && Referee(0, 2) in m[2].value.referees
  {
    hide Inserted, Emplace, Sorted;
    var seed := After(SAMPLE, 0, 3, LIMIT_HORIZONTAL);
    SeedInOrder(SAMPLE, 3, LIMIT_HORIZONTAL);
    assert seed == After(SAMPLE, 1, 0, LIMIT_HORIZONTAL);
    SampleStep(seed, 0, SAMPLE[1][0], Referee(1, 0));
    var next := After(SAMPLE, 1, 1, LIMIT_HORIZONTAL);
    SampleStep(next, 1, SAMPLE[1][1], Referee(1, 1));
  }

  lemma SampleThirdLine()
    ensures Mergeable(SAMPLE) && !RetainedLine(SAMPLE, LIMIT_HORIZONTAL, Referee(0, 2))
  {
    SampleMerged();
    hide Merged, Mergeable, Kept;
    var m, r := Merged(SAMPLE, LIMIT_HORIZONTAL), Referee(0, 2);
    EveryLineInOneEntry(SAMPLE, LIMIT_HORIZONTAL, r);
    assert Holds(m, 2, r);
  }

  /**
    The order is kept on retained lines only: in the sample the third line of the first grid
    is not retained, and its lookup falls back to 0 after 0 and 1.
   */
  lemma UnretainedLineBreaksOrder()
    ensures Mergeable(SAMPLE) && Increasing(SAMPLE[0])
    ensures LookupTables(SAMPLE, LIMIT_HORIZONTAL)[0] == [0, 1, 0]
    ensures !LookupIsSourceRelation(SAMPLE, LIMIT_HORIZONTAL)
  {
    SampleMerged();
    SampleThirdLine();
    hide LookupTables, Merged, LookupIsSourceRelation, Mergeable, Kept;
    var m, n := Merged(SAMPLE, LIMIT_HORIZONTAL), 2;
    assert RetainedAt(m, n, 0, Referee(0, 0)) && RetainedAt(m, n, 1, Referee(0, 1));
    LookupOf(SAMPLE, LIMIT_HORIZONTAL, Referee(0, 0));
    LookupOf(SAMPLE, LIMIT_HORIZONTAL, Referee(0, 1));
    LookupOf(SAMPLE, LIMIT_HORIZONTAL, Referee(0, 2));
    assert ValidReferee(SAMPLE, Referee(0, 2));
    LookupExactIff(SAMPLE, LIMIT_HORIZONTAL);
  }
}
