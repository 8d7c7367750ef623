/**
  Grids that can be averaged line by line (lib/calibration/gridmath.cpp:83-145): grids of the
  same number of lines, whose i-th lines are less than the limit apart, and whose neighbouring
  lines are at least twice the limit apart.  Every line is then retained, every lookup table is
  the identity, and a target line is the mean of the lines with its index.
 */
module GridAligned {
  import opened Common
  import opened OrderedMap
  import opened LineGrids
  import opened GridMath
  import opened GridMathTheorems
  import opened GridOrder
  import opened GridAverage

  ghost predicate Aligned(axis: Axis, limit: real) {
    && axis != [] && limit > 0.0
    && (forall g :: 0 <= g < |axis| ==> |axis[g]| == |axis[0]|)
    && (forall g, i, j :: 0 <= g < |axis| && 0 <= i < j < |axis[g]| ==>
          axis[g][i].position + 2.0 * limit <= axis[g][j].position)
    && (forall g, h, i :: 0 <= g < |axis| && 0 <= h < |axis| && 0 <= i < |axis[g]| && i < |axis[h]| ==>
          Abs(axis[g][i].position - axis[h][i].position) < limit)
  }

  /** The position is within the limit of line `i` of every grid, and out of it of every other line. */
  ghost predicate InLane(axis: Axis, limit: real, i: nat, x: real) {
    forall h, j :: 0 <= h < |axis| && 0 <= j < |axis[h]| ==>
      var p := axis[h][j].position;
      if j == i then Abs(x - p) < limit else if j < i then p + limit < x else x + limit < p
  }

  lemma {:induction false} OwnLane(axis: Axis, limit: real, g: nat, i: nat)
    requires Aligned(axis, limit) && g < |axis| && i < |axis[g]|
    ensures InLane(axis, limit, i, axis[g][i].position)
  {
    forall h, j | 0 <= h < |axis| && 0 <= j < |axis[h]|
      ensures var x, p := axis[g][i].position, axis[h][j].position;
              if j == i then Abs(x - p) < limit else if j < i then p + limit < x else x + limit < p
    {
      assert Abs(axis[g][j].position - axis[h][j].position) < limit;
    }
  }

  lemma {:induction false} BetweenInLane(axis: Axis, limit: real, i: nat, x: real, y: real, z: real)
    requires InLane(axis, limit, i, x) && InLane(axis, limit, i, y) && Between(z, x, y)
    ensures InLane(axis, limit, i, z)
  {
  }

  /** The first `count` grids' lines with index `i`. */
  ghost function Column(i: nat, count: nat): (rs: seq<Referee>)
    ensures |rs| == count && forall h :: 0 <= h < count ==> rs[h] == Referee(h, i)
  {
    seq(count, h requires 0 <= h < count => Referee(h, i))
  }

  /** One slot per line, in its lane, made of the lines of all grids before `g` and the first `k` lines of `g`. */
  ghost predicate Lined(axis: Axis, m: LineSlots, limit: real, g: nat, k: nat)
    requires axis != []
  {
    && |m| == |axis[0]|
    && forall i :: 0 <= i < |m| ==>
         && InLane(axis, limit, i, m[i].key)
         && m[i].value.referees == Column(i, if i < k then g + 1 else g)
  }

  lemma {:induction false} NearestInLane(axis: Axis, m: LineSlots, limit: real, g: nat, k: nat)
    requires Aligned(axis, limit) && g < |axis| && k < |axis[g]| && Sorted(m) && |m| == |axis[0]|
    requires forall i :: 0 <= i < |m| ==> InLane(axis, limit, i, m[i].key)
    ensures m != [] && Nearest(m, axis[g][k].position) == k && Merges(m, axis[g][k].position, limit)
  {
    var p := axis[g][k].position;
    forall i | 0 <= i < |m|
      ensures if i == k then Abs(m[i].key - p) < limit else Abs(m[i].key - p) > limit
    {
      assert InLane(axis, limit, i, m[i].key);
    }
    NearestIsGlobal(m, p, k);
  }

  lemma {:induction false} LinedStep(axis: Axis, m: LineSlots, limit: real, g: nat, k: nat)
    requires Aligned(axis, limit) && 0 < g < |axis| && k < |axis[g]| && Keyed(m) && Lined(axis, m, limit, g, k)
    ensures m != [] && Lined(axis, Inserted(m, axis[g][k], Referee(g, k), limit), limit, g, k + 1)
  {
    hide Inserted, Aligned, InLane, Sorted;
    var line, r := axis[g][k], Referee(g, k);
    assert |axis[g]| == |axis[0]| by { SameLength(axis, limit, g); }
    NearestInLane(axis, m, limit, g, k);
    assert limit > 0.0 by { SameLength(axis, limit, g); }
    InsertionShape(m, line, r, limit);
    MergedBetween(m[k], line, r);
    OwnLane(axis, limit, g, k);
    BetweenInLane(axis, limit, k, m[k].key, line.position, MergedSlot(m[k], line, r).key);
    assert Column(k, g) + [r] == Column(k, g + 1);
  }

  lemma {:induction false} SameLength(axis: Axis, limit: real, g: nat)
    requires Aligned(axis, limit) && g < |axis|
    ensures |axis[g]| == |axis[0]| && limit > 0.0
  {
  }

  lemma {:induction false} LinedGrid(axis: Axis, limit: real, g: nat, k: nat)
    requires Aligned(axis, limit) && 0 < g < |axis| && k <= |axis[g]|
    requires Mergeable(axis) && Lined(axis, After(axis, g, 0, limit), limit, g, 0)
    ensures Lined(axis, After(axis, g, k, limit), limit, g, k)
  {
    hide Aligned, Lined, Inserted, Mergeable;
    if k > 0 {
      LinedGrid(axis, limit, g, k - 1);
      SameLength(axis, limit, g);
      RunIsExact(axis, g, k - 1, limit);
      LinedStep(axis, After(axis, g, k - 1, limit), limit, g, k - 1);
    }
  }

  lemma {:induction false} NextGrid(axis: Axis, m: LineSlots, limit: real, g: nat)
    requires axis != [] && Lined(axis, m, limit, g, |axis[0]|)
    ensures Lined(axis, m, limit, g + 1, 0)
  {
  }

  lemma {:induction false} FirstGrid(axis: Axis, limit: real)
    requires Aligned(axis, limit) && Mergeable(axis)
    ensures Lined(axis, After(axis, 0, |axis[0]|, limit), limit, 0, |axis[0]|)
  {
    hide After, Mergeable;
    SeedInOrder(axis, |axis[0]|, limit);
    var m := After(axis, 0, |axis[0]|, limit);
    forall i | 0 <= i < |m|
      ensures InLane(axis, limit, i, m[i].key)
    {
      OwnLane(axis, limit, 0, i);
    }
  }

  lemma {:induction false} AlignedMergeable(axis: Axis, limit: real)
    requires Aligned(axis, limit)
    ensures axis != [] && limit > 0.0 && Mergeable(axis)
  {
  }

  /** After every grid there is one slot per line, with that line of all grids so far. */
  lemma {:induction false} LinedRun(axis: Axis, limit: real, g: nat)
    requires Aligned(axis, limit) && g < |axis|
    ensures Mergeable(axis) && Lined(axis, After(axis, g, |axis[g]|, limit), limit, g, |axis[0]|)
  {
    hide Aligned, Lined, Mergeable, Offer;
    AlignedMergeable(axis, limit);
    SameLength(axis, limit, g);
    if g == 0 {
      FirstGrid(axis, limit);
    } else {
      LinedRun(axis, limit, g - 1);
      SameLength(axis, limit, g - 1);
      NextGrid(axis, After(axis, g - 1, |axis[g - 1]|, limit), limit, g - 1);
      LinedGrid(axis, limit, g, |axis[g]|);
    }
  }

  lemma {:induction false} RankOfAll(m: LineSlots, n: nat, i: nat)
    requires i <= |m| && forall j :: 0 <= j < |m| ==> Retained(m[j].value, n)
    ensures Rank(m, n, i) == i
  {
    if i > 0 {
      RankOfAll(m, n, i - 1);
    }
  }

  /** All slots of the merged map are retained. */
  lemma {:induction false} AlignedMerged(axis: Axis, limit: real)
    requires Aligned(axis, limit)
    ensures Mergeable(axis)
    ensures var m := Merged(axis, limit);
            && |m| == |axis[0]|
            && forall i :: 0 <= i < |m| ==> m[i].value.referees == Column(i, |axis|) && Retained(m[i].value, |axis|)
  {
    hide After;
    var g := |axis| - 1;
    LinedRun(axis, limit, g);
    MergedIsExact(axis, limit);
    var m := Merged(axis, limit);
    forall i | 0 <= i < |m|
      ensures Retained(m[i].value, |axis|)
    {
      assert ExactSlot(axis, m[i]);
    }
  }

  /** Aligned grids: every line is retained, and every table is the identity. */
  lemma {:induction false} AlignedTables(axis: Axis, limit: real, g: nat, i: nat)
    requires Aligned(axis, limit) && g < |axis| && i < |axis[g]|
    ensures Mergeable(axis) && RetainedLine(axis, limit, Referee(g, i))
    ensures LookupTables(axis, limit)[g][i] == i
  {
    AlignedMerged(axis, limit);
    SameLength(axis, limit, g);
    hide LookupTables, Merged, Mergeable, Aligned, Retained, Rank;
    var m, r := Merged(axis, limit), Referee(g, i);
    assert Column(i, |axis|)[g] == r;
    assert RetainedAt(m, |axis|, i, r);
    LookupOf(axis, limit, r);
    RankOfAll(m, |axis|, i);
  }

  lemma {:induction false} ColumnMean(axis: Axis, s: Slot<Entry>, i: nat)
    requires axis != [] && i < |axis[0]| && ExactSlot(axis, s) && s.value.referees == Column(i, |axis|)
    ensures ValidReferees(axis, Column(i, |axis|))
    ensures |axis| as real * s.value.line.position == PositionSum(axis, Column(i, |axis|))
    ensures s.value.line.subgrid == axis[0][i].subgrid
  {
    hide PositionSum;
  }

  /** Aligned grids: target line `i` is the mean of the lines with index `i`, with the tag of the first grid. */
  lemma {:induction false} AlignedTarget(axis: Axis, limit: real, i: nat)
    requires Aligned(axis, limit) && i < |axis[0]|
    ensures Mergeable(axis) && |TargetLines(axis, limit)| == |axis[0]| && ValidReferees(axis, Column(i, |axis|))
    ensures var line := TargetLines(axis, limit)[i];
            && |axis| as real * line.position == PositionSum(axis, Column(i, |axis|))
            && line.subgrid == axis[0][i].subgrid
  {
    hide Aligned, Merged, Mergeable, Retained, Rank, Target, PositionSum, ExactSlot, Sorted;
    AlignedMergeable(axis, limit);
    AlignedMerged(axis, limit);
    MergedIsExact(axis, limit);
    var m := Merged(axis, limit);
    ColumnMean(axis, m[i], i);
    RankOfAll(m, |axis|, i);
    RankOfAll(m, |axis|, |m|);
    TargetAt(m, |axis|, |m|, i);
  }

  /** One target line per index, the mean of the lines with that index, and tables that are the identity. */
  ghost predicate AveragedByIndex(axis: Axis, lines: seq<Line>, tables: Tables) {
    && axis != [] && |lines| == |axis[0]|
    && (forall i :: 0 <= i < |lines| ==>
          && ValidReferees(axis, Column(i, |axis|))
          && |axis| as real * lines[i].position == PositionSum(axis, Column(i, |axis|))
          && lines[i].subgrid == axis[0][i].subgrid)
    && (forall g, i :: 0 <= g < |tables| && 0 <= i < |tables[g]| ==> tables[g][i] == i)
  }

  lemma {:induction false} AlignedAverage(axis: Axis, limit: real)
    requires Aligned(axis, limit)
    ensures Mergeable(axis) && limit > 0.0
    ensures AveragedByIndex(axis, TargetLines(axis, limit), LookupTables(axis, limit))
  {
    hide Aligned, Mergeable, TargetLines, LookupTables, PositionSum;
    AlignedMergeable(axis, limit);
    var lines, tables := TargetLines(axis, limit), LookupTables(axis, limit);
    AlignedCount(axis, limit);
    forall i | 0 <= i < |axis[0]|
      ensures ValidReferees(axis, Column(i, |axis|))
      ensures |axis| as real * lines[i].position == PositionSum(axis, Column(i, |axis|))
      ensures lines[i].subgrid == axis[0][i].subgrid
    {
      AlignedTarget(axis, limit, i);
    }
    forall g, i | 0 <= g < |tables| && 0 <= i < |tables[g]|
      ensures tables[g][i] == i
    {
      AlignedTables(axis, limit, g, i);
    }
  }

  lemma {:induction false} AlignedCount(axis: Axis, limit: real)
    requires Aligned(axis, limit)
    ensures Mergeable(axis) && |TargetLines(axis, limit)| == |axis[0]|
  {
    hide Merged, Mergeable, Aligned, Retained, Rank;
    AlignedMerged(axis, limit);
    RankOfAll(Merged(axis, limit), |axis|, |Merged(axis, limit)|);
  }

  // ---------------------------------------------------------------- two lines

  /** Two lines merge into their mean when they are less than the limit apart, and are dropped otherwise. */
  function MeanIfNear(a: Line, b: Line, limit: real): seq<Line> {
    if Abs(a.position - b.position) < limit then [Line(a.subgrid, (a.position + b.position) / 2.0)] else []
  }

  lemma {:induction false} NearLines(axis: Axis, a: Line, b: Line, limit: real)
    requires axis == [[a], [b]] && limit > 0.0 && Abs(a.position - b.position) < limit
    ensures Mergeable(axis) && TargetLines(axis, limit) == [Line(a.subgrid, (a.position + b.position) / 2.0)]
  {
    hide TargetLines, Mergeable;
    assert Aligned(axis, limit);
    AlignedTarget(axis, limit, 0);
    var rs := Column(0, 2);
    assert rs[..1][..0] == [] && rs[..1] == [Referee(0, 0)] && rs == rs[..1] + [Referee(1, 0)];
    assert PositionSum(axis, rs[..1]) == a.position;
    assert PositionSum(axis, rs) == a.position + b.position;
  }

  lemma {:induction false} FarLines(axis: Axis, a: Line, b: Line, limit: real)
    requires axis == [[a], [b]] && limit > 0.0 && Abs(a.position - b.position) >= limit
    ensures Mergeable(axis) && TargetLines(axis, limit) == []
  {
    hide Inserted, Sorted, Emplace;
    SeedInOrder(axis, 1, limit);
    var seed := After(axis, 0, 1, limit);
    assert seed == After(axis, 1, 0, limit);
    assert seed == [NewSlot(a, Referee(0, 0))];
    RunIsExact(axis, 0, 1, limit);
    InsertionShape(seed, b, Referee(1, 0), limit);
    var m := After(axis, 1, 1, limit);
    assert m == Merged(axis, limit) && |m| == 2;
    assert forall i :: 0 <= i < 2 ==> m[i].value.counter == 1;
    assert Target(m, 2, 0) == [] == Target(m, 2, 1) == Target(m, 2, 2);
  }

  lemma {:induction false} TwoLines(axis: Axis, a: Line, b: Line, limit: real)
    requires axis == [[a], [b]] && limit > 0.0
    ensures Mergeable(axis) && TargetLines(axis, limit) == MeanIfNear(a, b, limit)
  {
    hide TargetLines, Mergeable;
    if Abs(a.position - b.position) < limit {
      NearLines(axis, a, b, limit);
    } else {
      FarLines(axis, a, b, limit);
    }
  }

  // ---------------------------------------------------------------- subgrid tags

  /** The target line has the tag of all the lines it was averaged from. */
  ghost predicate TagOfSources(axis: Axis, limit: real, t: nat)
    requires Mergeable(axis) && t < |TargetLines(axis, limit)|
  {
    forall r :: ValidReferee(axis, r) && SourceOf(axis, limit, r, t) ==>
      axis[r.grid][r.line].subgrid == TargetLines(axis, limit)[t].subgrid
  }

  lemma {:induction false} AlignedSources(axis: Axis, limit: real, t: nat, r: Referee)
    requires Aligned(axis, limit) && t < |axis[0]| && ValidReferee(axis, r)
    ensures Mergeable(axis) && (SourceOf(axis, limit, r, t) <==> r.line == t)
  {
    AlignedTables(axis, limit, r.grid, r.line);
    hide LookupTables, Merged, Mergeable, Aligned, Rank;
    LookupOf(axis, limit, r);
  }

  /** Merging ignores the tags: for aligned grids a target line has the tag of its sources iff they agree. */
  lemma {:induction false} AlignedTagsIff(axis: Axis, limit: real, t: nat)
    requires Aligned(axis, limit) && t < |axis[0]|
    ensures Mergeable(axis) && t < |TargetLines(axis, limit)|
    ensures TagOfSources(axis, limit, t) <==>
            forall g :: 0 <= g < |axis| ==> t < |axis[g]| && axis[g][t].subgrid == axis[0][t].subgrid
  {
    AlignedTarget(axis, limit, t);
    hide Mergeable, TargetLines, SourceOf;
    assert forall g :: 0 <= g < |axis| ==> |axis[g]| == |axis[0]|;
    hide Aligned;
    forall r | ValidReferee(axis, r)
      ensures SourceOf(axis, limit, r, t) <==> r.line == t
    {
      AlignedSources(axis, limit, t, r);
    }
    if TagOfSources(axis, limit, t) {
      forall g | 0 <= g < |axis|
        ensures axis[g][t].subgrid == axis[0][t].subgrid
      {
        assert ValidReferee(axis, Referee(g, t));
      }
    }
  }

  const MIXED: Axis := [[Line(SUBGRID_A, 0.0)], [Line(SUBGRID_B, 1.0)]]

  /** Lines of both subgrids averaged into one target line. */
  lemma MixedTags()
    ensures Aligned(MIXED, LIMIT_HORIZONTAL) && Mergeable(MIXED) && |TargetLines(MIXED, LIMIT_HORIZONTAL)| == 1
    ensures !TagOfSources(MIXED, LIMIT_HORIZONTAL, 0)
  {
    hide Mergeable, TargetLines, TagOfSources;
    AlignedTarget(MIXED, LIMIT_HORIZONTAL, 0);
    AlignedTagsIff(MIXED, LIMIT_HORIZONTAL, 0);
    assert MIXED[1][0].subgrid != MIXED[0][0].subgrid;
  }
}
