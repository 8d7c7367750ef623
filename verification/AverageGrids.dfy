/** `insertLine` and `averageGrids` as they run (lib/calibration/gridmath.cpp). */
module AverageGrids {
  import opened Common
  import opened OrderedMap
  import opened LineGrids
  import opened GridMath
  import opened GridMathTheorems
  import opened GridAverage
  import opened GridAligned
  import opened GridMappers

  class LineMap {
    var slots: LineSlots

    constructor ()
      ensures slots == []
    {
      slots := [];
    }

    /** Entering a line of the first grid; an already present position is left alone. */
    method EmplaceLine(line: Line, referee: Referee)
      requires Sorted(slots)
      modifies this
      ensures slots == Emplace(old(slots), line.position, NewEntry(line, referee))
    {
      slots := Emplace(slots, line.position, NewEntry(line, referee));
    }

    /** Merge the line into the nearest entry when that is closer than `limit`, else add an entry. */
    method InsertLine(line: Line, referee: Referee, limit: real)
      requires Sorted(slots) && slots != []
      modifies this
      ensures slots == Inserted(old(slots), line, referee, limit)
    {
      hide Emplace, Erase, Sorted, LowerBound, RunningMean;
      var ub := LowerBound(slots, line.position);
      var chosen := ub;
      if ub == |slots| {
        chosen := ub - 1;
      } else if ub > 0 && Abs(slots[ub - 1].key - line.position) < Abs(slots[ub].key - line.position) {
        chosen := ub - 1;
      }
      if Abs(slots[chosen].key - line.position) < limit {
        var entry := slots[chosen].value;
        var position := RunningMean(entry.counter, entry.line.position, line.position);
        entry := Entry(entry.line.(position := position), entry.counter + 1, entry.referees + [referee]);
        slots := Erase(slots, chosen);
        slots := Emplace(slots, position, entry);
      } else {
        slots := Emplace(slots, line.position, NewEntry(line, referee));
      }
    }
  }

  function Lines(grid: LineGrid, d: Direction): seq<Line> {
    if d.Horizontal? then grid.horizontal else grid.vertical
  }

  function AxisOf(grids: seq<LineGrid>, d: Direction): (axis: Axis)
    ensures |axis| == |grids|
    ensures forall g :: 0 <= g < |grids| ==> axis[g] == Lines(grids[g], d)
  {
    seq(|grids|, g requires 0 <= g < |grids| => Lines(grids[g], d))
  }

  function LimitOf(d: Direction): real {
    if d.Horizontal? then LIMIT_HORIZONTAL else LIMIT_VERTICAL
  }

  /** Merge the lines of all grids along one direction. */
  method MergeDirection(grids: seq<LineGrid>, d: Direction) returns (lineMap: LineMap)
    requires grids != [] && Mergeable(AxisOf(grids, d))
    ensures fresh(lineMap) && lineMap.slots == Merged(AxisOf(grids, d), LimitOf(d))
  {
    hide Emplace, Inserted, Sorted;
    ghost var axis := AxisOf(grids, d);
    lineMap := new LineMap();
    for l := 0 to |Lines(grids[0], d)|
      invariant fresh(lineMap) && lineMap.slots == After(axis, 0, l, LimitOf(d))
    {
      lineMap.EmplaceLine(Lines(grids[0], d)[l], Referee(0, l));
    }
    for g := 1 to |grids|
      invariant fresh(lineMap) && lineMap.slots == After(axis, g - 1, |axis[g - 1]|, LimitOf(d))
    {
      for l := 0 to |Lines(grids[g], d)|
        invariant fresh(lineMap) && lineMap.slots == After(axis, g, l, LimitOf(d))
      {
        lineMap.InsertLine(Lines(grids[g], d)[l], Referee(g, l), LimitOf(d));
      }
    }
  }

  ghost predicate Distinct(mappers: seq<GridMapper>) {
    forall i, j :: 0 <= i < j < |mappers| ==> mappers[i] != mappers[j]
  }

  /** The tables that the mappers hold in direction `d`. */
  ghost function TablesOf(mappers: seq<GridMapper>, d: Direction): (t: Tables)
    reads mappers
    ensures |t| == |mappers|
    ensures forall g :: 0 <= g < |t| ==> t[g] == mappers[g].Table(d)
  {
    seq(|mappers|, g requires 0 <= g < |mappers| reads mappers => mappers[g].Table(d))
  }

  method PrepareMappers(grids: seq<LineGrid>) returns (mappers: seq<GridMapper>)
    ensures Distinct(mappers) && forall g :: 0 <= g < |mappers| ==> fresh(mappers[g])
    ensures TablesOf(mappers, Horizontal) == NoMapping(AxisOf(grids, Horizontal))
    ensures TablesOf(mappers, Vertical) == NoMapping(AxisOf(grids, Vertical))
  {
    mappers := [];
    for g := 0 to |grids|
      invariant |mappers| == g && Distinct(mappers)
      invariant forall i :: 0 <= i < g ==> fresh(mappers[i])
      invariant forall i, d :: 0 <= i < g ==> mappers[i].Table(d) == seq(|Lines(grids[i], d)|, l => 0)
    {
      var mapper := new GridMapper(|grids[g].horizontal|, |grids[g].vertical|);
      mappers := mappers + [mapper];
    }
  }

  method MapReferee(mappers: seq<GridMapper>, d: Direction, r: Referee, to: nat)
    requires Distinct(mappers) && r.grid < |mappers| && r.line < |mappers[r.grid].Table(d)|
    modifies mappers[r.grid]
    ensures var row: seq<nat> := old(TablesOf(mappers, d))[r.grid][r.line := to];
            TablesOf(mappers, d) == old(TablesOf(mappers, d))[r.grid := row]
    ensures TablesOf(mappers, Other(d)) == old(TablesOf(mappers, Other(d)))
  {
    mappers[r.grid].Map(d, r.line, to);
  }

  /** Map all referees of one entry to target line `to`. */
  method MapReferees(mappers: seq<GridMapper>, d: Direction, ghost axis: Axis, rs: seq<Referee>, to: nat)
    requires Distinct(mappers) && Fits(axis, TablesOf(mappers, d)) && ValidReferees(axis, rs)
    modifies mappers
    ensures TablesOf(mappers, d) == SetReferees(axis, old(TablesOf(mappers, d)), rs, to, |rs|)
    ensures TablesOf(mappers, Other(d)) == old(TablesOf(mappers, Other(d)))
  {
    for k := 0 to |rs|
      invariant TablesOf(mappers, d) == SetReferees(axis, old(TablesOf(mappers, d)), rs, to, k)
      invariant TablesOf(mappers, Other(d)) == old(TablesOf(mappers, Other(d)))
    {
      hide TablesOf, Distinct;
      MapReferee(mappers, d, rs[k], to);
    }
  }

  /** Collect the retained lines of one direction and store where every line went. */
  method Extract(mappers: seq<GridMapper>, d: Direction, ghost axis: Axis, slots: LineSlots) returns (lines: seq<Line>)
    requires Distinct(mappers) && Exact(axis, slots) && |mappers| == |axis|
    requires TablesOf(mappers, d) == NoMapping(axis)
    modifies mappers
    ensures lines == Target(slots, |mappers|, |slots|)
    ensures TablesOf(mappers, d) == Mapping(axis, slots, |mappers|, |slots|)
    ensures TablesOf(mappers, Other(d)) == old(TablesOf(mappers, Other(d)))
  {
    hide TablesOf, Distinct, SetReferees, Sorted, PositionSum, NoMapping, Fits, ValidReferees;
    lines := [];
    var lineIndex := 0;
    for i := 0 to |slots|
      invariant lines == Target(slots, |mappers|, i) && lineIndex == Rank(slots, |mappers|, i)
      invariant TablesOf(mappers, d) == Mapping(axis, slots, |mappers|, i)
      invariant TablesOf(mappers, Other(d)) == old(TablesOf(mappers, Other(d)))
    {
      var entry := slots[i].value;
      if entry.counter > |mappers| / 2 {
        lines := lines + [entry.line];
        MapReferees(mappers, d, axis, entry.referees, lineIndex);
        lineIndex := lineIndex + 1;
      }
    }
  }

  /**
    The average of the grids and one mapper per grid.  The target lines and the tables of both
    directions are the ones that the theorems about `TargetLines` and `LookupTables` speak of.
    Horizontal lines merge when they are less than 17 apart, vertical ones less than 8.
   */
  method AverageGrids(grids: seq<LineGrid>) returns (target: LineGrid, mappers: seq<GridMapper>)
    requires grids != []
    requires Mergeable(AxisOf(grids, Horizontal)) && Mergeable(AxisOf(grids, Vertical))
    ensures forall g :: 0 <= g < |mappers| ==> fresh(mappers[g])
    ensures target.horizontal == TargetLines(AxisOf(grids, Horizontal), LIMIT_HORIZONTAL)
    ensures target.vertical == TargetLines(AxisOf(grids, Vertical), LIMIT_VERTICAL)
    ensures TablesOf(mappers, Horizontal) == LookupTables(AxisOf(grids, Horizontal), LIMIT_HORIZONTAL)
    ensures TablesOf(mappers, Vertical) == LookupTables(AxisOf(grids, Vertical), LIMIT_VERTICAL)
    ensures forall a, b :: |grids| == 2 && grids[0].horizontal == [a] && grids[1].horizontal == [b] ==>
              target.horizontal == MeanIfNear(a, b, 17.0)
    ensures forall a, b :: |grids| == 2 && grids[0].vertical == [a] && grids[1].vertical == [b] ==>
              target.vertical == MeanIfNear(a, b, 8.0)
    ensures Aligned(AxisOf(grids, Horizontal), 17.0) ==>
              AveragedByIndex(AxisOf(grids, Horizontal), target.horizontal, TablesOf(mappers, Horizontal))
    ensures Aligned(AxisOf(grids, Vertical), 8.0) ==>
              AveragedByIndex(AxisOf(grids, Vertical), target.vertical, TablesOf(mappers, Vertical))
  {
    hide TablesOf, Distinct, Exact, NoMapping, Merged, Target, Mapping, AxisOf, Mergeable;
    var horizontal := MergeDirection(grids, Horizontal);
    var vertical := MergeDirection(grids, Vertical);
    mappers := PrepareMappers(grids);
    ghost var h, v := AxisOf(grids, Horizontal), AxisOf(grids, Vertical);
    MergedIsExact(h, LIMIT_HORIZONTAL);
    MergedIsExact(v, LIMIT_VERTICAL);
    var hs := Extract(mappers, Horizontal, h, horizontal.slots);
    var vs := Extract(mappers, Vertical, v, vertical.slots);
    target := LineGrid(hs, vs);
    Distances(h, LIMIT_HORIZONTAL);
    Distances(v, LIMIT_VERTICAL);
    AxesOfTwo(grids);
  }

  lemma {:induction false} AxesOfTwo(grids: seq<LineGrid>)
    ensures forall a, b :: |grids| == 2 && grids[0].horizontal == [a] && grids[1].horizontal == [b] ==>
              AxisOf(grids, Horizontal) == [[a], [b]]
    ensures forall a, b :: |grids| == 2 && grids[0].vertical == [a] && grids[1].vertical == [b] ==>
              AxisOf(grids, Vertical) == [[a], [b]]
  {
  }

  /** What the limit of a direction means for two lines and for aligned grids. */
  lemma {:induction false} Distances(axis: Axis, limit: real)
    requires Mergeable(axis) && limit > 0.0
    ensures forall a, b :: axis == [[a], [b]] ==> TargetLines(axis, limit) == MeanIfNear(a, b, limit)
    ensures Aligned(axis, limit) ==> AveragedByIndex(axis, TargetLines(axis, limit), LookupTables(axis, limit))
  {
    hide Mergeable, TargetLines, LookupTables, Aligned, AveragedByIndex, MeanIfNear;
    forall a, b | axis == [[a], [b]]
      ensures TargetLines(axis, limit) == MeanIfNear(a, b, limit)
    {
      TwoLines(axis, a, b, limit);
    }
    if Aligned(axis, limit) {
      AlignedAverage(axis, limit);
    }
  }
}
