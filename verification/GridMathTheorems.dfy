/**
  What every run of the line merging keeps: exact means, conservation of contributions, and
  the order of the lines of a grid.
 */
module GridMathTheorems {
  import opened OrderedMap
  import opened LineGrids
  import opened GridMath

  // ---------------------------------------------------------------- exact means

  ghost predicate ValidReferee(axis: Axis, r: Referee) {
    r.grid < |axis| && r.line < |axis[r.grid]|
  }

  ghost predicate ValidReferees(axis: Axis, rs: seq<Referee>) {
    forall i :: 0 <= i < |rs| ==> ValidReferee(axis, rs[i])
  }

  ghost function PositionSum(axis: Axis, rs: seq<Referee>): real
    requires ValidReferees(axis, rs)
  {
    if rs == [] then 0.0
    else
      var r := rs[|rs| - 1];
      PositionSum(axis, rs[..|rs| - 1]) + axis[r.grid][r.line].position
  }

  /**
    The entry's counter is its number of referees, its position is their mean, and its
    subgrid is the one of the line that opened the entry.
   */
  ghost predicate ExactSlot(axis: Axis, s: Slot<Entry>) {
    var e := s.value;
    && s.key == e.line.position
    && e.counter == |e.referees| > 0
    && ValidReferees(axis, e.referees)
    && e.counter as real * s.key == PositionSum(axis, e.referees)
    && e.line.subgrid == axis[e.referees[0].grid][e.referees[0].line].subgrid
  }

  ghost predicate Exact(axis: Axis, m: LineSlots) {
    Sorted(m) && forall i :: 0 <= i < |m| ==> ExactSlot(axis, m[i])
  }

  lemma MergedExact(axis: Axis, s: Slot<Entry>, r: Referee)
    requires ExactSlot(axis, s) && ValidReferee(axis, r)
    ensures ExactSlot(axis, MergedSlot(s, axis[r.grid][r.line], r))
  {
    var e := s.value;
    assert (e.referees + [r])[..|e.referees|] == e.referees;
    RunningMeanExact(e.counter, s.key, axis[r.grid][r.line].position);
    assert (e.counter + 1) as real == e.counter as real + 1.0;
  }

  lemma NewExact(axis: Axis, r: Referee)
    requires ValidReferee(axis, r)
    ensures ExactSlot(axis, NewSlot(axis[r.grid][r.line], r))
  {
    assert [r][..0] == [];
  }

  lemma AppliedExact(axis: Axis, m: LineSlots, o: Outcome, r: Referee)
    requires ValidOutcome(m, o) && ValidReferee(axis, r)
    requires forall i :: 0 <= i < |m| ==> ExactSlot(axis, m[i])
    ensures var m' := Applied(m, o, axis[r.grid][r.line], r);
            forall i :: 0 <= i < |m'| ==> ExactSlot(axis, m'[i])
  {
    NewExact(axis, r);
    if o.Joins? {
      MergedExact(axis, m[o.at], r);
    }
  }

  /** Incremental averaging is exact after every step of every run. */
  lemma {:induction false} RunIsExact(axis: Axis, g: nat, k: nat, limit: real)
    requires Mergeable(axis) && InRun(axis, g, k) && limit > 0.0
    ensures Exact(axis, After(axis, g, k, limit))
    decreases g, k
  {
    hide Offer, OfferOutcome;
    if k > 0 {
      RunIsExact(axis, g, k - 1, limit);
      var m, line, r := After(axis, g, k - 1, limit), axis[g][k - 1], Referee(g, k - 1);
      OfferShape(m, line, r, limit);
      AppliedExact(axis, m, OfferOutcome(m, line.position, g, limit), r);
    } else if g > 0 {
      RunIsExact(axis, g - 1, |axis[g - 1]|, limit);
    }
  }

  lemma MergedIsExact(axis: Axis, limit: real)
    requires Mergeable(axis) && limit > 0.0
    ensures Exact(axis, Merged(axis, limit))
  {
    RunIsExact(axis, |axis| - 1, |axis[|axis| - 1]|, limit);
  }

  // ---------------------------------------------------------------- conservation

  /** All referees of all entries, with multiplicity. */
  ghost function Bag(m: LineSlots): multiset<Referee> {
    if m == [] then multiset{} else Bag(m[..|m| - 1]) + multiset(m[|m| - 1].value.referees)
  }

  lemma BagEmpty()
    ensures Bag([]) == multiset{}
  {
  }

  lemma {:induction false} BagConcat(a: LineSlots, b: LineSlots)
    ensures Bag(a + b) == Bag(a) + Bag(b)
  {
    if b == [] {
      assert a + b == a;
    } else {
      var n := |b| - 1;
      assert (a + b)[..|a + b| - 1] == a + b[..n];
      BagConcat(a, b[..n]);
    }
  }

  lemma BagSingle(s: Slot<Entry>)
    ensures Bag([s]) == multiset(s.value.referees)
  {
    assert [s][..0] == [];
  }

  lemma BagNewSlot(m: LineSlots, n: nat, s: Slot<Entry>)
    requires n <= |m|
    ensures Bag(m[..n] + [s] + m[n..]) == Bag(m) + multiset(s.value.referees)
  {
    hide Bag;
    BagConcat(m[..n] + [s], m[n..]);
    BagConcat(m[..n], [s]);
    BagConcat(m[..n], m[n..]);
    BagSingle(s);
    assert m == m[..n] + m[n..];
  }

  lemma BagMergedSlot(m: LineSlots, n: nat, s: Slot<Entry>, r: Referee)
    requires n < |m| && s.value.referees == m[n].value.referees + [r]
    ensures Bag(m[n := s]) == Bag(m) + multiset{r}
  {
    hide Bag;
    var rest := m[..n] + m[n + 1..];
    BagNewSlot(rest, n, s);
    BagNewSlot(rest, n, m[n]);
    assert rest[..n] == m[..n] && rest[n..] == m[n + 1..];
    assert m == m[..n] + [m[n]] + m[n + 1..];
    assert m[n := s] == m[..n] + [s] + m[n + 1..];
  }

  /** No earlier line of the list has the same position. */
  ghost predicate FirstAtPosition(lines: seq<Line>, l: nat)
    requires l < |lines|
  {
    forall j :: 0 <= j < l ==> lines[j].position != lines[l].position
  }

  /** Line `r` has been offered to the map by step (g, k). */
  ghost predicate Offered(axis: Axis, g: nat, k: nat, r: Referee) {
    ValidReferee(axis, r) && (r.grid < g || (r.grid == g && r.line < k))
  }

  ghost predicate Kept(axis: Axis, g: nat, k: nat, r: Referee) {
    Offered(axis, g, k, r) && (r.grid == 0 ==> FirstAtPosition(axis[0], r.line))
  }

  lemma FreshKeys(m: LineSlots, n: nat, s: Slot<Entry>, p: real)
    requires n <= |m|
    ensures HasKey(m[..n] + [s] + m[n..], p) <==> HasKey(m, p) || s.key == p
  {
    var m' := m[..n] + [s] + m[n..];
    assert m'[n] == s;
    if i :| 0 <= i < |m| && m[i].key == p {
      assert m'[if i < n then i else i + 1] == m[i];
    }
    if i :| 0 <= i < |m'| && m'[i].key == p && i != n {
      assert m'[i] == m[if i < n then i else i - 1];
    }
  }

  lemma {:induction false} SeedKeys(axis: Axis, k: nat, limit: real, p: real)
    requires Mergeable(axis) && InRun(axis, 0, k) && limit > 0.0
    ensures HasKey(After(axis, 0, k, limit), p) <==> exists j :: 0 <= j < k && axis[0][j].position == p
  {
    hide Offer;
    if k > 0 {
      SeedKeys(axis, k - 1, limit, p);
      RunIsExact(axis, 0, k - 1, limit);
      var m, line, r := After(axis, 0, k - 1, limit), axis[0][k - 1], Referee(0, k - 1);
      OfferShape(m, line, r, limit);
      FreshKeys(m, LowerBound(m, line.position), NewSlot(line, r), p);
    }
  }

  lemma AppliedBag(m: LineSlots, o: Outcome, line: Line, r: Referee)
    requires ValidOutcome(m, o)
    ensures Bag(Applied(m, o, line, r)) == if o.Dropped? then Bag(m) else Bag(m) + multiset{r}
  {
    match o
    case Dropped =>
    case Fresh(n) => BagNewSlot(m, n, NewSlot(line, r));
    case Joins(n) => BagMergedSlot(m, n, MergedSlot(m[n], line, r), r);
  }

  /**
    Conservation over every run: a line of any later grid is a referee of the map exactly
    once from the moment it is offered; a line of the first grid exactly when it is the first
    at its position; and the map holds nothing else.
   */
  lemma {:induction false} RunConserves(axis: Axis, g: nat, k: nat, limit: real, r: Referee)
    requires Mergeable(axis) && InRun(axis, g, k) && limit > 0.0
    ensures Bag(After(axis, g, k, limit))[r] == if Kept(axis, g, k, r) then 1 else 0
    decreases g, k
  {
    hide Offer, Applied, InsertOutcome, Bag;
    BagEmpty();
    if k > 0 {
      RunConserves(axis, g, k - 1, limit, r);
      RunIsExact(axis, g, k - 1, limit);
      var m, line, s := After(axis, g, k - 1, limit), axis[g][k - 1], Referee(g, k - 1);
      OfferShape(m, line, s, limit);
      AppliedBag(m, OfferOutcome(m, line.position, g, limit), line, s);
      if g == 0 {
        SeedKeys(axis, k - 1, limit, line.position);
      }
    } else if g > 0 {
      RunConserves(axis, g - 1, |axis[g - 1]|, limit, r);
    }
  }

  ghost predicate Holds(m: LineSlots, i: int, r: Referee) {
    0 <= i < |m| && r in m[i].value.referees
  }

  lemma BagLocates(m: LineSlots, r: Referee)
    ensures Bag(m)[r] > 0 ==> exists i :: Holds(m, i, r)
  {
    if m != [] {
      var n := |m| - 1;
      BagLocates(m[..n], r);
      if Bag(m)[r] > 0 {
        if r in m[n].value.referees {
          assert Holds(m, n, r);
        } else {
          var i :| Holds(m[..n], i, r);
          assert Holds(m, i, r);
        }
      }
    }
  }

  lemma BagCounts(m: LineSlots, i: nat, r: Referee)
    requires Holds(m, i, r)
    ensures multiset(m[i].value.referees)[r] <= Bag(m)[r]
    ensures forall j :: i < j && Holds(m, j, r) ==> multiset(m[i].value.referees)[r] < Bag(m)[r]
  {
    var n := |m| - 1;
    if i < n {
      BagCounts(m[..n], i, r);
      forall j | i < j && Holds(m, j, r)
        ensures multiset(m[i].value.referees)[r] < Bag(m)[r]
      {
        assert j < n ==> Holds(m[..n], j, r);
      }
    }
  }

  /** After the whole run every kept line sits in one entry, once, and no other line in any. */
  lemma EveryLineInOneEntry(axis: Axis, limit: real, r: Referee)
    requires Mergeable(axis) && limit > 0.0
    ensures var m := Merged(axis, limit);
            && (Kept(axis, |axis|, 0, r) <==> exists i :: Holds(m, i, r))
            && (forall i, j :: Holds(m, i, r) && Holds(m, j, r) ==> i == j)
            && (forall i :: Holds(m, i, r) ==> multiset(m[i].value.referees)[r] == 1)
  {
    var m := Merged(axis, limit);
    var g := |axis| - 1;
    RunConserves(axis, g, |axis[g]|, limit, r);
    BagLocates(m, r);
    assert Kept(axis, g, |axis[g]|, r) <==> Kept(axis, |axis|, 0, r);
    forall i | Holds(m, i, r)
      ensures Bag(m)[r] == 1 && multiset(m[i].value.referees)[r] == 1
      ensures forall j :: i < j ==> !Holds(m, j, r)
    {
      BagCounts(m, i, r);
    }
  }
}
