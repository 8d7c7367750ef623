/** Resampling the lens images into the light field (lib/image/lightfieldimage.cpp:58-70). */
module LightFields {
  import opened LineGrids

  /** Column `k` of the output belongs to the vertical lines `2 * k` and `2 * k + 1`. */
  function Match(h: Line, v: Line): nat {
    if h.subgrid == v.subgrid then 1 else 0
  }

  /** How often the cell of a horizontal line and a pair of vertical lines is written. */
  function Matches(h: Line, vertical: seq<Line>, k: nat): nat
    requires 2 * k + 1 < |vertical|
  {
    Match(h, vertical[2 * k]) + Match(h, vertical[2 * k + 1])
  }

  /** The line of the pair whose subgrid is the one of the horizontal line (the later, if both are). */
  function Partner(h: Line, vertical: seq<Line>, k: nat): Line
    requires 2 * k + 1 < |vertical|
  {
    if h.subgrid == vertical[2 * k + 1].subgrid then vertical[2 * k + 1] else vertical[2 * k]
  }

  /** The output has a column per pair; an unpaired last line must not be written. */
  ghost predicate WritesInRange(horizontal: seq<Line>, vertical: seq<Line>) {
    forall y, x :: 0 <= y < |vertical| && 0 <= x < |horizontal| && horizontal[x].subgrid == vertical[y].subgrid
                   ==> y / 2 < |vertical| / 2
  }

  /** Exactly when writes can leave the image. */
  lemma InRangeIff(horizontal: seq<Line>, vertical: seq<Line>)
    ensures WritesInRange(horizontal, vertical) <==>
            |vertical| % 2 == 0 ||
            forall x :: 0 <= x < |horizontal| ==> horizontal[x].subgrid != vertical[|vertical| - 1].subgrid
  {
    if |vertical| % 2 == 1 {
      assert (|vertical| - 1) / 2 == |vertical| / 2;
    }
  }

  ghost predicate OppositePairs(vertical: seq<Line>) {
    forall k :: 0 <= k < |vertical| / 2 ==> vertical[2 * k].subgrid != vertical[2 * k + 1].subgrid
  }

  /** Every cell of the output is written exactly once if and only if each pair holds both subgrids. */
  lemma WrittenOnceIff(horizontal: seq<Line>, vertical: seq<Line>)
    requires horizontal != []
    ensures (forall x, k :: 0 <= x < |horizontal| && 0 <= k < |vertical| / 2 ==>
               Matches(horizontal[x], vertical, k) == 1) <==> OppositePairs(vertical)
  {
    if forall x, k :: 0 <= x < |horizontal| && 0 <= k < |vertical| / 2 ==> Matches(horizontal[x], vertical, k) == 1 {
      forall k | 0 <= k < |vertical| / 2
        ensures vertical[2 * k].subgrid != vertical[2 * k + 1].subgrid
      {
        assert Matches(horizontal[0], vertical, k) == 1;
      }
    }
    if OppositePairs(vertical) {
      forall x, k | 0 <= x < |horizontal| && 0 <= k < |vertical| / 2
        ensures Matches(horizontal[x], vertical, k) == 1
      {
        assert vertical[2 * k].subgrid != vertical[2 * k + 1].subgrid;
      }
    }
  }

  /** Store the colours along one vertical line. */
  method ResampleLine(horizontal: seq<Line>, v: Line, k: nat, color: (real, real) -> int, image: array2<int>,
                      ghost writes: multiset<(int, int)>)
    returns (ghost writes': multiset<(int, int)>)
    requires image.Length0 == |horizontal|
    requires forall x :: 0 <= x < |horizontal| && horizontal[x].subgrid == v.subgrid ==> k < image.Length1
    modifies image
    ensures forall r, c :: 0 <= r < image.Length0 && 0 <= c < image.Length1 ==>
              && writes'[(r, c)] == writes[(r, c)] + (if c == k then Match(horizontal[r], v) else 0)
              && image[r, c] == if c == k && horizontal[r].subgrid == v.subgrid
                                then color(v.position, horizontal[r].position) else old(image[r, c])
  {
    writes' := writes;
    for x := 0 to |horizontal|
      invariant forall r, c :: 0 <= r < image.Length0 && 0 <= c < image.Length1 ==>
                  && writes'[(r, c)] == writes[(r, c)] + (if c == k && r < x then Match(horizontal[r], v) else 0)
                  && image[r, c] == if c == k && r < x && horizontal[r].subgrid == v.subgrid
                                    then color(v.position, horizontal[r].position) else old(image[r, c])
    {
      if horizontal[x].subgrid == v.subgrid {
        image[x, k] := color(v.position, horizontal[x].position);
        writes' := writes' + multiset{(x, k)};
      }
    }
  }

  /** What a cell has seen when the vertical lines before `y` are done. */
  ghost predicate CellDone(h: Line, vertical: seq<Line>, y: int, k: nat, writes: nat, value: int, color: (real, real) -> int)
    requires 2 * k + 1 < |vertical|
  {
    var first := 2 * k < y && h.subgrid == vertical[2 * k].subgrid;
    var second := 2 * k + 1 < y && h.subgrid == vertical[2 * k + 1].subgrid;
    && writes == (if first then 1 else 0) + (if second then 1 else 0)
    && (second ==> value == color(vertical[2 * k + 1].position, h.position))
    && (first && !second ==> value == color(vertical[2 * k].position, h.position))
  }

  /**
    Store the colour of every intersection of lines of the same subgrid.  `writes` counts the
    writes to every cell.
   */
  method Resample(horizontal: seq<Line>, vertical: seq<Line>, color: (real, real) -> int, image: array2<int>)
    returns (ghost writes: multiset<(int, int)>)
    requires image.Length0 == |horizontal| && image.Length1 == |vertical| / 2
    requires WritesInRange(horizontal, vertical)
    modifies image
    ensures forall r, k :: 0 <= r < |horizontal| && 0 <= k < |vertical| / 2 ==>
              writes[(r, k)] == Matches(horizontal[r], vertical, k)
    ensures forall r, k :: 0 <= r < |horizontal| && 0 <= k < |vertical| / 2 && Matches(horizontal[r], vertical, k) > 0 ==>
              image[r, k] == color(Partner(horizontal[r], vertical, k).position, horizontal[r].position)
    ensures OppositePairs(vertical) ==> forall r, y {:trigger horizontal[r], vertical[y]} ::
              0 <= r < |horizontal| && 0 <= y < |vertical| && horizontal[r].subgrid == vertical[y].subgrid ==>
                y / 2 < |vertical| / 2 && writes[(r, y / 2)] == 1
                && image[r, y / 2] == color(vertical[y].position, horizontal[r].position)
  {
    writes := multiset{};
    for y := 0 to |vertical|
      invariant forall r, k :: 0 <= r < |horizontal| && 0 <= k < |vertical| / 2 ==>
                  CellDone(horizontal[r], vertical, y, k, writes[(r, k)], image[r, k], color)
    {
      writes := ResampleLine(horizontal, vertical[y], y / 2, color, image, writes);
    }
    assert forall r, k :: 0 <= r < |horizontal| && 0 <= k < |vertical| / 2 ==>
             CellDone(horizontal[r], vertical, |vertical|, k, writes[(r, k)], image[r, k], color);
    if OppositePairs(vertical) {
      forall r, y | 0 <= r < |horizontal| && 0 <= y < |vertical| && horizontal[r].subgrid == vertical[y].subgrid
        ensures y / 2 < |vertical| / 2 && writes[(r, y / 2)] == 1
        ensures image[r, y / 2] == color(vertical[y].position, horizontal[r].position)
      {
        var k := y / 2;
        assert vertical[2 * k].subgrid != vertical[2 * k + 1].subgrid;
        assert y == 2 * k || y == 2 * k + 1;
      }
    }
  }
}
