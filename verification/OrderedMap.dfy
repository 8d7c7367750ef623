/**
  An ordered map keyed by positions, as `std::map<float, V>` is used by the grid code.

  The map is a sequence of slots in strictly increasing key order.  Besides the three
  library operations that the code relies on (`lower_bound`, `erase`, `emplace`) the module
  holds the nearest-key search that the grid code repeats in three places, and the one fact
  all three rely on: giving the nearest slot a key between its old one and the searched
  position neither collides with nor overtakes any other slot.
 */
module OrderedMap {
  import opened Common

  datatype Slot<V> = Slot(key: real, value: V)

  ghost predicate Sorted<V>(m: seq<Slot<V>>) {
    forall i, j :: 0 <= i < j < |m| ==> m[i].key < m[j].key
  }

  ghost predicate HasKey<V>(m: seq<Slot<V>>, key: real) {
    exists i :: 0 <= i < |m| && m[i].key == key
  }

  /** Index of the first slot whose key is not below `p` (the length if there is none). */
  function LowerBound<V>(m: seq<Slot<V>>, p: real): (r: nat)
    requires Sorted(m)
    ensures r <= |m|
    ensures forall i :: 0 <= i < r ==> m[i].key < p
    ensures forall i :: r <= i < |m| ==> p <= m[i].key
  {
    if m == [] then 0
    else if m[|m| - 1].key < p then |m|
    else LowerBound(m[..|m| - 1], p)
  }

  /** The nearest-key choice: the slot at the lower bound or the one before it. */
  function Nearest<V>(m: seq<Slot<V>>, p: real): (n: nat)
    requires Sorted(m) && m != []
    ensures n < |m|
  {
    var ub := LowerBound(m, p);
    if ub == |m| then ub - 1
    else if ub == 0 then ub
    else if Abs(m[ub - 1].key - p) < Abs(m[ub].key - p) then ub - 1
    else ub
  }

  /** What a scan of all slots would choose: the least distance, and the upper slot on a tie. */
  ghost predicate IsNearest<V>(m: seq<Slot<V>>, p: real, n: int) {
    && 0 <= n < |m|
    && (forall j :: 0 <= j <= n ==> Abs(m[n].key - p) <= Abs(m[j].key - p))
    && (forall j :: n < j < |m| ==> Abs(m[n].key - p) < Abs(m[j].key - p))
  }

  /** The two-candidate search and the full scan agree on every map and position. */
  lemma NearestIsGlobal<V>(m: seq<Slot<V>>, p: real, n: int)
    requires Sorted(m) && m != []
    ensures IsNearest(m, p, n) <==> n == Nearest(m, p)
  {
    var ub := LowerBound(m, p);
    var c := Nearest(m, p);
    forall j | 0 <= j < |m| && j != c
      ensures Abs(m[c].key - p) <= Abs(m[j].key - p)
      ensures c < j ==> Abs(m[c].key - p) < Abs(m[j].key - p)
    {
      if j < ub {
        assert m[j].key <= m[ub - 1].key;
      } else {
        assert m[ub].key <= m[j].key;
      }
    }
    assert IsNearest(m, p, c);
  }

  lemma NearestToKey<V>(m: seq<Slot<V>>, j: nat)
    requires Sorted(m) && j < |m|
    ensures Nearest(m, m[j].key) == j
  {
    NearestIsGlobal(m, m[j].key, j);
  }

  function Erase<V>(m: seq<Slot<V>>, n: nat): (r: seq<Slot<V>>)
    requires Sorted(m) && n < |m|
    ensures Sorted(r)
    ensures |r| == |m| - 1
    ensures forall i :: 0 <= i < |r| ==> r[i] == if i < n then m[i] else m[i + 1]
  {
    m[..n] + m[n + 1..]
  }

  /** `std::map::emplace`: an already present key leaves the map as it is. */
  function Emplace<V>(m: seq<Slot<V>>, key: real, v: V): (r: seq<Slot<V>>)
    requires Sorted(m)
    ensures Sorted(r)
    ensures HasKey(m, key) ==> r == m
  {
    var ub := LowerBound(m, key);
    if ub < |m| && m[ub].key == key then m
    else m[..ub] + [Slot(key, v)] + m[ub..]
  }

  /** A value between the nearest key and the searched position. */
  ghost predicate Between(x: real, k: real, p: real) {
    (k <= x <= p) || (p <= x <= k)
  }

  lemma LowerBoundIs<V>(m: seq<Slot<V>>, p: real, n: nat)
    requires Sorted(m) && n <= |m|
    requires forall i :: 0 <= i < n ==> m[i].key < p
    requires forall i :: n <= i < |m| ==> p <= m[i].key
    ensures LowerBound(m, p) == n
  {
  }

  /** Every other slot lies strictly on its own side of the nearest slot and of the position. */
  lemma NearestSeparates<V>(m: seq<Slot<V>>, p: real, key: real)
    requires Sorted(m) && m != []
    requires Between(key, m[Nearest(m, p)].key, p)
    ensures forall i :: 0 <= i < Nearest(m, p) ==> m[i].key < key
    ensures forall i :: Nearest(m, p) < i < |m| ==> key < m[i].key
  {
    var n := Nearest(m, p);
    NearestIsGlobal(m, p, n);
  }

  lemma EmplaceAt<V>(e: seq<Slot<V>>, n: nat, key: real, v: V)
    requires Sorted(e) && n <= |e|
    requires forall i :: 0 <= i < n ==> e[i].key < key
    requires forall i :: n <= i < |e| ==> key < e[i].key
    ensures Emplace(e, key, v) == e[..n] + [Slot(key, v)] + e[n..]
  {
    hide Sorted, LowerBound;
    LowerBoundIs(e, key, n);
  }

  lemma ReplaceInPlace<V>(m: seq<Slot<V>>, n: nat, key: real, v: V)
    requires Sorted(m) && n < |m|
    requires forall i :: 0 <= i < n ==> m[i].key < key
    requires forall i :: n < i < |m| ==> key < m[i].key
    ensures Emplace(Erase(m, n), key, v) == m[n := Slot(key, v)]
  {
    hide Sorted, Emplace;
    var e := Erase(m, n);
    EmplaceAt(e, n, key, v);
    assert e[..n] + [Slot(key, v)] + e[n..] == m[n := Slot(key, v)];
  }

  /**
    Taking the nearest slot out and putting it back under a key between its old key and the
    searched position is an update in place: no other slot has that key, so nothing is
    dropped, and no slot changes its index.
   */
  lemma RekeyInPlace<V>(m: seq<Slot<V>>, p: real, key: real, v: V)
    requires Sorted(m) && m != []
    requires Between(key, m[Nearest(m, p)].key, p)
    ensures Emplace(Erase(m, Nearest(m, p)), key, v) == m[Nearest(m, p) := Slot(key, v)]
    ensures Sorted(m[Nearest(m, p) := Slot(key, v)])
  {
    NearestSeparates(m, p, key);
    ReplaceInPlace(m, Nearest(m, p), key, v);
  }

  /** A position with no slot of its own becomes a slot at its lower bound. */
  lemma EmplaceNew<V>(m: seq<Slot<V>>, key: real, v: V)
    requires Sorted(m)
    requires !HasKey(m, key)
    ensures var ub := LowerBound(m, key);
            Emplace(m, key, v) == m[..ub] + [Slot(key, v)] + m[ub..]
  {
  }
}
