/** What several parts of the model share. */
module Common {

  /** A value that may be missing; `None` also stands for a failure of the program. */
  datatype Option<+T> = None | Some(value: T) {
    predicate IsFailure() { None? }
    function PropagateFailure<U>(): Option<U> requires None? { None }
    function Extract(): T requires Some? { value }
  }

  newtype byte = x: int | 0 <= x < 0x100

  function Abs(x: real): real {
    if x < 0.0 then -x else x
  }

  /** Places of the same element. */
  ghost predicate TwoPlaces<T>(s: seq<T>, x: T) {
    exists i, j :: 0 <= i < j < |s| && s[i] == x && s[j] == x
  }

  lemma {:induction false} CountedTwice<T>(s: seq<T>, x: T)
    ensures multiset(s)[x] >= 2 <==> TwoPlaces(s, x)
  {
    if s != [] {
      var n := |s| - 1;
      CountedTwice(s[..n], x);
      assert s == s[..n] + [s[n]];
      assert multiset(s) == multiset(s[..n]) + multiset{s[n]};
      if s[n] == x && x in s[..n] {
        var i :| 0 <= i < n && s[i] == x;
        assert s[i] == x && s[n] == x;
      }
      if i, j :| 0 <= i < j < |s| && s[i] == x && s[j] == x {
        assert x in s[..n];
        assert j < n ==> TwoPlaces(s[..n], x);
      }
    }
  }
}
