/** Small vocabulary shared by every component of the model. */
module Basics {

  datatype Option<+T> = None | Some(value: T)

  function Max(a: int, b: int): int {
    if a >= b then a else b
  }

  function Min(a: int, b: int): int {
    if a <= b then a else b
  }

  /** Removes one key from a map; a map without the key is unchanged. */
  function Without<K, V>(m: map<K, V>, k: K): map<K, V> {
    m - {k}
  }

  ghost function Member<T>(s: set<T>): (x: T)
    requires s != {}
    ensures x in s
  {
    var x :| x in s;
    x
  }

  lemma MinimumExists(s: set<int>)
    requires s != {}
    ensures exists m :: m in s && forall x | x in s :: m <= x
    decreases s
  {
    var x := Member(s);
    if s != {x} {
      var rest := s - {x};
      MinimumExists(rest);
      var m :| m in rest && forall y | y in rest :: m <= y;
      var least := Min(m, x);
      assert least in s && forall y | y in s :: least <= y by {
        assert forall y | y in s :: y == x || y in rest;
      }
    }
  }

  /** The least element of a non-empty set. */
  function Least(s: set<int>): (m: int)
    requires s != {}
    ensures m in s && forall x | x in s :: m <= x
  {
    MinimumExists(s);
    var m :| m in s && forall x | x in s :: m <= x;
    m
  }

  predicate Increasing(xs: seq<int>) {
    forall i, j | 0 <= i < j < |xs| :: xs[i] < xs[j]
  }

  predicate NoRepeats<T(==)>(xs: seq<T>) {
    forall i, j | 0 <= i < j < |xs| :: xs[i] != xs[j]
  }

  lemma QuotientMonotone(x: real, y: real, n: real)
    requires x <= y && n > 0.0
    ensures x / n <= y / n
  {
  }
}
