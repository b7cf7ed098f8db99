/** Wrappers shared by every component: optional values and refusals. */
module Basics {

  datatype Option<+T> = None | Some(value: T)

  /** A value, or the fixed code with which the program refuses. */
  datatype Result<+T, +E> = Ok(value: T) | Err(error: E) {
    predicate IsFailure() { Err? }

    function PropagateFailure<U>(): Result<U, E>
      requires Err?
    {
      Err(error)
    }

    function Extract(): T
      requires Ok?
    {
      value
    }
  }

  function Max(a: int, b: int): int { if a < b then b else a }

  function Min(a: int, b: int): int { if a < b then a else b }

  /** Python's `len(set(s)) == len(s)`. */
  predicate Distinct<T(==)>(s: seq<T>) {
    forall i, j :: 0 <= i < j < |s| ==> s[i] != s[j]
  }

  function SetOf<T>(s: seq<T>): set<T> {
    set x | x in s
  }

  /** A number outside a finite set. */
  method Unused(s: set<nat>) returns (n: nat)
    ensures n !in s
  {
    n := 0;
    var rest := s;
    while rest != {}
      invariant rest <= s
      invariant forall x :: x in s && x !in rest ==> x < n
      decreases rest
    {
      var x :| x in rest;
      if n <= x {
        n := x + 1;
      }
      rest := rest - {x};
    }
  }

  lemma {:induction false} DistinctSize<T>(s: seq<T>)
    requires Distinct(s)
    ensures |SetOf(s)| == |s|
  {
    if |s| > 0 {
      var t := s[..|s| - 1];
      DistinctSize(t);
      assert SetOf(s) == SetOf(t) + {s[|s| - 1]};
      assert s[|s| - 1] !in SetOf(t);
    }
  }

  /** What holds of every element, by its place, and of the next one holds of all of them. */
  lemma AllAppend<T>(holds: (nat, T) -> bool, s: seq<T>, x: T)
    requires (forall k: nat :: k < |s| ==> holds(k, s[k])) && holds(|s|, x)
    ensures forall k: nat :: k < |s| + 1 ==> holds(k, (s + [x])[k])
  {
  }

  /** A set that is as large as the set it is part of is that set. */
  lemma FullSubset<T>(a: set<T>, b: set<T>)
    requires a <= b && |a| == |b|
    ensures a == b
  {
    assert b == a + (b - a);
  }

  lemma SubsetSize<T>(a: set<T>, b: set<T>)
    requires a <= b
    ensures |a| <= |b|
  {
    assert b == a + (b - a);
  }
}
