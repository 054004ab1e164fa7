/** Small value types and sequence helpers shared by the rest of the model. */
module Basics {

  /** Python's `None` or a value. */
  datatype Option<+T> = None | Some(value: T)

  /** A value, or the error an operation raised instead. */
  datatype Result<+T, +E> = Success(value: T) | Failure(error: E)

  function Min(a: int, b: int): (m: int)
    ensures m <= a && m <= b && (m == a || m == b)
  {
    if a <= b then a else b
  }

  /** A list comprehension `[f(x) for x in s]`. */
  function MapSeq<A, B>(f: A -> B, s: seq<A>): (r: seq<B>)
    ensures |r| == |s|
    ensures forall i :: 0 <= i < |s| ==> r[i] == f(s[i])
  {
    if s == [] then [] else [f(s[0])] + MapSeq(f, s[1..])
  }

  /** Mapping one more element appends its image. */
  lemma MapSeqSnoc<A, B>(f: A -> B, s: seq<A>, x: A)
    ensures MapSeq(f, s + [x]) == MapSeq(f, s) + [f(x)]
  {
    var l, r := MapSeq(f, s + [x]), MapSeq(f, s) + [f(x)];
    assert forall i :: 0 <= i < |l| ==> l[i] == r[i];
  }

  /** The last `n` elements of `s`, last one first: what
      `ORDER BY <insertion order> DESC LIMIT n` yields. */
  function LastReversed<T>(s: seq<T>, n: nat): (r: seq<T>)
    ensures |r| == Min(n, |s|)
    ensures forall i :: 0 <= i < |r| ==> r[i] == s[|s| - 1 - i]
  {
    if n == 0 || s == [] then [] else [s[|s| - 1]] + LastReversed(s[..|s| - 1], n - 1)
  }

  /** Taking every element, last one first, keeps the same elements. */
  lemma {:induction false} ReversedPermutation<T>(s: seq<T>)
    ensures multiset(LastReversed(s, |s|)) == multiset(s)
  {
    if s != [] {
      var init := s[..|s| - 1];
      ReversedPermutation(init);
      assert s == init + [s[|s| - 1]];
    }
  }
}
