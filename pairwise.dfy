/**
 * `pairwise(iterable)`: `zip(a, a)` over a single iterator, which reads the
 * input two items at a time and stops as soon as a pair cannot be completed.
 */
module Pairing {

  /** Consecutive pairs of `s`; a trailing odd item is dropped. */
  function Pairwise<T>(s: seq<T>): (r: seq<(T, T)>)
    ensures |r| == |s| / 2
    ensures forall i :: 0 <= i < |r| ==> r[i] == (s[2 * i], s[2 * i + 1])
  {
    if |s| < 2 then [] else [(s[0], s[1])] + Pairwise(s[2..])
  }

  /** The items of the pairs, in order. */
  function Flatten<T>(ps: seq<(T, T)>): (r: seq<T>)
  {
    if ps == [] then [] else [ps[0].0, ps[0].1] + Flatten(ps[1..])
  }

  /** Pairing loses nothing but a trailing odd item. */
  lemma {:induction false} FlattenPairwise<T>(s: seq<T>)
    ensures Flatten(Pairwise(s)) == s[..|s| / 2 * 2]
    decreases |s|
  {
    if |s| >= 2 {
      FlattenPairwise(s[2..]);
      assert Pairwise(s)[1..] == Pairwise(s[2..]);
      assert s[..|s| / 2 * 2] == [s[0], s[1]] + s[2..][..|s[2..]| / 2 * 2];
    }
  }

  /** Pairing is the inverse of flattening. */
  lemma {:induction false} PairwiseFlatten<T>(ps: seq<(T, T)>)
    ensures Pairwise(Flatten(ps)) == ps
    decreases |ps|
  {
    if ps != [] {
      PairwiseFlatten(ps[1..]);
      assert Flatten(ps)[2..] == Flatten(ps[1..]);
    }
  }
}
