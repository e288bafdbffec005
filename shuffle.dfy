/**
 * Thread permutation: the in-place Fisher-Yates shuffle that the random
 * permuter delegates to (`SliceRandom::shuffle`), with the random number
 * generator reduced to a function from position to choice.
 */
module Shuffle {
  /** Exchanges two positions. */
  function Swap<T>(v: seq<T>, i: nat, j: nat): (r: seq<T>)
    requires i < |v| && j < |v|
    ensures |r| == |v| && r[i] == v[j] && r[j] == v[i]
    ensures forall k :: 0 <= k < |v| && k != i && k != j ==> r[k] == v[k]
  {
    v[i := v[j]][j := v[i]]
  }

  /** A swap keeps the same elements, counted with multiplicity. */
  lemma SwapPermutes<T>(v: seq<T>, i: nat, j: nat)
    requires i < |v| && j < |v|
    ensures multiset(Swap(v, i, j)) == multiset(v)
  {
    var w := v[i := v[j]];
    assert multiset(w) == multiset(v) - multiset{v[i]} + multiset{v[j]};
    assert multiset(w[j := v[i]]) == multiset(w) - multiset{w[j]} + multiset{v[i]};
  }

  /** The generator's choice for position `i`: a position among `0 .. i`. */
  function Pick(rng: nat -> nat, i: nat): (j: nat)
    ensures j <= i
  {
    rng(i) % (i + 1)
  }

  /**
   * The first `n` positions shuffled from the top: position `n - 1` is swapped
   * with the generator's choice among `0 .. n - 1`, then the rest below it.
   */
  function Shuffled<T>(v: seq<T>, rng: nat -> nat, n: nat): seq<T>
    requires n <= |v|
    decreases n
  {
    if n <= 1 then v else Shuffled(Swap(v, n - 1, Pick(rng, n - 1)), rng, n - 1)
  }

  /** Shuffling keeps the length and the multiset of elements, whatever the generator says. */
  lemma {:induction false} ShuffledPermutes<T>(v: seq<T>, rng: nat -> nat, n: nat)
    requires n <= |v|
    ensures |Shuffled(v, rng, n)| == |v|
    ensures multiset(Shuffled(v, rng, n)) == multiset(v)
    decreases n
  {
    if n > 1 {
      var w := Swap(v, n - 1, Pick(rng, n - 1));
      SwapPermutes(v, n - 1, Pick(rng, n - 1));
      ShuffledPermutes(w, rng, n - 1);
    }
  }

  /** A generator that always picks the top position leaves the order unchanged (the no-op permuter). */
  lemma {:induction false} ShuffledIdentity<T>(v: seq<T>, n: nat)
    requires n <= |v|
    ensures Shuffled(v, i => i, n) == v
  {
    if n > 1 {
      assert Pick(i => i, n - 1) == n - 1;
      assert Swap(v, n - 1, n - 1) == v;
      ShuffledIdentity(v, n - 1);
    }
  }
}
