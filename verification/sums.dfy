/** Finite sums over a list of keys, and how a sum moves when one key's value moves. */
module Sums {

  function SumOver<K>(keys: seq<K>, f: K -> int): int {
    if |keys| == 0 then 0 else SumOver(keys[..|keys| - 1], f) + f(keys[|keys| - 1])
  }

  /** How many times `k` occurs in `keys`. */
  function Occurrences<K(==)>(keys: seq<K>, k: K): nat {
    if |keys| == 0 then 0
    else Occurrences(keys[..|keys| - 1], k) + (if keys[|keys| - 1] == k then 1 else 0)
  }

  /**
   If `g` agrees with `f` except that `k` gained `delta`, the sum over `keys`
   gains `delta` once per occurrence of `k`.
   */
  lemma {:induction false} SumOverShift<K>(keys: seq<K>, f: K -> int, g: K -> int, k: K, delta: int)
    requires forall x :: x in keys ==> g(x) == f(x) + (if x == k then delta else 0)
    ensures SumOver(keys, g) == SumOver(keys, f) + delta * Occurrences(keys, k)
  {
    if |keys| > 0 {
      var init := keys[..|keys| - 1];
      assert forall x :: x in init ==> x in keys;
      SumOverShift(init, f, g, k, delta);
    }
  }

  /** Sums of functions that agree on every key are equal. */
  lemma {:induction false} SumOverAgree<K>(keys: seq<K>, f: K -> int, g: K -> int)
    requires forall x :: x in keys ==> g(x) == f(x)
    ensures SumOver(keys, g) == SumOver(keys, f)
  {
    if |keys| > 0 {
      var init := keys[..|keys| - 1];
      assert forall x :: x in init ==> x in keys;
      SumOverAgree(init, f, g);
    }
  }

  /** A function that is zero on every key sums to zero. */
  lemma {:induction false} SumOverZero<K>(keys: seq<K>, f: K -> int)
    requires forall x :: x in keys ==> f(x) == 0
    ensures SumOver(keys, f) == 0
  {
    if |keys| > 0 {
      var init := keys[..|keys| - 1];
      assert forall x :: x in init ==> x in keys;
      SumOverZero(init, f);
    }
  }
}
