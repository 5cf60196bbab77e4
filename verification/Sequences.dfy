/** Notions about sequences that several components share. */
module Sequences {

  ghost predicate NoDup<T>(q: seq<T>) {
    forall j, k :: 0 <= j < k < |q| ==> q[j] != q[k]
  }

  /** The numbers below `n` in order. */
  function UpTo(n: nat): (r: seq<nat>)
    ensures |r| == n && forall k :: 0 <= k < n ==> r[k] == k
  {
    seq(n, k => k)
  }
}
