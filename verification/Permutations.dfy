/** Sequences used as permutations of dimensions. */
module Permutations {

  ghost predicate Distinct(s: seq<nat>) {
    forall i, j | 0 <= i < j < |s| :: s[i] != s[j]
  }

  /** `x` with its coordinates in the order of `perm`. */
  function Permute<T>(perm: seq<nat>, x: seq<T>): seq<T>
    requires forall d | 0 <= d < |perm| :: perm[d] < |x|
  {
    seq(|perm|, d requires 0 <= d < |perm| => x[perm[d]])
  }
}
