/** Walking a rectangular index space the way an odometer does.

    `Under(sizes, leaf, q)` is what nested loops over the dimensions not yet fixed by the prefix `q`
    produce, innermost dimension fastest, when every complete index contributes `leaf(index)`.
    `After(sizes, leaf, q)` is what is still to come once everything under `q` is done, so a walk that
    keeps one index and carries is described by `Under` and `After` of that index alone. */
module Odometer {

  ghost predicate IsPrefix(sizes: seq<nat>, q: seq<nat>) {
    |q| <= |sizes| && forall k | 0 <= k < |q| :: q[k] < sizes[k]
  }

  lemma PrefixAt(sizes: seq<nat>, q: seq<nat>, d: nat)
    requires IsPrefix(sizes, q) && d < |q|
    ensures IsPrefix(sizes, q[..d]) && q[d] < sizes[d]
  {
  }

  ghost predicate IsIndex(sizes: seq<nat>, q: seq<nat>) {
    |q| == |sizes| && IsPrefix(sizes, q)
  }

  ghost function Under<T>(sizes: seq<nat>, leaf: seq<nat> -> seq<T>, q: seq<nat>): seq<T>
    requires |q| <= |sizes|
    decreases |sizes| - |q|, 1, 0
  {
    if |q| == |sizes| then leaf(q) else From(sizes, leaf, q, 0)
  }

  /** Everything under `q` whose next coordinate is at least `i`. */
  ghost function From<T>(sizes: seq<nat>, leaf: seq<nat> -> seq<T>, q: seq<nat>, i: nat): seq<T>
    requires |q| < |sizes|
    decreases |sizes| - |q|, 0, if i < sizes[|q|] then sizes[|q|] - i else 0
  {
    if i >= sizes[|q|] then [] else Under(sizes, leaf, q + [i]) + From(sizes, leaf, q, i + 1)
  }

  ghost function After<T>(sizes: seq<nat>, leaf: seq<nat> -> seq<T>, q: seq<nat>): seq<T>
    requires |q| <= |sizes|
  {
    if q == [] then []
    else
      var outer := q[..|q| - 1];
      From(sizes, leaf, outer, q[|q| - 1] + 1) + After(sizes, leaf, outer)
  }

  function Zeros(n: nat): (z: seq<nat>)
    ensures |z| == n && forall k | 0 <= k < n :: z[k] == 0
  {
    seq(n, _ => 0)
  }

  lemma AfterAll<T>(sizes: seq<nat>, leaf: seq<nat> -> seq<T>)
    ensures After(sizes, leaf, []) == []
  {
  }

  /** Starting a sub-space at its first index. */
  lemma {:induction false} Descend<T>(sizes: seq<nat>, leaf: seq<nat> -> seq<T>, q: seq<nat>, n: nat)
    requires |q| + n <= |sizes|
    requires forall k | |q| <= k < |q| + n :: sizes[k] > 0
    ensures Under(sizes, leaf, q) + After(sizes, leaf, q)
         == Under(sizes, leaf, q + Zeros(n)) + After(sizes, leaf, q + Zeros(n))
    decreases n
  {
    if n == 0 {
      assert q + Zeros(0) == q;
    } else {
      var q' := q + [0];
      assert q'[..|q|] == q;
      assert q' + Zeros(n - 1) == q + Zeros(n);
      Descend(sizes, leaf, q', n - 1);
      calc {
        Under(sizes, leaf, q) + After(sizes, leaf, q);
        (Under(sizes, leaf, q') + From(sizes, leaf, q, 1)) + After(sizes, leaf, q);
        Under(sizes, leaf, q') + (From(sizes, leaf, q, 1) + After(sizes, leaf, q));
        Under(sizes, leaf, q') + After(sizes, leaf, q');
      }
    }
  }

  lemma {:induction false} AfterSnoc<T>(sizes: seq<nat>, leaf: seq<nat> -> seq<T>, q: seq<nat>, i: nat)
    requires |q| < |sizes|
    ensures After(sizes, leaf, q + [i]) == From(sizes, leaf, q, i + 1) + After(sizes, leaf, q)
  {
    var p := q + [i];
    assert p[..|p| - 1] == q;
    assert p[|p| - 1] == i;
  }

  /** A wheel with nothing left carries to the wheel outside it. */
  lemma {:induction false} Carry<T>(sizes: seq<nat>, leaf: seq<nat> -> seq<T>, q: seq<nat>, i: nat)
    requires |q| < |sizes| && i + 1 == sizes[|q|]
    ensures After(sizes, leaf, q + [i]) == After(sizes, leaf, q)
  {
    AfterSnoc(sizes, leaf, q, i);
    assert From(sizes, leaf, q, i + 1) == [];
  }

  /** A wheel that can still turn moves on to its next sibling. */
  lemma {:induction false} Turn<T>(sizes: seq<nat>, leaf: seq<nat> -> seq<T>, q: seq<nat>, i: nat)
    requires |q| < |sizes| && i + 1 < sizes[|q|]
    ensures After(sizes, leaf, q + [i]) == Under(sizes, leaf, q + [i + 1]) + After(sizes, leaf, q + [i + 1])
  {
    hide After, Under;
    AfterSnoc(sizes, leaf, q, i);
    AfterSnoc(sizes, leaf, q, i + 1);
    var first, others, outer := Under(sizes, leaf, q + [i + 1]), From(sizes, leaf, q, i + 2), After(sizes, leaf, q);
    assert From(sizes, leaf, q, i + 1) == first + others;
    assert (first + others) + outer == first + (others + outer);
  }

  /** The two together, the step a carrying walk takes: bump one wheel, reset the ones inside it. */
  lemma {:induction false} Step<T>(sizes: seq<nat>, leaf: seq<nat> -> seq<T>, q: seq<nat>, i: nat, n: nat)
    requires |q| + 1 + n <= |sizes| && i + 1 < sizes[|q|]
    requires forall k | |q| < k <= |q| + n :: sizes[k] > 0
    ensures var next := q + [i + 1] + Zeros(n);
      After(sizes, leaf, q + [i]) == Under(sizes, leaf, next) + After(sizes, leaf, next)
  {
    Turn(sizes, leaf, q, i);
    Descend(sizes, leaf, q + [i + 1], n);
  }

  /** The strided distance of an index from the origin. */
  function Dot(q: seq<nat>, strides: seq<int>): int
    requires |q| <= |strides|
  {
    if q == [] then 0 else Dot(q[..|q| - 1], strides) + q[|q| - 1] * strides[|q| - 1]
  }

  lemma {:induction false} DotSnoc(q: seq<nat>, i: nat, strides: seq<int>)
    requires |q| < |strides|
    ensures Dot(q + [i], strides) == Dot(q, strides) + i * strides[|q|]
  {
    assert (q + [i])[..|q|] == q;
  }

  lemma {:induction false} DotZeros(q: seq<nat>, n: nat, strides: seq<int>)
    requires |q| + n <= |strides|
    ensures Dot(q + Zeros(n), strides) == Dot(q, strides)
    decreases n
  {
    if n == 0 {
      assert q + Zeros(0) == q;
    } else {
      DotZeros(q, n - 1, strides);
      assert q + Zeros(n) == (q + Zeros(n - 1)) + [0];
      DotSnoc(q + Zeros(n - 1), 0, strides);
    }
  }

  /** One step along dimension `d`. */
  function Unit(n: nat, d: nat): (p: seq<nat>)
    ensures |p| == n && forall e | 0 <= e < n :: p[e] == if e == d then 1 else 0
  {
    seq(n, e => if e == d then 1 else 0)
  }

  lemma {:induction false} DotUnit(strides: seq<int>, n: nat, d: nat)
    requires n <= |strides|
    ensures Dot(Unit(n, d), strides) == if d < n then strides[d] else 0
    decreases n
  {
    if n > 0 {
      assert Unit(n, d)[..n - 1] == Unit(n - 1, d);
      DotUnit(strides, n - 1, d);
    }
  }

  /** `Under` yields exactly the contributions of the indices that extend `q`. */
  lemma {:induction false} UnderMembers<T>(sizes: seq<nat>, leaf: seq<nat> -> seq<T>, q: seq<nat>, x: T)
    requires IsPrefix(sizes, q)
    ensures x in Under(sizes, leaf, q) <==> exists p :: IsIndex(sizes, p) && q <= p && x in leaf(p)
    decreases |sizes| - |q|, 1, 0
  {
    if |q| == |sizes| {
      if x in leaf(q) {
        assert IsIndex(sizes, q) && q <= q;
      }
      assert forall p :: IsIndex(sizes, p) && q <= p ==> p == q;
    } else {
      FromMembers(sizes, leaf, q, 0, x);
    }
  }

  lemma {:induction false} FromMembers<T>(sizes: seq<nat>, leaf: seq<nat> -> seq<T>, q: seq<nat>, i: nat, x: T)
    requires |q| < |sizes| && IsPrefix(sizes, q)
    ensures x in From(sizes, leaf, q, i) <==>
      exists p :: IsIndex(sizes, p) && q <= p && p[|q|] >= i && x in leaf(p)
    decreases |sizes| - |q|, 0, if i < sizes[|q|] then sizes[|q|] - i else 0
  {
    if i < sizes[|q|] {
      UnderMembers(sizes, leaf, q + [i], x);
      FromMembers(sizes, leaf, q, i + 1, x);
      forall p | IsIndex(sizes, p) && q <= p && p[|q|] == i ensures q + [i] <= p {
        assert p[..|q| + 1] == q + [i];
      }
      if x in Under(sizes, leaf, q + [i]) {
        var p :| IsIndex(sizes, p) && q + [i] <= p && x in leaf(p);
        assert p[|q|] == (q + [i])[|q|] == i;
        assert q == p[..|q|];
      }
    }
  }

  ghost function Tick(q: seq<nat>): seq<nat> { [0] }

  /** How many complete indices come after `q`. */
  ghost function Left(sizes: seq<nat>, q: seq<nat>): nat
    requires |q| <= |sizes|
  {
    |After(sizes, Tick, q)|
  }

  /** A space with an empty dimension has nothing in it. */
  lemma {:induction false} EmptySpace<T>(sizes: seq<nat>, leaf: seq<nat> -> seq<T>, d: nat)
    requires d < |sizes| && sizes[d] == 0
    ensures Under(sizes, leaf, []) == []
  {
    var all := Under(sizes, leaf, []);
    if all != [] {
      UnderMembers(sizes, leaf, [], all[0]);
    }
  }
}
