/** `relayoutOf` of `lib/Transforms/FoldBatchNorm/FoldBatchNormPass.cpp`: the transpose hidden in a read map. When the
    operation that carried the map is folded away, a transpose by this permutation takes its place. */
module BatchNormRelayout {
  import opened Permutations
  import opened Wrappers
  import BatchNorm
  import RowMajor

  /** A result of the read map. */
  datatype Expr = Dim(d: nat) | Const(v: int) | OtherExpr

  ghost predicate Readable(readMap: seq<Expr>, dims: nat, shape: seq<nat>) {
    && |readMap| == dims == |shape|
    && forall k | 0 <= k < |readMap| :: readMap[k].Dim? || (readMap[k] == Const(0) && shape[k] == 1)
  }

  /** How many iteration dimensions from `d` on are not spoken for. */
  function Free(used: seq<bool>, d: nat): nat
    decreases |used| - d
  {
    if d >= |used| then 0 else (if used[d] then 0 else 1) + Free(used, d + 1)
  }

  lemma {:induction false} FreeUpdate(used: seq<bool>, e: nat, d: nat)
    requires e < |used|
    ensures Free(used[e := true], d) + 1 >= Free(used, d)
    ensures e < d ==> Free(used[e := true], d) == Free(used, d)
    decreases |used| - d
  {
    if d < |used| {
      FreeUpdate(used, e, d + 1);
    }
  }

  lemma {:induction false} FreeAll(used: seq<bool>, d: nat)
    requires d <= |used| && forall e | 0 <= e < |used| :: !used[e]
    ensures Free(used, d) == |used| - d
    decreases |used| - d
  {
    if d < |used| {
      FreeAll(used, d + 1);
    }
  }

  /** Every dimension is read by the iteration dimension its map result names; a constant has one of its own. */
  ghost predicate Matches(readMap: seq<Expr>, readBy: seq<nat>) {
    && |readBy| == |readMap|
    && (forall k | 0 <= k < |readBy| :: readBy[k] < |readBy| && (readMap[k].Dim? ==> readBy[k] == readMap[k].d))
    && forall j, k | 0 <= j < |readBy| && 0 <= k < |readBy| && j != k && !readMap[k].Dim? :: readBy[j] != readBy[k]
  }

  /** `perm` says where each iteration dimension is read; the last to read it wins, and 0 stands for nowhere. */
  ghost predicate Inverts(perm: seq<nat>, readBy: seq<nat>) {
    && |perm| == |readBy|
    && (forall d | 0 <= d < |perm| :: perm[d] < |perm|)
    && (forall k | 0 <= k < |readBy| && readBy[k] < |perm| && (forall j | k < j < |readBy| :: readBy[j] != readBy[k]) :: perm[readBy[k]] == k)
    && forall d | 0 <= d < |perm| && d !in readBy :: perm[d] == 0
  }

  method RelayoutOf(readMap: seq<Expr>, dims: nat, shape: seq<nat>) returns (perm: Option<seq<nat>>, ghost readBy: seq<nat>)
    requires forall k | 0 <= k < |readMap| && readMap[k].Dim? :: readMap[k].d < dims
    ensures perm.Some? <==> Readable(readMap, dims, shape)
    ensures perm.Some? ==> Matches(readMap, readBy) && Inverts(perm.value, readBy)
  {
    readBy := [];
    var rank := |readMap|;
    if rank != dims || rank != |shape| {
      return None, readBy;
    }
    var found, ok := MatchReads(readMap, shape);
    if !ok {
      return None, readBy;
    }
    readBy := found;
    var p: seq<nat> := seq(rank, _ => 0);
    for k := 0 to rank
      invariant |p| == rank && forall d | 0 <= d < rank :: p[d] < rank
      invariant forall j | 0 <= j < k && (forall i | j < i < k :: found[i] != found[j]) :: p[found[j]] == j
      invariant forall d | 0 <= d < rank && d !in found[..k] :: p[d] == 0
    {
      assert found[..k + 1] == found[..k] + [found[k]];
      p := p[found[k] := k];
    }
    assert found[..rank] == found;
    perm := Some(p);
  }

  /** Of the first `k` dimensions, those not pending are read by used dimensions, and constants share with nobody. */
  ghost predicate State(readMap: seq<Expr>, readBy: seq<int>, used: seq<bool>, pending: seq<nat>, k: nat) {
    && |readBy| == |used| == |readMap| && k <= |readMap|
    && (forall j | 0 <= j < k && j !in pending ::
          0 <= readBy[j] < |used| && used[readBy[j]] && (readMap[j].Dim? ==> readBy[j] == readMap[j].d))
    && (forall i | 0 <= i < |pending| :: pending[i] < k && !readMap[pending[i]].Dim?)
    && (forall i, j | 0 <= i < j < |pending| :: pending[i] != pending[j])
    && forall i, j | 0 <= i < k && 0 <= j < k && i != j && i !in pending && j !in pending && !readMap[j].Dim? ::
         readBy[i] != readBy[j]
  }

  /** No constant has been given a dimension yet. */
  ghost predicate AllPending(readMap: seq<Expr>, pending: seq<nat>, k: nat) {
    k <= |readMap| && forall j | 0 <= j < k && !readMap[j].Dim? :: j in pending
  }

  lemma StateNone(readMap: seq<Expr>, readBy: seq<int>, used: seq<bool>)
    requires |readBy| == |used| == |readMap|
    ensures State(readMap, readBy, used, [], 0) && AllPending(readMap, [], 0)
  {
  }

  lemma StateDim(readMap: seq<Expr>, readBy: seq<int>, used: seq<bool>, pending: seq<nat>, k: nat)
    requires State(readMap, readBy, used, pending, k) && AllPending(readMap, pending, k)
    requires k < |readMap| && readMap[k].Dim? && readMap[k].d < |readMap|
    ensures State(readMap, readBy[k := readMap[k].d], used[readMap[k].d := true], pending, k + 1)
    ensures AllPending(readMap, pending, k + 1)
  {
  }

  lemma StateConst(readMap: seq<Expr>, readBy: seq<int>, used: seq<bool>, pending: seq<nat>, k: nat)
    requires State(readMap, readBy, used, pending, k) && AllPending(readMap, pending, k)
    requires k < |readMap| && !readMap[k].Dim?
    ensures State(readMap, readBy, used, pending + [k], k + 1)
    ensures AllPending(readMap, pending + [k], k + 1)
  {
    assert k in pending + [k];
    forall j | j in pending ensures j in pending + [k] {
    }
  }

  lemma StateTaken(readMap: seq<Expr>, readBy: seq<int>, used: seq<bool>, pending: seq<nat>, d: nat)
    requires State(readMap, readBy, used, pending, |readMap|) && pending != [] && d < |used| && !used[d]
    ensures pending[|pending| - 1] < |readBy|
    ensures State(readMap, readBy[pending[|pending| - 1] := d], used[d := true], pending[..|pending| - 1], |readMap|)
  {
    var last := |pending| - 1;
    assert pending == pending[..last] + [pending[last]];
    forall j | j !in pending[..last] ensures j !in pending || j == pending[last] {
    }
  }

  lemma StateAll(readMap: seq<Expr>, readBy: seq<int>, used: seq<bool>)
    requires State(readMap, readBy, used, [], |readMap|)
    ensures |readBy| == |readMap| && forall k | 0 <= k < |readMap| :: 0 <= readBy[k] < |readMap|
    ensures Matches(readMap, seq(|readMap|, k requires 0 <= k < |readMap| => readBy[k]))
  {
  }

  /** The first two loops: what each dimension of the activation is read by. There is always an iteration dimension
      left for a constant. */
  method MatchReads(readMap: seq<Expr>, shape: seq<nat>) returns (found: seq<nat>, ok: bool)
    requires |shape| == |readMap| && forall k | 0 <= k < |readMap| && readMap[k].Dim? :: readMap[k].d < |readMap|
    ensures ok <==> Readable(readMap, |readMap|, shape)
    ensures ok ==> Matches(readMap, found)
  {
    var rank := |readMap|;
    var readBy: seq<int> := seq(rank, _ => -1);
    var used: seq<bool> := seq(rank, _ => false);
    var pending: seq<nat> := [];
    hide State, AllPending;
    FreeAll(used, 0);
    StateNone(readMap, readBy, used);
    for k := 0 to rank
      invariant State(readMap, readBy, used, pending, k)
      invariant Free(used, 0) + k >= rank + |pending|
      invariant AllPending(readMap, pending, k)
      invariant forall j | 0 <= j < k :: readMap[j].Dim? || (readMap[j] == Const(0) && shape[j] == 1)
    {
      match readMap[k]
      case Dim(d) =>
        FreeUpdate(used, d, 0);
        StateDim(readMap, readBy, used, pending, k);
        readBy, used := readBy[k := d], used[d := true];
      case Const(v) =>
        if v != 0 || shape[k] != 1 {
          return [], false;
        }
        StateConst(readMap, readBy, used, pending, k);
        pending := pending + [k];
      case OtherExpr => return [], false;
    }
    var d := 0;
    while d < rank && |pending| > 0
      invariant 0 <= d <= rank
      invariant State(readMap, readBy, used, pending, rank)
      invariant Free(used, d) >= |pending|
    {
      if used[d] {
        d := d + 1;
        continue;
      }
      FreeUpdate(used, d, d + 1);
      StateTaken(readMap, readBy, used, pending, d);
      var k := pending[|pending| - 1];
      readBy, used, pending := readBy[k := d], used[d := true], pending[..|pending| - 1];
      d := d + 1;
    }
    assert pending == [];
    StateAll(readMap, readBy, used);
    found := seq(rank, k requires 0 <= k < rank => readBy[k]);
    ok := true;
  }

  // Whether the transpose reads what the map read.

  function Elements(s: seq<nat>): set<nat> {
    set x | x in s
  }

  lemma {:induction false} ElementsSize(s: seq<nat>)
    ensures |Elements(s)| <= |s| && (|Elements(s)| == |s| <==> Distinct(s))
  {
    if s != [] {
      var last := |s| - 1;
      ElementsSize(s[..last]);
      assert s == s[..last] + [s[last]];
      if s[last] in s[..last] {
        assert Elements(s) == Elements(s[..last]);
        var i :| 0 <= i < last && s[..last][i] == s[last];
        assert s[i] == s[last];
      } else {
        assert Elements(s) == Elements(s[..last]) + {s[last]};
        assert Distinct(s[..last]) ==> Distinct(s);
      }
    }
  }

  function Below(n: nat): set<nat> {
    if n == 0 then {} else Below(n - 1) + {n - 1}
  }

  lemma {:induction false} BelowSize(n: nat)
    ensures |Below(n)| == n && forall x: nat :: x in Below(n) <==> x < n
  {
    if n > 0 {
      BelowSize(n - 1);
    }
  }

  lemma {:induction false} SubsetSize(a: set<nat>, b: set<nat>)
    requires a <= b
    ensures |a| <= |b| && (|a| == |b| ==> a == b)
  {
    if a != {} {
      var x :| x in a;
      SubsetSize(a - {x}, b - {x});
    }
  }

  /** `n` numbers below `n` are distinct if and only if none is missing. */
  lemma {:induction false} DistinctMeansAll(s: seq<nat>)
    requires forall i | 0 <= i < |s| :: s[i] < |s|
    ensures Distinct(s) <==> forall d: nat | d < |s| :: d in s
  {
    ElementsSize(s);
    BelowSize(|s|);
    SubsetSize(Elements(s), Below(|s|));
    assert (forall d: nat | d < |s| :: d in s) <==> Elements(s) == Below(|s|) by {
      assert forall d: nat :: d in Elements(s) <==> d in s;
      assert forall d: nat :: d in Below(|s|) <==> d < |s|;
    }
  }

  /** No iteration dimension is read twice. */
  ghost predicate NoDimensionTwice(readMap: seq<Expr>) {
    forall j, k | 0 <= j < k < |readMap| && readMap[j].Dim? && readMap[k].Dim? :: readMap[j] != readMap[k]
  }

  /** The element of the activation that iteration `o` reads. */
  function ReadIndex(readMap: seq<Expr>, o: seq<nat>): (i: seq<nat>)
    requires forall k | 0 <= k < |readMap| && readMap[k].Dim? :: readMap[k].d < |o|
    ensures |i| == |readMap|
  {
    seq(|readMap|, k requires 0 <= k < |readMap| => if readMap[k].Dim? then o[readMap[k].d] else 0)
  }

  /** Dimensions that stand for a constant have extent 1. */
  ghost predicate Possible(readMap: seq<Expr>, readBy: seq<nat>, o: seq<nat>)
    requires Matches(readMap, readBy)
  {
    |o| == |readMap| && forall k | 0 <= k < |readMap| && !readMap[k].Dim? :: o[readBy[k]] == 0
  }

  ghost predicate Agrees(readMap: seq<Expr>, readBy: seq<nat>, perm: seq<nat>, o: seq<nat>)
    requires Matches(readMap, readBy) && Inverts(perm, readBy) && Possible(readMap, readBy, o)
  {
    forall d | 0 <= d < |o| :: ReadIndex(readMap, o)[perm[d]] == o[d]
  }

  /** Whatever the extents, the transpose by `perm` puts at `o` the very element the map read there. */
  ghost predicate Faithful(readMap: seq<Expr>, readBy: seq<nat>, perm: seq<nat>)
    requires Matches(readMap, readBy) && Inverts(perm, readBy)
  {
    forall o: seq<nat> | Possible(readMap, readBy, o) :: Agrees(readMap, readBy, perm, o)
  }

  lemma {:induction false} ReadIndexAt(readMap: seq<Expr>, readBy: seq<nat>, o: seq<nat>, k: nat)
    requires Matches(readMap, readBy) && Possible(readMap, readBy, o) && k < |readMap|
    ensures ReadIndex(readMap, o)[k] == o[readBy[k]]
  {
  }

  lemma {:induction false} ReadOnceAgrees(readMap: seq<Expr>, readBy: seq<nat>, perm: seq<nat>, o: seq<nat>)
    requires Matches(readMap, readBy) && Inverts(perm, readBy) && Possible(readMap, readBy, o)
    requires Distinct(readBy) && forall d: nat | d < |readBy| :: d in readBy
    ensures Agrees(readMap, readBy, perm, o)
  {
    hide ReadIndex;
    forall d: nat | d < |o| ensures ReadIndex(readMap, o)[perm[d]] == o[d] {
      assert d in readBy;
      var k :| 0 <= k < |readBy| && readBy[k] == d;
      ReadIndexAt(readMap, readBy, o, k);
    }
  }

  /** A dimension that is not read cannot come out right. */
  lemma {:induction false} UnreadDisagrees(readMap: seq<Expr>, readBy: seq<nat>, perm: seq<nat>, d: nat) returns (o: seq<nat>)
    requires Matches(readMap, readBy) && Inverts(perm, readBy) && d < |readBy| && d !in readBy
    ensures Possible(readMap, readBy, o) && !Agrees(readMap, readBy, perm, o)
  {
    o := seq(|readMap|, e => if e == d then 1 else 0);
    forall k | 0 <= k < |readMap| ensures o[readBy[k]] == 0 {
      assert readBy[k] in readBy;
    }
    ReadIndexAt(readMap, readBy, o, perm[d]);
  }

  lemma {:induction false} TwiceMeansNotDistinct(readMap: seq<Expr>, readBy: seq<nat>)
    requires Matches(readMap, readBy)
    ensures NoDimensionTwice(readMap) <==> Distinct(readBy)
  {
    forall j, k | 0 <= j < k < |readMap|
      ensures readBy[j] == readBy[k] <==> readMap[j].Dim? && readMap[k].Dim? && readMap[j] == readMap[k]
    {
    }
  }

  lemma {:induction false} OnceMeansAll(readMap: seq<Expr>, readBy: seq<nat>)
    requires Matches(readMap, readBy)
    ensures NoDimensionTwice(readMap) ==> Distinct(readBy)
    ensures NoDimensionTwice(readMap) <==> forall d: nat | d < |readBy| :: d in readBy
  {
    TwiceMeansNotDistinct(readMap, readBy);
    assert forall i | 0 <= i < |readBy| :: readBy[i] < |readBy|;
    hide Matches, NoDimensionTwice, Distinct;
    DistinctMeansAll(readBy);
  }

  /** The recognized relayout is right exactly when no iteration dimension is read twice. A diagonal read, such as
      `(i, j) -> (i, i)`, is not refused, and there the transpose reads something else. */
  lemma {:induction false} RelayoutExact(readMap: seq<Expr>, readBy: seq<nat>, perm: seq<nat>)
    requires Matches(readMap, readBy) && Inverts(perm, readBy)
    ensures Faithful(readMap, readBy, perm) <==> NoDimensionTwice(readMap)
  {
    OnceMeansAll(readMap, readBy);
    hide Agrees, Matches, Inverts, Possible, NoDimensionTwice, Distinct;
    if NoDimensionTwice(readMap) {
      forall o: seq<nat> | Possible(readMap, readBy, o) ensures Agrees(readMap, readBy, perm, o) {
        ReadOnceAgrees(readMap, readBy, perm, o);
      }
    } else {
      var d: nat :| d < |readBy| && d !in readBy;
      var o := UnreadDisagrees(readMap, readBy, perm, d);
    }
  }

  // At given extents.

  /** The extents of the iterations, which are those of the result, and of the activation are those the map allows. */
  ghost predicate ExtentsFit(readMap: seq<Expr>, shape: seq<nat>, out: seq<nat>) {
    && Readable(readMap, |out|, shape)
    && (forall k | 0 <= k < |readMap| && readMap[k].Dim? :: readMap[k].d < |out| && out[readMap[k].d] == shape[k])
    && forall d | 0 <= d < |out| :: out[d] > 0
  }

  predicate Names(readMap: seq<Expr>, d: nat) {
    exists k :: 0 <= k < |readMap| && readMap[k] == Dim(d)
  }

  /** An iteration dimension the map does not name has extent one, and so has the one the permutation falls back to when
      no dimension of the activation is left for it. */
  predicate Settled(readMap: seq<Expr>, readBy: seq<nat>, out: seq<nat>, d: nat)
    requires |readMap| == |out| && d < |out| && forall k | 0 <= k < |readMap| && readMap[k].Dim? :: readMap[k].d < |out|
  {
    Names(readMap, d) || (out[d] == 1 && (d in readBy || readMap[0].Const? || readMap[0].OtherExpr? || out[readMap[0].d] == 1))
  }

  /** The transpose reads what the map read, at every element of a result of these extents. */
  ghost predicate FaithfulAt(readMap: seq<Expr>, perm: seq<nat>, out: seq<nat>)
    requires |perm| == |readMap| == |out| && forall d | 0 <= d < |perm| :: perm[d] < |readMap|
    requires forall k | 0 <= k < |readMap| && readMap[k].Dim? :: readMap[k].d < |out|
  {
    forall o: seq<nat>, d | RowMajor.InShape(out, o) && 0 <= d < |out| :: ReadIndex(readMap, o)[perm[d]] == o[d]
  }

  /** The last dimension of the activation read by `d`. */
  lemma {:induction false} LastReader(readBy: seq<nat>, d: nat, n: nat) returns (k: nat)
    requires n <= |readBy| && exists j :: 0 <= j < n && readBy[j] == d
    requires forall j | n <= j < |readBy| :: readBy[j] != d
    ensures k < |readBy| && readBy[k] == d && forall j | k < j < |readBy| :: readBy[j] != d
  {
    if readBy[n - 1] == d {
      k := n - 1;
    } else {
      k := LastReader(readBy, d, n - 1);
    }
  }

  /** A settled dimension is read rightly. */
  lemma {:induction false} ReadRightly(readMap: seq<Expr>, readBy: seq<nat>, perm: seq<nat>, shape: seq<nat>, out: seq<nat>, o: seq<nat>, d: nat)
    requires Matches(readMap, readBy) && Inverts(perm, readBy) && ExtentsFit(readMap, shape, out)
    requires RowMajor.InShape(out, o) && d < |out| && Settled(readMap, readBy, out, d)
    ensures ReadIndex(readMap, o)[perm[d]] == o[d]
  {
    assert |perm| == |readBy| == |readMap|;
    hide ReadIndex, Matches, Inverts;
    NamedReads(readMap, readBy, d);
    if d in readBy {
      var k := LastReader(readBy, d, |readBy|);
      PermLast(perm, readBy, d, k);
      ReadAt(readMap, readBy, o, k);
    } else {
      PermNone(perm, readBy, d);
      ReadAt(readMap, readBy, o, 0);
    }
  }

  lemma PermLast(perm: seq<nat>, readBy: seq<nat>, d: nat, k: nat)
    requires Inverts(perm, readBy) && d < |perm| && k < |readBy| && readBy[k] == d && forall j | k < j < |readBy| :: readBy[j] != d
    ensures perm[d] == k
  {
  }

  lemma PermNone(perm: seq<nat>, readBy: seq<nat>, d: nat)
    requires Inverts(perm, readBy) && d < |perm| && d !in readBy
    ensures perm[d] == 0
  {
  }

  lemma ReadAt(readMap: seq<Expr>, readBy: seq<nat>, o: seq<nat>, k: nat)
    requires Matches(readMap, readBy) && |o| == |readMap| && k < |readMap|
    requires forall j | 0 <= j < |readMap| && readMap[j].Dim? :: readMap[j].d < |o|
    ensures readMap[k].Dim? ==> readBy[k] == readMap[k].d && ReadIndex(readMap, o)[k] == o[readBy[k]]
    ensures !readMap[k].Dim? ==> ReadIndex(readMap, o)[k] == 0
  {
  }

  lemma {:induction false} NamedReads(readMap: seq<Expr>, readBy: seq<nat>, d: nat)
    requires Matches(readMap, readBy)
    ensures Names(readMap, d) ==> d in readBy && forall k | 0 <= k < |readBy| && readBy[k] == d :: readMap[k].Dim?
  {
    if j :| 0 <= j < |readMap| && readMap[j] == Dim(d) {
      assert readBy[j] in readBy;
    }
  }

  /** Indices that are zero but in one place, or everywhere. */
  function At(out: seq<nat>, d: nat): (o: seq<nat>)
    ensures |o| == |out|
  {
    seq(|out|, e => if e == d then 1 else 0)
  }

  lemma {:induction false} ReadWrongly(readMap: seq<Expr>, readBy: seq<nat>, perm: seq<nat>, shape: seq<nat>, out: seq<nat>, d: nat)
    requires Matches(readMap, readBy) && Inverts(perm, readBy) && ExtentsFit(readMap, shape, out)
    requires d < |out| && !Settled(readMap, readBy, out, d)
    ensures !FaithfulAt(readMap, perm, out)
  {
    var e := if out[d] == 1 then readMap[0].d else d;
    var o := At(out, e);
    assert RowMajor.InShape(out, o);
    if out[d] == 1 {
      assert perm[d] == 0;
      assert ReadIndex(readMap, o)[0] == 1;
    } else {
      assert ReadIndex(readMap, o)[perm[d]] == 0;
    }
  }

  /** At given extents the recognized relayout is right exactly when every iteration dimension the map does not name has
      extent one and falls to a dimension of extent one. */
  lemma {:induction false} RelayoutExactAt(readMap: seq<Expr>, readBy: seq<nat>, perm: seq<nat>, shape: seq<nat>, out: seq<nat>)
    requires Matches(readMap, readBy) && Inverts(perm, readBy) && ExtentsFit(readMap, shape, out)
    ensures FaithfulAt(readMap, perm, out) <==> forall d | 0 <= d < |out| :: Settled(readMap, readBy, out, d)
  {
    assert |perm| == |readMap| == |out| && forall d | 0 <= d < |perm| :: perm[d] < |readMap|;
    hide Matches, Inverts, ReadIndex, Settled;
    if forall d | 0 <= d < |out| :: Settled(readMap, readBy, out, d) {
      forall o: seq<nat>, d | RowMajor.InShape(out, o) && 0 <= d < |out| ensures ReadIndex(readMap, o)[perm[d]] == o[d] {
        ReadRightly(readMap, readBy, perm, shape, out, o, d);
      }
    } else {
      var d: nat :| d < |out| && !Settled(readMap, readBy, out, d);
      ReadWrongly(readMap, readBy, perm, shape, out, d);
    }
  }

  // The whole rewrite: the contraction with new weights and start, and the transpose in the place of the operation.

  /** `linalg.transpose`: the element of its result at `o` is the one of its operand at the index that has `o[d]` in
      dimension `perm[d]`. */
  ghost predicate TransposedFrom(perm: seq<nat>, o: seq<nat>, q: seq<nat>) {
    |q| == |o| == |perm| && forall d | 0 <= d < |perm| :: perm[d] < |q| && q[perm[d]] == o[d]
  }

  lemma {:induction false} TransposedIndex(readMap: seq<Expr>, perm: seq<nat>, out: seq<nat>, o: seq<nat>, q: seq<nat>)
    requires |perm| == |readMap| == |out| && (forall d | 0 <= d < |perm| :: perm[d] < |readMap|) && Distinct(perm)
    requires forall k | 0 <= k < |readMap| && readMap[k].Dim? :: readMap[k].d < |out|
    requires FaithfulAt(readMap, perm, out) && RowMajor.InShape(out, o) && TransposedFrom(perm, o, q)
    ensures q == ReadIndex(readMap, o)
  {
    DistinctMeansAll(perm);
    forall k: nat | k < |q| ensures q[k] == ReadIndex(readMap, o)[k] {
      assert k in perm;
      var d :| 0 <= d < |perm| && perm[d] == k;
    }
  }

  lemma {:induction false} ReadInside(readMap: seq<Expr>, shape: seq<nat>, out: seq<nat>, o: seq<nat>)
    requires ExtentsFit(readMap, shape, out) && RowMajor.InShape(out, o)
    ensures RowMajor.InShape(shape, ReadIndex(readMap, o))
  {
  }

  /** The element the removed operation left at `o`: its body on what it read of the contraction's result, with the
      constants of the channel it read. */
  ghost function Removed(site: BatchNorm.Site, readMap: seq<Expr>, root: real -> real, o: seq<nat>, feed: (seq<nat>, nat) -> real): Option<real>
    requires site.Valid() && BatchNorm.Accepted(site, root) && forall k | 0 <= k < |readMap| && readMap[k].Dim? :: readMap[k].d < |o|
    requires RowMajor.InShape(site.resultShape, ReadIndex(readMap, o))
  {
    var q := ReadIndex(readMap, o);
    BatchNorm.Meaning(site.body, BatchNorm.Column(site.operands, q[BatchNorm.ChannelAxes(site.kind).result]),
      BatchNorm.Contract(site.kind, site.weightShape, site.weights, q, BatchNorm.Start(site.init, q), feed), root)
  }

  /** Where the relayout is right, the folded contraction followed by the transpose leaves at every element, for every
      input, what the removed operation left there. */
  lemma {:induction false} WholeSound(site: BatchNorm.Site, weights: seq<real>, init: BatchNorm.Init, root: real -> real,
                                      readMap: seq<Expr>, readBy: seq<nat>, perm: seq<nat>, out: seq<nat>, o: seq<nat>, q: seq<nat>,
                                      feed: (seq<nat>, nat) -> real)
    requires site.Valid() && BatchNorm.Accepted(site, root) && BatchNorm.Folded(site, weights, init, root)
    requires Matches(readMap, readBy) && Inverts(perm, readBy) && ExtentsFit(readMap, site.resultShape, out) && Distinct(perm)
    requires forall d | 0 <= d < |out| :: Settled(readMap, readBy, out, d)
    requires RowMajor.InShape(out, o) && TransposedFrom(perm, o, q)
    ensures RowMajor.InShape(site.resultShape, q) && RowMajor.InShape(site.resultShape, ReadIndex(readMap, o))
    ensures Removed(site, readMap, root, o, feed)
         == Some(BatchNorm.Contract(site.kind, site.weightShape, weights, q, BatchNorm.Start(init, q), feed))
  {
    hide Matches, Inverts, ReadIndex, Settled, BatchNorm.Accepted, BatchNorm.Meaning, BatchNorm.Contract, BatchNorm.Column;
    RelayoutExactAt(readMap, readBy, perm, site.resultShape, out);
    TransposedIndex(readMap, perm, out, o, q);
    ReadInside(readMap, site.resultShape, out, o);
    assert BatchNorm.FoldedAt(site, weights, init, root, q, feed);
  }

  /** A map that reads in order. */
  predicate InOrder(readMap: seq<Expr>, dims: nat) {
    |readMap| == dims && forall k | 0 <= k < |readMap| :: readMap[k] == Dim(k)
  }

  /** What takes the place of the two operations: new weights, a new start, and a transpose unless the map reads in order. */
  datatype Rewritten = Rewritten(weights: seq<real>, init: BatchNorm.Init, transpose: Option<seq<nat>>)

  /** `matchAndRewrite` as a whole. */
  method FoldBatchNorm(site: BatchNorm.Site, readMap: seq<Expr>, dims: nat, root: real -> real) returns (made: Option<Rewritten>, ghost readBy: seq<nat>)
    requires site.Valid() && forall k | 0 <= k < |readMap| && readMap[k].Dim? :: readMap[k].d < dims
    ensures made.Some? <==>
      && BatchNorm.Accepted(site, root) && |readMap| == |site.resultShape|
      && (InOrder(readMap, dims) || Readable(readMap, dims, site.resultShape))
    ensures made.Some? ==> BatchNorm.Folded(site, made.value.weights, made.value.init, root)
    ensures made.Some? ==> (made.value.transpose.None? <==> InOrder(readMap, dims))
    ensures made.Some? && made.value.transpose.Some? ==> Matches(readMap, readBy) && Inverts(made.value.transpose.value, readBy)
  {
    hide BatchNorm.Accepted, BatchNorm.Folded, Matches, Inverts, Readable;
    made, readBy := None, [];
    if |readMap| != |site.resultShape| {
      return;
    }
    var folded := BatchNorm.FoldIntoWeights(site, root);
    if folded.None? {
      return;
    }
    var transpose: Option<seq<nat>> := None;
    if !InOrder(readMap, dims) {
      transpose, readBy := RelayoutOf(readMap, dims, site.resultShape);
      if transpose.None? {
        return;
      }
    }
    made := Some(Rewritten(folded.value.0, folded.value.1, transpose));
  }

  /** Where the map reads in order, the folded contraction alone leaves what the removed operation left. */
  lemma {:induction false} InOrderSound(site: BatchNorm.Site, weights: seq<real>, init: BatchNorm.Init, root: real -> real,
                                        readMap: seq<Expr>, o: seq<nat>, feed: (seq<nat>, nat) -> real)
    requires site.Valid() && BatchNorm.Accepted(site, root) && BatchNorm.Folded(site, weights, init, root)
    requires InOrder(readMap, |site.resultShape|) && RowMajor.InShape(site.resultShape, o)
    ensures RowMajor.InShape(site.resultShape, ReadIndex(readMap, o))
    ensures Removed(site, readMap, root, o, feed)
         == Some(BatchNorm.Contract(site.kind, site.weightShape, weights, o, BatchNorm.Start(init, o), feed))
  {
    hide BatchNorm.Accepted, BatchNorm.Meaning, BatchNorm.Contract, BatchNorm.Column;
    assert ReadIndex(readMap, o) == o;
    assert BatchNorm.FoldedAt(site, weights, init, root, o, feed);
  }

  // Two read maps that are recognized and whose transpose reads something else.

  /** The diagonal of a square: the permutation found exchanges the axes. */
  lemma {:induction false} DiagonalRead(readBy: seq<nat>, perm: seq<nat>)
    requires Matches([Dim(0), Dim(0)], readBy) && Inverts(perm, readBy)
    ensures Readable([Dim(0), Dim(0)], 2, [3, 3]) && perm == [1, 0]
    ensures !FaithfulAt([Dim(0), Dim(0)], perm, [3, 3])
  {
    var readMap := [Dim(0), Dim(0)];
    assert readMap[0] == Dim(0) && readMap[1] == Dim(0);
    assert readBy == [0, 0];
    assert 1 !in readBy;
    assert !Settled(readMap, readBy, [3, 3], 1);
    ReadWrongly(readMap, readBy, perm, [3, 3], [3, 3], 1);
  }

  /** A column repeated along the rows. */
  lemma {:induction false} RepeatedColumn(readBy: seq<nat>, perm: seq<nat>)
    requires Matches([Dim(0), Const(0)], readBy) && Inverts(perm, readBy)
    ensures Readable([Dim(0), Const(0)], 2, [2, 1]) && !FaithfulAt([Dim(0), Const(0)], perm, [2, 3])
  {
    var readMap := [Dim(0), Const(0)];
    assert readMap[0] == Dim(0) && readMap[1] == Const(0);
    assert !Names(readMap, 1);
    ReadWrongly(readMap, readBy, perm, [2, 1], [2, 3], 1);
  }
}
