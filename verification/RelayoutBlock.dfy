/** The block a relayout is folded in. The fold moves what the producers write from the source into the destination,
    where and when they are; nothing looks at what else uses the destination, at whether a producer reads it or the
    element it writes, at whether every producer comes before the transpose, or at whether the transpose runs. Here all
    of that varies, and the fold is shown to keep the block's meaning exactly when it does no harm. */
module RelayoutBlock {
  import opened Odometer
  import opened Permutations
  import opened Relayout
  import opened Wrappers

  /** A producer writing its slice, the transpose, or another operation: it has nothing to do with the source, and may
      read and write the destination. */
  datatype Item = Fill(k: nat) | Relay | Other(id: nat, sees: bool, alters: bool)

  /** All memory but the two buffers. */
  type World = seq<int>

  /** The block's buffers, the transpose and the producers, the bodies aside; which producers' bodies use the element they
      are about to write; and which producers have the destination among their inputs. */
  datatype Site = Site(shape: seq<nat>, perm: seq<nat>, ps: seq<Producer>, usesOut: seq<bool>, seesDst: seq<bool>)

  /** What the operations do: a producer's body, given the rest of memory and what each iteration sees of the destination;
      and what another operation makes of the rest of memory and writes into the destination, given what it sees of it. */
  datatype Behaviour = Behaviour(
    body: (nat, World) -> ((seq<nat>, int, seq<int>) -> int),
    leaves: (nat, World, seq<int>) -> World,
    puts: (nat, World, seq<int>) -> (Point -> Option<int>))

  datatype State = State(src: Buffer, dst: Buffer, world: World)

  ghost predicate Tiled(shape: seq<nat>, ps: seq<Producer>, axis: nat) {
    AllValid(shape, ps) && Tiles(shape, SlicesOf(ps), axis)
  }

  /** What the fold checks. */
  ghost predicate Checked(site: Site) {
    && Permutation(site.perm) && |site.perm| == |site.shape| && |site.usesOut| == |site.seesDst| == |site.ps|
    && AllValid(site.shape, site.ps) && exists axis: nat :: Tiled(site.shape, site.ps, axis)
  }

  ghost predicate Known(site: Site, items: seq<Item>) {
    forall i | 0 <= i < |items| && items[i].Fill? :: items[i].k < |site.ps|
  }

  /** The operations in the order one run executes them. Every producer runs once, in the block of the destination; the
      transpose may be under a condition, and then not run, or in a loop, and then run any number of times. */
  ghost predicate Proper(site: Site, block: seq<Item>) {
    && (forall k: nat | k < |site.ps| :: Fill(k) in block)
    && Known(site, block)
    && forall i, j | 0 <= i < j < |block| && block[i] == block[j] :: !block[i].Fill?
  }

  /** A body that does not use the element it writes makes the same of any. */
  ghost predicate Consistent(site: Site, b: Behaviour) {
    forall k: nat, w: World, t: seq<nat>, v, v', seen: seq<int> | k < |site.usesOut| && !site.usesOut[k] ::
      b.body(k, w)(t, v, seen) == b.body(k, w)(t, v', seen)
  }

  ghost function DstShape(site: Site): seq<nat>
    requires Checked(site)
  {
    Permute(site.perm, site.shape)
  }

  /** The producer with its body, when all its iterations see the same of the destination. */
  ghost function With(site: Site, b: Behaviour, k: nat, w: World, seen: seq<int>): (p: Producer)
    requires Checked(site) && k < |site.ps|
    ensures Valid(site.shape, p)
  {
    site.ps[k].(body := (t: seq<nat>, v: int) => b.body(k, w)(t, v, seen))
  }

  ghost function Redirected(site: Site, p: Producer): (r: Producer)
    requires Checked(site) && Valid(site.shape, p)
    ensures Valid(DstShape(site), r)
  {
    RewrittenValid(site.shape, site.perm, p);
    Rewritten(site.shape, site.perm, p)
  }

  /** Coordinates back in the source's order. */
  ghost function Unpermute(perm: seq<nat>, y: Point): Point
    requires Permutation(perm) && |y| == |perm|
  {
    seq(|perm|, r requires 0 <= r < |perm| => y[Where(perm, r)])
  }

  ghost function Transposed(perm: seq<nat>, src: Buffer): Buffer
    requires Permutation(perm)
  {
    (y: Point) => if |y| == |perm| then src(Unpermute(perm, y)) else 0
  }

  /** Every place of the destination, in row-major order. */
  ghost function Places(site: Site): seq<seq<nat>>
    requires Checked(site)
  {
    Under(DstShape(site), Itself, [])
  }

  ghost function Contents(places: seq<seq<nat>>, dst: Buffer): seq<int> {
    seq(|places|, i requires 0 <= i < |places| => dst(places[i]))
  }

  ghost function Seen(site: Site, k: nat, dst: Buffer): seq<int>
    requires Checked(site) && k < |site.ps|
  {
    if site.seesDst[k] then Contents(Places(site), dst) else []
  }

  /** The redirected producer. Each iteration sees the destination as the iterations before it have left it. */
  ghost function Live(site: Site, b: Behaviour, k: nat, w: World, r: Producer, dst: Buffer, ts: seq<seq<nat>>): Buffer
    requires Checked(site) && k < |site.ps| && Runnable(r, ts)
  {
    if ts == [] then dst
    else
      var t := ts[|ts| - 1];
      var before := Live(site, b, k, w, r, dst, ts[..|ts| - 1]);
      Put(before, Place(r, t), b.body(k, w)(t, before(Place(r, t)), Seen(site, k, before)))
  }

  /** The producer as the fold leaves it, its body aside. */
  ghost function Moved(site: Site, k: nat): (r: Producer)
    requires Checked(site) && k < |site.ps|
    ensures Valid(DstShape(site), r) && r == Redirected(site, site.ps[k]) && Runnable(r, Iterations(r)) && Iterations(r) == Iterations(site.ps[k])
  {
    var r := Redirected(site, site.ps[k]);
    IterationsRun(DstShape(site), r);
    r
  }

  ghost function Overlaid(dst: Buffer, puts: Point -> Option<int>): Buffer {
    (y: Point) => if puts(y).Some? then puts(y).value else dst(y)
  }

  ghost function OtherStep(site: Site, b: Behaviour, item: Item, s: State): State
    requires Checked(site) && item.Other?
  {
    var seen := if item.sees then Contents(Places(site), s.dst) else [];
    State(s.src, if item.alters then Overlaid(s.dst, b.puts(item.id, s.world, seen)) else s.dst, b.leaves(item.id, s.world, seen))
  }

  ghost function StepBefore(site: Site, b: Behaviour, item: Item, s: State): State
    requires Checked(site) && (item.Fill? ==> item.k < |site.ps|)
  {
    match item
    case Fill(k) => s.(src := Performed(site.shape, With(site, b, k, s.world, Seen(site, k, s.dst)), s.src))
    case Relay => s.(dst := Transposed(site.perm, s.src))
    case Other(_, _, _) => OtherStep(site, b, item, s)
  }

  /** After the fold the producers write the destination and there is no transpose. */
  ghost function StepAfter(site: Site, b: Behaviour, item: Item, s: State): State
    requires Checked(site) && (item.Fill? ==> item.k < |site.ps|)
  {
    match item
    case Fill(k) => s.(dst := Live(site, b, k, s.world, Moved(site, k), s.dst, Iterations(Moved(site, k))))
    case Relay => s
    case Other(_, _, _) => OtherStep(site, b, item, s)
  }

  ghost function RunBefore(site: Site, b: Behaviour, items: seq<Item>, s: State): State
    requires Checked(site) && Known(site, items)
  {
    if items == [] then s
    else StepBefore(site, b, items[|items| - 1], RunBefore(site, b, items[..|items| - 1], s))
  }

  ghost function RunAfter(site: Site, b: Behaviour, items: seq<Item>, s: State): State
    requires Checked(site) && Known(site, items)
  {
    if items == [] then s
    else StepAfter(site, b, items[|items| - 1], RunAfter(site, b, items[..|items| - 1], s))
  }

  /** The destinations hold the same, place by place. */
  ghost predicate SameDst(site: Site, s: State, t: State)
    requires Checked(site)
  {
    forall x: Point | InBuffer(site.shape, x) :: s.dst(Permute(site.perm, x)) == t.dst(Permute(site.perm, x))
  }

  /** The fold keeps every final content of the destination and of all other memory, and so, since an operation may copy
      what it sees there, every read: for all contents at first and all the operations may do. */
  ghost predicate KeepsMeaning(site: Site, block: seq<Item>)
    requires Checked(site) && Known(site, block)
  {
    forall b: Behaviour, s: State | Consistent(site, b) ::
      var before, after := RunBefore(site, b, block, s), RunAfter(site, b, block, s);
      SameDst(site, before, after) && before.world == after.world
  }

  // The conditions.

  /** Every producer reduces over something and none uses the element it writes. */
  ghost predicate Overwriting(site: Site) {
    |site.usesOut| == |site.ps| && forall k | 0 <= k < |site.ps| :: Reduces(site.ps[k]) && !site.usesOut[k]
  }

  /** The transpose at `r` comes after every producer. */
  ghost predicate Settles(site: Site, block: seq<Item>, r: nat) {
    r < |block| && block[r] == Relay && forall k: nat | k < |site.ps| :: Fill(k) in block[..r]
  }

  ghost predicate SettledBefore(site: Site, block: seq<Item>, n: nat) {
    exists r: nat :: r < n && Settles(site, block, r)
  }

  /** Neither a producer nor the transpose yet. */
  ghost predicate Untouched(items: seq<Item>) {
    forall i | 0 <= i < |items| :: items[i].Other?
  }

  /** What reads the destination does so before the first producer and transpose, or after a transpose that comes after
      every producer. */
  ghost predicate SeenSettled(site: Site, block: seq<Item>) {
    forall j | 0 <= j < |block| && block[j].Other? && block[j].sees :: Untouched(block[..j]) || SettledBefore(site, block, j)
  }

  /** Nothing writes the destination after a producer and before a transpose. */
  ghost predicate LeftAlone(block: seq<Item>) {
    forall i, j, r | 0 <= i < j < r < |block| && block[i].Fill? && block[r] == Relay :: !(block[j].Other? && block[j].alters)
  }

  /** No producer reads the destination, unless it comes first of all and has but one iteration. */
  ghost predicate OwnInputs(site: Site, block: seq<Item>) {
    forall i | 0 <= i < |block| && block[i].Fill? && block[i].k < |site.ps| && |site.seesDst| == |site.ps| && site.seesDst[block[i].k] ::
      Untouched(block[..i]) && |Iterations(site.ps[block[i].k])| == 1
  }

  ghost predicate Harmless(site: Site, block: seq<Item>) {
    && Overwriting(site) && SettledBefore(site, block, |block|) && SeenSettled(site, block) && LeftAlone(block) && OwnInputs(site, block)
  }

  /** The transpose does not run, and no producer writes anything. */
  ghost predicate Idle(site: Site, block: seq<Item>) {
    Relay !in block && forall k | 0 <= k < |site.ps| :: !Reduces(site.ps[k])
  }

  // One producer, at one place.

  lemma {:induction false} FillOverwrites(shape: seq<nat>, p: Producer, a: Buffer, b: Buffer, x: Point)
    requires Valid(shape, p) && Overwrites(p) && (a(x) == b(x) || Writes(shape, p, x))
    ensures Performed(shape, p, a)(x) == Performed(shape, p, b)(x)
  {
    hide Writes;
    PlacedAt(shape, p, x);
    PerformOverwrites(p, a, b, Iterations(p), x);
  }

  ghost function Back(perm: seq<nat>, dst: Buffer): Buffer
    requires Permutation(perm)
  {
    (x: Point) => if |x| == |perm| then dst(Permute(perm, x)) else 0
  }

  /** In the destination a redirected producer does what it would have done in the source. */
  lemma {:induction false} FillRedirected(site: Site, p: Producer, dst: Buffer, x: Point)
    requires Checked(site) && Valid(site.shape, p) && |x| == |site.perm|
    ensures Performed(DstShape(site), Redirected(site, p), dst)(Permute(site.perm, x))
         == Performed(site.shape, p, Back(site.perm, dst))(x)
  {
    var r := Redirected(site, p);
    IterationsRun(site.shape, p);
    IterationsRun(DstShape(site), r);
    assert Iterations(r) == Iterations(p);
    forall i | 0 <= i < |Iterations(p)| ensures |Iterations(p)[i]| == |p.dims| {
      IterationsMembers(p, Iterations(p)[i]);
    }
    PerformTransposed(site.shape, site.perm, p, Back(site.perm, dst), dst, Iterations(p));
  }

  lemma {:induction false} UnpermutePermute(perm: seq<nat>, x: Point)
    requires Permutation(perm) && |x| == |perm|
    ensures Unpermute(perm, Permute(perm, x)) == x
  {
    forall r: nat | r < |perm| ensures Unpermute(perm, Permute(perm, x))[r] == x[r] {
      assert Where(perm, r) < |perm|;
    }
  }

  lemma {:induction false} PermuteUnpermute(perm: seq<nat>, y: Point)
    requires Permutation(perm) && |y| == |perm|
    ensures Permute(perm, Unpermute(perm, y)) == y
  {
    var x := Unpermute(perm, y);
    forall d: nat | d < |perm| ensures x[perm[d]] == y[d] {
      SamePlace(perm, Where(perm, perm[d]), d);
    }
  }

  lemma TransposedAt(site: Site, src: Buffer, x: Point)
    requires Checked(site) && InBuffer(site.shape, x)
    ensures Transposed(site.perm, src)(Permute(site.perm, x)) == src(x)
  {
    UnpermutePermute(site.perm, x);
  }

  /** The same destination looks the same. */
  lemma {:induction false} SameContents(site: Site, s: State, t: State)
    requires Checked(site) && SameDst(site, s, t)
    ensures Contents(Places(site), s.dst) == Contents(Places(site), t.dst)
  {
    hide Checked;
    var places := Places(site);
    forall i | 0 <= i < |places| ensures s.dst(places[i]) == t.dst(places[i]) {
      PlaceOfPoint(site, i);
    }
  }

  lemma {:induction false} PlaceOfPoint(site: Site, i: nat)
    requires Checked(site) && i < |Places(site)|
    ensures |site.perm| == |site.shape| && forall d | 0 <= d < |site.perm| :: site.perm[d] < |site.shape|
    ensures exists x: Point :: InBuffer(site.shape, x) && Permute(site.perm, x) == Places(site)[i]
  {
    var y := Places(site)[i];
    UnderMembers(DstShape(site), Itself, [], y);
    assert y in Places(site);
    var x := Unpermute(site.perm, y);
    PermuteUnpermute(site.perm, y);
    forall r: nat | r < |site.shape| ensures 0 <= x[r] < site.shape[r] {
      var d := Where(site.perm, r);
      assert y[d] < DstShape(site)[d];
    }
    assert InBuffer(site.shape, x);
  }

  // The fold of a block that meets the conditions.

  ghost predicate WrittenBy(site: Site, k: nat, x: Point)
    requires Checked(site)
  {
    k < |site.ps| && Writes(site.shape, site.ps[k], x)
  }

  ghost predicate WrittenSoFar(site: Site, items: seq<Item>, x: Point)
    requires Checked(site)
  {
    exists k: nat :: Fill(k) in items && WrittenBy(site, k, x)
  }

  /** The element is where the transpose takes it. */
  ghost predicate Relaid(site: Site, src: Buffer, dst: Buffer, x: Point)
    requires Checked(site)
  {
    InBuffer(site.shape, x) ==> dst(Permute(site.perm, x)) == src(x)
  }

  ghost predicate Produced(site: Site, items: seq<Item>, src: Buffer, dst: Buffer)
    requires Checked(site)
  {
    forall x | WrittenSoFar(site, items, x) :: Relaid(site, src, dst, x)
  }

  ghost predicate RelayFrom(block: seq<Item>, n: nat) {
    exists r: nat :: n <= r < |block| && block[r] == Relay
  }

  /** While there is a transpose to come, whatever has been written of the source is where it would take it; the rest of
      memory is the same throughout; and so is the destination before the first producer and transpose, and after a
      transpose that comes after every producer. */
  ghost predicate InStep(site: Site, block: seq<Item>, n: nat, s: State, t: State)
    requires Checked(site) && n <= |block|
  {
    && s.world == t.world
    && (RelayFrom(block, n) ==> Produced(site, block[..n], s.src, t.dst))
    && (Untouched(block[..n]) || SettledBefore(site, block, n) ==> SameDst(site, s, t))
  }

  lemma {:induction false} OtherKeeps(site: Site, b: Behaviour, item: Item, s: State, t: State)
    requires Checked(site) && item.Other? && s.world == t.world && (item.sees ==> SameDst(site, s, t))
    ensures var s', t' := StepBefore(site, b, item, s), StepAfter(site, b, item, t);
      && s'.world == t'.world && s'.src == s.src
      && (SameDst(site, s, t) ==> SameDst(site, s', t'))
      && (!item.alters ==> s'.dst == s.dst && t'.dst == t.dst)
  {
    hide Checked, Contents, Places;
    if item.sees {
      SameContents(site, s, t);
    }
  }

  /** What an iteration sees makes no difference. */
  ghost predicate Blind(site: Site, b: Behaviour, k: nat, w: World)
    requires k < |site.seesDst|
  {
    !site.seesDst[k] || forall t: seq<nat>, v: int, seen: seq<int>, seen': seq<int> :: b.body(k, w)(t, v, seen) == b.body(k, w)(t, v, seen')
  }

  lemma SamePlaces(site: Site, b: Behaviour, k: nat, w: World, seen: seq<int>)
    requires Checked(site) && k < |site.ps|
    ensures var r, m := Redirected(site, With(site, b, k, w, seen)), Moved(site, k);
      && r.slice == m.slice && r.out == m.out && forall t: seq<nat>, v: int :: r.body(t, v) == b.body(k, w)(t, v, seen)
  {
  }

  /** Then the redirected producer is the producer redirected. */
  lemma {:induction false} LiveBlind(site: Site, b: Behaviour, k: nat, w: World, dst: Buffer, at: Buffer, ts: seq<seq<nat>>)
    requires Checked(site) && k < |site.ps| && Blind(site, b, k, w) && Runnable(Moved(site, k), ts)
    ensures var r := Redirected(site, With(site, b, k, w, Seen(site, k, at)));
      Runnable(r, ts) && forall y :: Live(site, b, k, w, Moved(site, k), dst, ts)(y) == Perform(r, dst, ts)(y)
  {
    var r := Redirected(site, With(site, b, k, w, Seen(site, k, at)));
    SamePlaces(site, b, k, w, Seen(site, k, at));
    if ts != [] {
      hide Checked, Contents, Places, Redirected, Moved, Place;
      LiveBlind(site, b, k, w, dst, at, ts[..|ts| - 1]);
    }
  }

  /** And so it is when there is one iteration. */
  lemma {:induction false} LiveOnce(site: Site, b: Behaviour, k: nat, w: World, dst: Buffer, ts: seq<seq<nat>>)
    requires Checked(site) && k < |site.ps| && |ts| == 1 && Runnable(Moved(site, k), ts)
    ensures var r := Redirected(site, With(site, b, k, w, Seen(site, k, dst)));
      Runnable(r, ts) && forall y :: Live(site, b, k, w, Moved(site, k), dst, ts)(y) == Perform(r, dst, ts)(y)
  {
    var r := Redirected(site, With(site, b, k, w, Seen(site, k, dst)));
    assert ts[..0] == [];
    assert Live(site, b, k, w, Moved(site, k), dst, []) == dst && Perform(r, dst, []) == dst;
  }

  /** The same, of the step. */
  lemma {:induction false} StepIsPerformed(site: Site, b: Behaviour, k: nat, t: State, y: Point)
    requires Checked(site) && k < |site.ps|
    requires Blind(site, b, k, t.world) || |Iterations(site.ps[k])| == 1
    ensures StepAfter(site, b, Fill(k), t).dst(y)
         == Performed(DstShape(site), Redirected(site, With(site, b, k, t.world, Seen(site, k, t.dst))), t.dst)(y)
  {
    hide Live, Perform, Contents, Places;
    var p := With(site, b, k, t.world, Seen(site, k, t.dst));
    assert Iterations(Redirected(site, p)) == Iterations(site.ps[k]);
    if |Iterations(site.ps[k])| == 1 {
      LiveOnce(site, b, k, t.world, t.dst, Iterations(Moved(site, k)));
    } else {
      LiveBlind(site, b, k, t.world, t.dst, t.dst, Iterations(Moved(site, k)));
    }
  }

  lemma {:induction false} FillKeeps(site: Site, b: Behaviour, k: nat, s: State, t: State, x: Point)
    requires Checked(site) && Overwriting(site) && Consistent(site, b) && k < |site.ps| && s.world == t.world
    requires site.seesDst[k] ==> SameDst(site, s, t) && |Iterations(site.ps[k])| == 1
    requires Relaid(site, s.src, t.dst, x) || WrittenBy(site, k, x)
    ensures Relaid(site, StepBefore(site, b, Fill(k), s).src, StepAfter(site, b, Fill(k), t).dst, x)
  {
    hide Performed, Redirected, Writes, StepAfter, SameDst;
    if InBuffer(site.shape, x) {
      if site.seesDst[k] {
        SameContents(site, s, t);
      }
      var p := With(site, b, k, s.world, Seen(site, k, s.dst));
      assert p == With(site, b, k, t.world, Seen(site, k, t.dst));
      assert Overwrites(p);
      WritesWhatever(site, b, k, s.world, Seen(site, k, s.dst), x);
      StepIsPerformed(site, b, k, t, Permute(site.perm, x));
      FillRedirected(site, p, t.dst, x);
      FillOverwrites(site.shape, p, Back(site.perm, t.dst), s.src, x);
    }
  }

  /** Where a producer writes does not depend on its body. */
  lemma WritesWhatever(site: Site, b: Behaviour, k: nat, w: World, seen: seq<int>, x: Point)
    requires Checked(site) && k < |site.ps|
    ensures Writes(site.shape, With(site, b, k, w, seen), x) <==> Writes(site.shape, site.ps[k], x)
  {
    var p, q := With(site, b, k, w, seen), site.ps[k];
    assert forall t | IsIndex(q.dims, t) :: Place(p, t) == Place(q, t);
    if Writes(site.shape, q, x) {
      var t :| IsIndex(q.dims, t) && Place(q, t) == x;
      assert IsIndex(p.dims, t) && Place(p, t) == x;
    }
    if Writes(site.shape, p, x) {
      var t :| IsIndex(p.dims, t) && Place(p, t) == x;
      assert IsIndex(q.dims, t) && Place(q, t) == x;
    }
  }

  lemma StepFill(site: Site, b: Behaviour, k: nat, s: State, t: State)
    requires Checked(site) && k < |site.ps|
    ensures StepBefore(site, b, Fill(k), s).world == s.world && StepAfter(site, b, Fill(k), t).world == t.world
  {
  }

  /** What the conditions say of an item and those before it. */
  lemma {:induction false} FillPlaced(site: Site, block: seq<Item>, n: nat)
    requires Proper(site, block) && SettledBefore(site, block, |block|) && n < |block| && block[n].Fill?
    ensures RelayFrom(block, n + 1) && !SettledBefore(site, block, n + 1) && !Untouched(block[..n + 1])
  {
    var k := block[n].k;
    assert block[..n + 1][n] == block[n];
    var r: nat :| r < |block| && Settles(site, block, r);
    assert Fill(k) in block[..r];
    forall q: nat | q < n + 1 && block[q] == Relay ensures Fill(k) !in block[..q] {
    }
  }

  lemma {:induction false} FillInStep(site: Site, b: Behaviour, block: seq<Item>, n: nat, s: State, t: State)
    requires Checked(site) && Proper(site, block) && Harmless(site, block) && Consistent(site, b)
    requires n < |block| && block[n].Fill? && InStep(site, block, n, s, t)
    ensures InStep(site, block, n + 1, StepBefore(site, b, block[n], s), StepAfter(site, b, block[n], t))
  {
    hide Checked, Overwriting, Consistent, WrittenBy, Relaid, StepBefore, StepAfter, SameDst, Untouched, SettledBefore, SeenSettled, LeftAlone;
    var k := block[n].k;
    var s', t' := StepBefore(site, b, Fill(k), s), StepAfter(site, b, Fill(k), t);
    assert block[..n + 1] == block[..n] + [Fill(k)];
    FillPlaced(site, block, n);
    assert SiteLengths(site) by { Lengths(site); }
    assert RelayFrom(block, n) by { var r: nat :| n + 1 <= r < |block| && block[r] == Relay; }
    StepFill(site, b, k, s, t);
    forall x | WrittenSoFar(site, block[..n + 1], x) ensures Relaid(site, s'.src, t'.dst, x) {
      var j: nat :| Fill(j) in block[..n + 1] && WrittenBy(site, j, x);
      if Fill(j) in block[..n] {
        assert WrittenSoFar(site, block[..n], x);
      }
      FillKeeps(site, b, k, s, t, x);
    }
  }

  predicate SiteLengths(site: Site) { |site.usesOut| == |site.seesDst| == |site.ps| }

  lemma Lengths(site: Site)
    requires Checked(site)
    ensures SiteLengths(site)
  {
  }

  lemma {:induction false} RelayInStep(site: Site, b: Behaviour, block: seq<Item>, n: nat, s: State, t: State)
    requires Checked(site) && Overwriting(site) && n < |block| && block[n] == Relay && InStep(site, block, n, s, t)
    ensures InStep(site, block, n + 1, StepBefore(site, b, Relay, s), StepAfter(site, b, Relay, t))
  {
    hide WrittenBy, Transposed, AllValid, Tiled, Permutation, Relaid, Overwriting;
    assert block[..n + 1] == block[..n] + [Relay] && block[..n + 1][n] == Relay;
    assert RelayFrom(block, n);
    if RelayFrom(block, n + 1) {
      forall x | WrittenSoFar(site, block[..n + 1], x) ensures Relaid(site, s.src, t.dst, x) {
        assert WrittenSoFar(site, block[..n], x);
      }
    }
    if SettledBefore(site, block, n + 1) {
      AllProduced(site, block, n);
      RelaySame(site, b, block[..n], s, t);
    }
  }

  lemma {:induction false} AllProduced(site: Site, block: seq<Item>, n: nat)
    requires n < |block| && SettledBefore(site, block, n + 1)
    ensures forall k: nat | k < |site.ps| :: Fill(k) in block[..n]
  {
    var r: nat :| r < n + 1 && Settles(site, block, r);
    assert block[..r] == block[..n][..r];
  }

  /** Once everything is produced the transpose makes the destinations the same. */
  lemma {:induction false} RelaySame(site: Site, b: Behaviour, items: seq<Item>, s: State, t: State)
    requires Checked(site) && Overwriting(site) && Produced(site, items, s.src, t.dst)
    requires forall k: nat | k < |site.ps| :: Fill(k) in items
    ensures SameDst(site, StepBefore(site, b, Relay, s), t)
  {
    hide WrittenBy, Transposed, AllValid, Tiled;
    forall x: Point | InBuffer(site.shape, x)
      ensures Transposed(site.perm, s.src)(Permute(site.perm, x)) == t.dst(Permute(site.perm, x))
    {
      var k := WriterOf(site, x);
      assert WrittenSoFar(site, items, x);
      assert Relaid(site, s.src, t.dst, x);
      TransposedAt(site, s.src, x);
    }
  }

  lemma {:induction false} WriterOf(site: Site, x: Point) returns (k: nat)
    requires Checked(site) && Overwriting(site) && InBuffer(site.shape, x)
    ensures k < |site.ps| && WrittenBy(site, k, x)
  {
    hide Writes;
    var axis: nat :| Tiled(site.shape, site.ps, axis);
    WrittenByOne(site.shape, site.ps, axis, x);
    k :| k < |site.ps| && Writes(site.shape, site.ps[k], x);
  }

  /** An operation that is neither a producer nor the transpose changes none of the conditions. */
  lemma {:induction false} OtherPlaced(site: Site, block: seq<Item>, n: nat)
    requires n < |block| && block[n].Other?
    ensures RelayFrom(block, n + 1) == RelayFrom(block, n) && SettledBefore(site, block, n + 1) == SettledBefore(site, block, n)
    ensures Untouched(block[..n + 1]) == Untouched(block[..n])
  {
    assert block[..n + 1] == block[..n] + [block[n]];
    if RelayFrom(block, n) {
      var r: nat :| n <= r < |block| && block[r] == Relay;
      assert n + 1 <= r;
    }
    if Untouched(block[..n + 1]) {
      forall i | 0 <= i < n ensures block[..n][i].Other? {
        assert block[..n + 1][i].Other?;
      }
    }
  }

  lemma {:induction false} OtherInStep(site: Site, b: Behaviour, block: seq<Item>, n: nat, s: State, t: State)
    requires Checked(site) && n < |block| && block[n].Other? && InStep(site, block, n, s, t)
    requires SeenSettled(site, block) && LeftAlone(block)
    ensures InStep(site, block, n + 1, StepBefore(site, b, block[n], s), StepAfter(site, b, block[n], t))
  {
    hide Checked, WrittenBy, Relaid, StepBefore, StepAfter, SameDst, Untouched, SettledBefore;
    var item := block[n];
    var s', t' := StepBefore(site, b, item, s), StepAfter(site, b, item, t);
    OtherPlaced(site, block, n);
    OtherKeeps(site, b, item, s, t);
    if RelayFrom(block, n + 1) {
      forall x | WrittenSoFar(site, block[..n + 1], x) ensures Relaid(site, s'.src, t'.dst, x) {
        NotYetAltered(site, block, n, x);
      }
    }
  }

  /** What has been written so far has been written before it, and unless that is nothing it leaves the destination alone. */
  lemma {:induction false} NotYetAltered(site: Site, block: seq<Item>, n: nat, x: Point)
    requires Checked(site) && n < |block| && block[n].Other? && LeftAlone(block) && RelayFrom(block, n + 1)
    requires WrittenSoFar(site, block[..n + 1], x)
    ensures WrittenSoFar(site, block[..n], x) && !block[n].alters
  {
    hide Checked, WrittenBy;
    var k: nat :| Fill(k) in block[..n + 1] && WrittenBy(site, k, x);
    assert block[..n + 1] == block[..n] + [block[n]];
    var i :| 0 <= i < n && block[..n][i] == Fill(k);
    var r: nat :| n + 1 <= r < |block| && block[r] == Relay;
    assert block[i].Fill? && i < n < r;
  }

  lemma {:induction false} RunInStep(site: Site, b: Behaviour, block: seq<Item>, s: State, n: nat)
    requires Checked(site) && Proper(site, block) && Harmless(site, block) && Consistent(site, b) && n <= |block|
    ensures InStep(site, block, n, RunBefore(site, b, block[..n], s), RunAfter(site, b, block[..n], s))
  {
    if n > 0 {
      hide Checked, Consistent, Overwriting, InStep, StepBefore, StepAfter, SeenSettled, LeftAlone, OwnInputs, SettledBefore;
      var items, item := block[..n - 1], block[n - 1];
      assert block[..n] == items + [item] && block[..n][..n - 1] == items;
      RunInStep(site, b, block, s, n - 1);
      var s1, t1 := RunBefore(site, b, items, s), RunAfter(site, b, items, s);
      match item
      case Fill(k) => FillInStep(site, b, block, n - 1, s1, t1);
      case Relay => RelayInStep(site, b, block, n - 1, s1, t1);
      case Other(_, _, _) => OtherInStep(site, b, block, n - 1, s1, t1);
    } else {
      EmptyInStep(site, block, s);
    }
  }

  lemma EmptyInStep(site: Site, block: seq<Item>, s: State)
    requires Checked(site)
    ensures InStep(site, block, 0, s, s)
  {
    hide Checked;
    assert block[..0] == [];
  }

  lemma {:induction false} HarmlessKeeps(site: Site, block: seq<Item>)
    requires Checked(site) && Proper(site, block) && Harmless(site, block)
    ensures KeepsMeaning(site, block)
  {
    hide Checked, Consistent, RunBefore, RunAfter, SameDst, Overwriting, SeenSettled, LeftAlone, OwnInputs, SettledBefore;
    forall b: Behaviour, s: State | Consistent(site, b)
      ensures var before, after := RunBefore(site, b, block, s), RunAfter(site, b, block, s);
        SameDst(site, before, after) && before.world == after.world
    {
      RunInStep(site, b, block, s, |block|);
      assert block[..|block|] == block;
    }
  }
}
