/** The blocks a relayout's fold spoils, and the exact condition: behaviours and contents under which a block that does not
    meet the conditions of `RelayoutBlock` means something else after the fold. */
module RelayoutExact {
  import opened Odometer
  import opened Permutations
  import opened Relayout
  import opened RelayoutBlock
  import opened Wrappers

  /** A place of the source, the producer whose slice it is in, and where the destination holds it. */
  datatype Spot = Spot(x: Point, k: nat, at: nat)

  ghost predicate Alone(site: Site, spot: Spot)
    requires Checked(site)
  {
    && spot.k < |site.ps| && InBuffer(site.shape, spot.x) && spot.at < |Places(site)|
    && Places(site)[spot.at] == Permute(site.perm, spot.x)
    && InSlice(site.shape, site.ps[spot.k].slice, spot.x)
    && forall j: nat | j < |site.ps| && WrittenBy(site, j, spot.x) :: j == spot.k
  }

  /** No other producer writes a place of a slice. */
  lemma {:induction false} SpotIn(site: Site, k: nat, x: Point) returns (spot: Spot)
    requires Checked(site) && k < |site.ps| && InSlice(site.shape, site.ps[k].slice, x)
    ensures Alone(site, spot) && spot.k == k && spot.x == x
  {
    hide Writes, Permutation;
    var axis: nat :| Tiled(site.shape, site.ps, axis);
    var slices := SlicesOf(site.ps);
    assert AlongAxis(site.shape, slices[k], axis);
    SliceOnAxis(site.shape, slices[k], axis, x);
    forall j: nat | j < |site.ps| && WrittenBy(site, j, x) ensures j == k {
      WritesOnlyInside(site.shape, site.ps[j], x);
      assert Holds(site.shape, slices[j], axis, x[axis]) && Holds(site.shape, slices[k], axis, x[axis]);
    }
    var at := PlaceAt(site, x);
    spot := Spot(x, k, at);
  }

  /** Every slice has a place. */
  lemma {:induction false} SpotOf(site: Site, k: nat) returns (spot: Spot)
    requires Checked(site) && NoEmptyDimension(site.shape) && k < |site.ps|
    ensures Alone(site, spot) && spot.k == k
  {
    hide Writes, Permutation;
    var axis: nat :| Tiled(site.shape, site.ps, axis);
    var s := SlicesOf(site.ps)[k];
    assert AlongAxis(site.shape, s, axis);
    var x: Point := seq(|site.shape|, d requires 0 <= d < |site.shape| => Off(s, d));
    forall d | 0 <= d < |site.shape| ensures Off(s, d) <= x[d] < Off(s, d) + Size(site.shape, s, d) {
      assert d != axis ==> !Differs(site.shape, s, d);
    }
    spot := SpotIn(site, k, x);
  }

  /** The place of an iteration. */
  lemma {:induction false} SpotAt(site: Site, k: nat, i: nat) returns (spot: Spot)
    requires Checked(site) && k < |site.ps| && i < |Iterations(site.ps[k])|
    ensures Alone(site, spot) && spot.k == k && Runnable(site.ps[k], Iterations(site.ps[k]))
    ensures spot.x == Place(site.ps[k], Iterations(site.ps[k])[i]) && WrittenBy(site, k, spot.x)
  {
    var p := site.ps[k];
    IterationsRun(site.shape, p);
    PlacedAt(site.shape, p, Place(p, Iterations(p)[i]));
    WritesOnlyInside(site.shape, p, Place(p, Iterations(p)[i]));
    spot := SpotIn(site, k, Place(p, Iterations(p)[i]));
  }

  lemma {:induction false} PlaceAt(site: Site, x: Point) returns (at: nat)
    requires Checked(site) && InBuffer(site.shape, x)
    ensures at < |Places(site)| && Places(site)[at] == Permute(site.perm, x)
  {
    var y: seq<nat> := seq(|site.perm|, d requires 0 <= d < |site.perm| => x[site.perm[d]] as nat);
    assert y == Permute(site.perm, x);
    assert IsIndex(DstShape(site), y);
    UnderMembers(DstShape(site), Itself, [], y);
    assert [] <= y && y in Itself(y);
    assert y in Places(site);
    at :| 0 <= at < |Places(site)| && Places(site)[at] == y;
  }

  /** What a probing behaviour is after: whether bodies that use the element they find keep it; the clock of the operation
      that writes zero; the place the others note; and the producer that tells by what it sees there, of what. */
  datatype Tell = Tell(keeps: bool, clock: int, at: nat, seer: nat, of: int)

  function TellAt(seen: seq<int>, at: nat): int { if at < |seen| then seen[at] else 0 }

  /** Bodies that write one, but for those that keep what they find, and for the seer, which writes two when it sees what it
      is told of and three otherwise. Other operations note what they see, and the one that comes when `clock` of them
      have gone writes zero. */
  ghost function Probe(site: Site, tell: Tell): Behaviour {
    Behaviour(
      (k: nat, w: World) => (t: seq<nat>, v: int, seen: seq<int>) =>
        if tell.keeps && k < |site.usesOut| && site.usesOut[k] then v
        else if k == tell.seer then (if TellAt(seen, tell.at) == tell.of then 2 else 3) else 1,
      (id: nat, w: World, seen: seq<int>) => w + [TellAt(seen, tell.at)],
      (id: nat, w: World, seen: seq<int>) => (y: Point) => if |w| == tell.clock then Some(0) else None)
  }

  lemma ProbeConsistent(site: Site, tell: Tell)
    ensures Consistent(site, Probe(site, tell))
  {
  }

  /** The producer writes one at its place. */
  ghost predicate Hits(site: Site, keeps: bool, k: nat)
    requires k < |site.ps| == |site.usesOut|
  {
    Reduces(site.ps[k]) && !(keeps && site.usesOut[k])
  }

  lemma {:induction false} ProbeFill(site: Site, tell: Tell, spot: Spot, k: nat, w: World, seen: seq<int>, buffer: Buffer)
    requires Checked(site) && Alone(site, spot) && k < |site.ps| && !(k == spot.k == tell.seer)
    ensures Performed(site.shape, With(site, Probe(site, tell), k, w, seen), buffer)(spot.x)
         == if k == spot.k && Hits(site, tell.keeps, k) then 1 else buffer(spot.x)
  {
    hide Performed, Permutation, Tiled, InBuffer, Places;
    var b := Probe(site, tell);
    var p := With(site, b, k, w, seen);
    WritesWhatever(site, b, k, w, seen, spot.x);
    if k == spot.k && Hits(site, tell.keeps, k) {
      WritesAllInside(site.shape, site.ps[k], spot.x);
      FillConstant(site.shape, p, buffer, spot.x, 1);
    } else {
      if k != spot.k {
        assert !WrittenBy(site, k, spot.x);
      } else if !Reduces(site.ps[k]) {
        NothingReduced(site.shape, site.ps[k], spot.x);
      }
      FillElsewhere(site.shape, p, buffer, spot.x);
    }
  }

  /** A redirected producer leaves alone what is not a place of its own. */
  lemma {:induction false} LiveElsewhere(site: Site, b: Behaviour, k: nat, w: World, dst: Buffer, ts: seq<seq<nat>>, y: Point)
    requires Checked(site) && k < |site.ps| && Runnable(Moved(site, k), ts)
    requires forall i | 0 <= i < |ts| :: Place(Moved(site, k), ts[i]) != y
    ensures Live(site, b, k, w, Moved(site, k), dst, ts)(y) == dst(y)
  {
    if ts != [] {
      hide Checked, Contents, Places, Moved, Place;
      LiveElsewhere(site, b, k, w, dst, ts[..|ts| - 1], y);
    }
  }

  /** Its places are those of the producer, permuted. */
  lemma {:induction false} MovedPlace(site: Site, k: nat, x: Point, i: nat)
    requires Checked(site) && k < |site.ps| && i < |Iterations(Moved(site, k))| && |x| == |site.perm|
    ensures Runnable(site.ps[k], Iterations(site.ps[k]))
    ensures Place(Moved(site, k), Iterations(Moved(site, k))[i]) == Permute(site.perm, Place(site.ps[k], Iterations(site.ps[k])[i]))
    ensures Place(Moved(site, k), Iterations(Moved(site, k))[i]) == Permute(site.perm, x) <==> Place(site.ps[k], Iterations(site.ps[k])[i]) == x
  {
    var t := Iterations(site.ps[k])[i];
    IterationsRun(site.shape, site.ps[k]);
    IterationsMembers(site.ps[k], t);
    PlaceRewritten(site.shape, site.perm, site.ps[k], t);
    if Permute(site.perm, Place(site.ps[k], t)) == Permute(site.perm, x) {
      PermuteInjective(site.perm, Place(site.ps[k], t), x);
    }
  }

  lemma {:induction false} LiveNotWritten(site: Site, b: Behaviour, k: nat, w: World, dst: Buffer, x: Point, n: nat)
    requires Checked(site) && k < |site.ps| && |x| == |site.perm| && !WrittenBy(site, k, x) && n <= |Iterations(Moved(site, k))|
    ensures Live(site, b, k, w, Moved(site, k), dst, Iterations(Moved(site, k))[..n])(Permute(site.perm, x)) == dst(Permute(site.perm, x))
  {
    hide Tiled, Live, Writes, Iterations, Place;
    PlacedAt(site.shape, site.ps[k], x);
    forall i: nat | i < |Iterations(Moved(site, k))|
      ensures Place(Moved(site, k), Iterations(Moved(site, k))[i]) != Permute(site.perm, x)
    {
      MovedPlace(site, k, x, i);
    }
    LiveElsewhere(site, b, k, w, dst, Iterations(Moved(site, k))[..n], Permute(site.perm, x));
  }

  /** A producer that is not the seer, after the fold. */
  lemma {:induction false} ProbeLive(site: Site, tell: Tell, spot: Spot, k: nat, t: State)
    requires Checked(site) && Alone(site, spot) && k < |site.ps| && !(k == spot.k == tell.seer)
    ensures StepAfter(site, Probe(site, tell), Fill(k), t).dst(Permute(site.perm, spot.x))
         == if k == spot.k && Hits(site, tell.keeps, k) then 1 else t.dst(Permute(site.perm, spot.x))
  {
    hide Hits, Performed, Redirected, Live, Tiled, WrittenBy;
    var b := Probe(site, tell);
    if k == spot.k {
      assert Blind(site, b, k, t.world);
      StepIsPerformed(site, b, k, t, Permute(site.perm, spot.x));
      FillRedirected(site, With(site, b, k, t.world, Seen(site, k, t.dst)), t.dst, spot.x);
      ProbeFill(site, tell, spot, k, t.world, Seen(site, k, t.dst), Back(site.perm, t.dst));
    } else {
      var ts := Iterations(Moved(site, k));
      assert ts[..|ts|] == ts;
      LiveNotWritten(site, b, k, t.world, t.dst, spot.x, |ts|);
    }
  }

  /** What an operation notes. */
  ghost function Noting(site: Site, tell: Tell, dst: Buffer): int
    requires Checked(site)
  {
    if tell.at < |Places(site)| then dst(Places(site)[tell.at]) else 0
  }

  /** One step of either program at the spot. */
  lemma {:induction false} ProbeStep(site: Site, tell: Tell, spot: Spot, item: Item, s: State, t: State)
    requires Checked(site) && Alone(site, spot) && (item.Fill? ==> item.k < |site.ps|) && !(item == Fill(spot.k) && spot.k == tell.seer)
    ensures var b, y := Probe(site, tell), Permute(site.perm, spot.x);
      var s', t' := StepBefore(site, b, item, s), StepAfter(site, b, item, t);
      var hit := item == Fill(spot.k) && Hits(site, tell.keeps, spot.k);
      && s'.src(spot.x) == (if hit then 1 else s.src(spot.x))
      && s'.dst(y) == (if item.Relay? then s.src(spot.x) else if item.Other? && item.alters && |s.world| == tell.clock then 0 else s.dst(y))
      && t'.dst(y) == (if hit then 1 else if item.Other? && item.alters && |t.world| == tell.clock then 0 else t.dst(y))
      && s'.world == (if item.Other? then s.world + [if item.sees then Noting(site, tell, s.dst) else 0] else s.world)
      && t'.world == if item.Other? then t.world + [if item.sees then Noting(site, tell, t.dst) else 0] else t.world
  {
    hide Hits, Performed, Redirected, Live, Transposed, Tiled, WrittenBy;
    var b, y := Probe(site, tell), Permute(site.perm, spot.x);
    match item
    case Fill(k) =>
      ProbeFill(site, tell, spot, k, s.world, Seen(site, k, s.dst), s.src);
      ProbeLive(site, tell, spot, k, t);
    case Relay =>
      TransposedAt(site, s.src, spot.x);
    case Other(_, _, _) =>
  }

  /** How many other operations there are. */
  function Clock(items: seq<Item>): nat {
    if items == [] then 0 else Clock(items[..|items| - 1]) + if items[|items| - 1].Other? then 1 else 0
  }

  lemma {:induction false} ClockGrows(block: seq<Item>, i: nat, j: nat)
    requires i <= j <= |block|
    ensures Clock(block[..i]) <= Clock(block[..j])
    ensures i < j && block[i].Other? ==> Clock(block[..i]) < Clock(block[..j])
    decreases j - i
  {
    if i < j {
      assert block[..j][..j - 1] == block[..j - 1];
      ClockGrows(block, i, j - 1);
    }
  }

  lemma ClockStep(block: seq<Item>, n: nat)
    requires n <= |block|
    ensures Clock(block[..n]) == if n == 0 then 0 else Clock(block[..n - 1]) + if block[n - 1].Other? then 1 else 0
  {
    assert n > 0 ==> block[..n][..n - 1] == block[..n - 1];
  }

  /** Among the other operations the clock tells which one it is. */
  lemma {:induction false} ClockTells(block: seq<Item>, i: nat, j: nat)
    requires i < |block| && j < |block| && block[i].Other? && block[j].Other?
    ensures i != j ==> Clock(block[..i]) != Clock(block[..j])
  {
    hide Clock;
    if i < j {
      ClockGrows(block, i, j);
    } else {
      ClockGrows(block, j, i);
    }
  }

  /** What the two programs hold at the spot after `n` items. */
  ghost predicate At(site: Site, spot: Spot, s: State, t: State, src: int, dst: int, moved: int)
    requires Checked(site) && |spot.x| == |site.shape|
  {
    s.src(spot.x) == src && s.dst(Permute(site.perm, spot.x)) == dst && t.dst(Permute(site.perm, spot.x)) == moved
  }

  /** Both buffers full of one number. */
  function Full(src: int, dst: int): State { State((x: Point) => src, (x: Point) => dst, []) }

  lemma {:induction false} ProbeRun(site: Site, tell: Tell, block: seq<Item>, start: State, n: nat)
    requires Checked(site) && Known(site, block) && 0 < n <= |block|
    ensures var b := Probe(site, tell);
      && BeforeProbe(site, tell, block, start, n) == StepBefore(site, b, block[n - 1], BeforeProbe(site, tell, block, start, n - 1))
      && AfterProbe(site, tell, block, start, n) == StepAfter(site, b, block[n - 1], AfterProbe(site, tell, block, start, n - 1))
  {
    hide Checked, StepBefore, StepAfter;
    assert block[..n][..n - 1] == block[..n - 1] && block[..n][n - 1] == block[n - 1];
  }

  ghost function BeforeProbe(site: Site, tell: Tell, block: seq<Item>, start: State, n: nat): State
    requires Checked(site) && Known(site, block) && n <= |block|
  {
    RunBefore(site, Probe(site, tell), block[..n], start)
  }

  ghost function AfterProbe(site: Site, tell: Tell, block: seq<Item>, start: State, n: nat): State
    requires Checked(site) && Known(site, block) && n <= |block|
  {
    RunAfter(site, Probe(site, tell), block[..n], start)
  }

  /** One step of both programs at the spot. */
  lemma {:induction false} ProbeNext(site: Site, tell: Tell, spot: Spot, block: seq<Item>, start: State, n: nat)
    requires Checked(site) && Alone(site, spot) && Known(site, block) && n < |block| && !(block[n] == Fill(spot.k) && spot.k == tell.seer)
    ensures SpotRanked(site, spot)
    ensures var s, t := BeforeProbe(site, tell, block, start, n), AfterProbe(site, tell, block, start, n);
      var s', t' := BeforeProbe(site, tell, block, start, n + 1), AfterProbe(site, tell, block, start, n + 1);
      Next(site, tell, spot, block[n], s, t, s', t')
  {
    hide StepBefore, StepAfter, Hits, Tiled, WrittenBy;
    ProbeRun(site, tell, block, start, n + 1);
    ProbeStep(site, tell, spot, block[n], BeforeProbe(site, tell, block, start, n), AfterProbe(site, tell, block, start, n));
  }

  ghost predicate SpotRanked(site: Site, spot: Spot) {
    |spot.x| == |site.shape| == |site.perm| && spot.k < |site.ps| && SiteLengths(site)
  }

  ghost predicate Next(site: Site, tell: Tell, spot: Spot, item: Item, s: State, t: State, s': State, t': State)
    requires Checked(site) && SpotRanked(site, spot)
  {
    var y := Permute(site.perm, spot.x);
    var hit := item == Fill(spot.k) && Hits(site, tell.keeps, spot.k);
    && s'.src(spot.x) == (if hit then 1 else s.src(spot.x))
    && s'.dst(y) == (if item.Relay? then s.src(spot.x) else if item.Other? && item.alters && |s.world| == tell.clock then 0 else s.dst(y))
    && t'.dst(y) == (if hit then 1 else if item.Other? && item.alters && |t.world| == tell.clock then 0 else t.dst(y))
    && s'.world == (if item.Other? then s.world + [if item.sees then Noting(site, tell, s.dst) else 0] else s.world)
    && t'.world == if item.Other? then t.world + [if item.sees then Noting(site, tell, t.dst) else 0] else t.world
  }

  lemma FillOnce(site: Site, block: seq<Item>, fill: nat, n: nat)
    requires Proper(site, block) && fill < |block| && block[fill].Fill? && n < |block|
    ensures block[n] == block[fill] <==> n == fill
  {
  }

  ghost predicate Standing(site: Site, block: seq<Item>, spot: Spot)
    requires Checked(site)
  {
    Alone(site, spot) && Proper(site, block) && SpotRanked(site, spot)
  }

  lemma RelayNext(block: seq<Item>, n: nat)
    requires n < |block|
    ensures Relay in block[..n + 1] <==> Relay in block[..n] || block[n] == Relay
    ensures Relay !in block[..0]
  {
    assert block[..n + 1] == block[..n] + [block[n]];
  }

  /** What the two programs hold at the spot after `n` items of the block. */
  ghost predicate Holding(site: Site, tell: Tell, spot: Spot, block: seq<Item>, start: State, n: nat, src: int, dst: int, moved: int) {
    && Checked(site) && Known(site, block) && SpotRanked(site, spot) && n <= |block|
    && At(site, spot, BeforeProbe(site, tell, block, start, n), AfterProbe(site, tell, block, start, n), src, dst, moved)
  }

  lemma AtFirst(site: Site, tell: Tell, spot: Spot, block: seq<Item>, src: int)
    requires Checked(site) && Known(site, block) && SpotRanked(site, spot)
    ensures Holding(site, tell, spot, block, Full(src, 0), 0, src, 0, 0)
  {
    AtStart(site, tell, block, Full(src, 0));
  }

  /** What one item makes of what is held at the spot, when no operation writes there. */
  lemma {:induction false} AtNext(site: Site, tell: Tell, spot: Spot, block: seq<Item>, start: State, n: nat, src: int, dst: int, moved: int)
    requires Checked(site) && Alone(site, spot) && n < |block| && tell.clock == -1 && !(block[n] == Fill(spot.k) && spot.k == tell.seer)
    requires Holding(site, tell, spot, block, start, n, src, dst, moved)
    ensures spot.k < |site.ps| && SiteLengths(site)
    ensures var hit := block[n] == Fill(spot.k) && Hits(site, tell.keeps, spot.k);
      Holding(site, tell, spot, block, start, n + 1, if hit then 1 else src, if block[n].Relay? then src else dst, if hit then 1 else moved)
  {
    hide Checked, Alone, Hits, Noting, BeforeProbe, AfterProbe;
    ProbeNext(site, tell, spot, block, start, n);
  }

  /** Nobody tells. */
  function Plainly(site: Site, keeps: bool, clock: int, at: nat): Tell { Tell(keeps, clock, at, |site.ps|, 0) }

  /** A producer that leaves its place as it found it: the transpose brings what was in the source, the fold does not. */
  lemma {:induction false} UnwrittenRun(site: Site, spot: Spot, block: seq<Item>, n: nat)
    requires Checked(site) && Standing(site, block, spot) && !Hits(site, true, spot.k) && n <= |block|
    ensures Holding(site, Plainly(site, true, -1, spot.at), spot, block, Full(1, 0), n, 1, if Relay in block[..n] then 1 else 0, 0)
  {
    ProperKnown(site, block);
    hide Checked, Alone, Hits, Proper, Full, Holding;
    if n > 0 {
      UnwrittenRun(site, spot, block, n - 1);
      AtNext(site, Plainly(site, true, -1, spot.at), spot, block, Full(1, 0), n - 1, 1, if Relay in block[..n - 1] then 1 else 0, 0);
      RelayNext(block, n - 1);
    } else {
      AtFirst(site, Plainly(site, true, -1, spot.at), spot, block, 1);
      assert block[..0] == [];
    }
  }

  /** The producer of the spot writes one there, at `fill`. */
  ghost predicate Ones(site: Site, block: seq<Item>, spot: Spot, fill: nat)
    requires Checked(site)
  {
    Standing(site, block, spot) && Hits(site, false, spot.k) && fill < |block| && block[fill] == Fill(spot.k)
  }

  /** A producer with no transpose after it: what it writes reaches the destination only after the fold. */
  lemma {:induction false} LateRun(site: Site, spot: Spot, block: seq<Item>, fill: nat, n: nat)
    requires Checked(site) && SiteLengths(site) && Ones(site, block, spot, fill) && n <= |block|
    requires forall r | fill < r < |block| :: block[r] != Relay
    ensures Holding(site, Plainly(site, false, -1, spot.at), spot, block, Full(0, 0), n, if n > fill then 1 else 0, 0, if n > fill then 1 else 0)
  {
    ProperKnown(site, block);
    hide Checked, Alone, Hits, Proper, Full, Holding;
    if n > 0 {
      LateRun(site, spot, block, fill, n - 1);
      FillOnce(site, block, fill, n - 1);
      AtNext(site, Plainly(site, false, -1, spot.at), spot, block, Full(0, 0), n - 1, if n - 1 > fill then 1 else 0, 0, if n - 1 > fill then 1 else 0);
    } else {
      AtFirst(site, Plainly(site, false, -1, spot.at), spot, block, 0);
    }
  }

  /** What the other operations have noted by then. */
  ghost predicate Noted(block: seq<Item>, at: nat, n: nat, s: State, t: State)
    requires at <= |block| && n <= |block|
  {
    && |s.world| == |t.world| == Clock(block[..n])
    && (n > at ==> Clock(block[..at]) < Clock(block[..n]) && s.world[Clock(block[..at])] != t.world[Clock(block[..at])])
  }

  lemma NotedStep(block: seq<Item>, at: nat, n: nat, s: State, t: State, s': State, t': State)
    requires 0 < n <= |block| && at < |block| && Noted(block, at, n - 1, s, t)
    requires if block[n - 1].Other? then |s'.world| == |s.world| + 1 && |t'.world| == |t.world| + 1 && s.world <= s'.world && t.world <= t'.world
             else s'.world == s.world && t'.world == t.world
    requires n - 1 == at ==> block[at].Other? && s'.world[|s.world|] != t'.world[|t.world|]
    ensures Noted(block, at, n, s', t')
  {
    assert block[..n][..n - 1] == block[..n - 1] && block[..n][n - 1] == block[n - 1];
  }

  lemma NotedFirst(block: seq<Item>, at: nat, s: State)
    requires at <= |block| && s.world == []
    ensures Noted(block, at, 0, s, s)
  {
  }

  /** An operation that sees something else at the spot notes something else. */
  lemma {:induction false} NotedRun(site: Site, tell: Tell, spot: Spot, block: seq<Item>, start: State, at: nat, n: nat)
    requires Checked(site) && Standing(site, block, spot) && tell.at == spot.at && tell.seer == |site.ps| && start.world == []
    requires at < |block| && block[at].Other? && block[at].sees && n <= |block|
    requires BeforeProbe(site, tell, block, start, at).dst(Permute(site.perm, spot.x))
          != AfterProbe(site, tell, block, start, at).dst(Permute(site.perm, spot.x))
    ensures Noted(block, at, n, BeforeProbe(site, tell, block, start, n), AfterProbe(site, tell, block, start, n))
  {
    hide Hits, Noted, Tiled, WrittenBy, Proper, BeforeProbe, AfterProbe;
    if n > 0 {
      NotedRun(site, tell, spot, block, start, at, n - 1);
      ProperKnown(site, block);
      ProbeNext(site, tell, spot, block, start, n - 1);
      NotedStep(block, at, n, BeforeProbe(site, tell, block, start, n - 1), AfterProbe(site, tell, block, start, n - 1),
                BeforeProbe(site, tell, block, start, n), AfterProbe(site, tell, block, start, n));
    } else {
      ProperKnown(site, block);
      AtStart(site, tell, block, start);
      NotedFirst(block, at, start);
    }
  }

  lemma ProperKnown(site: Site, block: seq<Item>)
    requires Proper(site, block)
    ensures Known(site, block)
  {
  }

  lemma AtStart(site: Site, tell: Tell, block: seq<Item>, start: State)
    requires Checked(site) && Known(site, block)
    ensures BeforeProbe(site, tell, block, start, 0) == start && AfterProbe(site, tell, block, start, 0) == start
  {
    assert block[..0] == [];
  }

  /** Between a producer and the next transpose, if there is one, the destination shows what the producer has written only
      after the fold. */
  lemma {:induction false} FreshRun(site: Site, tell: Tell, spot: Spot, block: seq<Item>, fill: nat, at: nat, n: nat)
    requires Checked(site) && SiteLengths(site) && Ones(site, block, spot, fill) && n <= at <= |block|
    requires !tell.keeps && tell.clock == -1 && tell.seer != spot.k && forall r | fill < r < at :: block[r] != Relay
    ensures Holding(site, tell, spot, block, Full(0, 0), n, if n > fill then 1 else 0, 0, if n > fill then 1 else 0)
  {
    ProperKnown(site, block);
    hide Checked, Alone, Hits, Proper, Full, Holding;
    if n > 0 {
      FreshRun(site, tell, spot, block, fill, at, n - 1);
      FillOnce(site, block, fill, n - 1);
      AtNext(site, tell, spot, block, Full(0, 0), n - 1, if n - 1 > fill then 1 else 0, 0, if n - 1 > fill then 1 else 0);
    } else {
      AtFirst(site, tell, spot, block, 0);
    }
  }

  /** Before the producer has run the destination shows what the source held at first, once there has been a transpose. */
  lemma {:induction false} StaleRun(site: Site, tell: Tell, spot: Spot, block: seq<Item>, src: int, at: nat, n: nat)
    requires Checked(site) && SiteLengths(site) && Standing(site, block, spot) && n <= at <= |block|
    requires tell.clock == -1 && Fill(spot.k) !in block[..at]
    ensures Holding(site, tell, spot, block, Full(src, 0), n, src, if Relay in block[..n] then src else 0, 0)
  {
    ProperKnown(site, block);
    hide Checked, Alone, Hits, Proper, Full, Holding;
    if n > 0 {
      StaleRun(site, tell, spot, block, src, at, n - 1);
      assert block[..at][n - 1] == block[n - 1];
      AtNext(site, tell, spot, block, Full(src, 0), n - 1, src, if Relay in block[..n - 1] then src else 0, 0);
      RelayNext(block, n - 1);
    } else {
      AtFirst(site, tell, spot, block, src);
      assert block[..0] == [];
    }
  }

  /** What the two programs hold at the spot when the operation at `at` has written zero there. */
  ghost predicate Zeroed(site: Site, spot: Spot, block: seq<Item>, fill: nat, at: nat, relay: nat, n: nat) {
    && Checked(site) && Known(site, block) && SpotRanked(site, spot) && n <= |block| && at <= |block|
    && var tell := Plainly(site, false, Clock(block[..at]), spot.at);
      var s, t := BeforeProbe(site, tell, block, Full(0, 0), n), AfterProbe(site, tell, block, Full(0, 0), n);
      && s.src(spot.x) == (if n > fill then 1 else 0)
      && (n > relay ==> s.dst(Permute(site.perm, spot.x)) == 1) && (n > at ==> t.dst(Permute(site.perm, spot.x)) == 0)
      && |s.world| == |t.world| == Clock(block[..n])
  }

  lemma {:induction false} ZeroedNext(site: Site, spot: Spot, block: seq<Item>, fill: nat, at: nat, relay: nat, n: nat)
    requires Zeroed(site, spot, block, fill, at, relay, n) && Alone(site, spot) && n < |block| && Hits(site, false, spot.k)
    requires fill < at < relay < |block| && block[at].Other? && block[at].alters && block[relay] == Relay
    requires block[n] == Fill(spot.k) <==> n == fill
    ensures Zeroed(site, spot, block, fill, at, relay, n + 1)
  {
    hide Checked, Alone, Hits, Clock, BeforeProbe, AfterProbe, Noting, Full;
    ClockStep(block, n + 1);
    ProbeNext(site, Plainly(site, false, Clock(block[..at]), spot.at), spot, block, Full(0, 0), n);
    if block[n].Other? {
      ClockTells(block, at, n);
    }
  }

  lemma ZeroedFirst(site: Site, spot: Spot, block: seq<Item>, fill: nat, at: nat, relay: nat)
    requires Checked(site) && Known(site, block) && SpotRanked(site, spot) && at <= |block|
    ensures Zeroed(site, spot, block, fill, at, relay, 0)
  {
    AtStart(site, Plainly(site, false, Clock(block[..at]), spot.at), block, Full(0, 0));
    assert block[..0] == [];
  }

  /** An operation that writes the destination between a producer and a transpose: the transpose writes over it, and the
      fold leaves it. */
  lemma {:induction false} WriteRun(site: Site, spot: Spot, block: seq<Item>, fill: nat, at: nat, relay: nat, n: nat)
    requires Checked(site) && SiteLengths(site) && Ones(site, block, spot, fill)
    requires fill < at < relay < |block| && block[at].Other? && block[at].alters && block[relay] == Relay && n <= |block|
    ensures Zeroed(site, spot, block, fill, at, relay, n)
  {
    ProperKnown(site, block);
    hide Checked, Alone, Hits, Proper, Zeroed;
    if n > 0 {
      WriteRun(site, spot, block, fill, at, relay, n - 1);
      FillOnce(site, block, fill, n - 1);
      ZeroedNext(site, spot, block, fill, at, relay, n - 1);
    } else {
      ZeroedFirst(site, spot, block, fill, at, relay);
    }
  }

  lemma DiffersAtSpot(site: Site, tell: Tell, spot: Spot, block: seq<Item>, start: State)
    requires Checked(site) && Standing(site, block, spot)
    requires var s, t := BeforeProbe(site, tell, block, start, |block|), AfterProbe(site, tell, block, start, |block|);
      s.world != t.world || s.dst(Permute(site.perm, spot.x)) != t.dst(Permute(site.perm, spot.x))
    ensures !KeepsMeaning(site, block)
  {
    hide Checked, RunBefore, RunAfter;
    ProbeConsistent(site, tell);
    assert block[..|block|] == block;
  }

  lemma SpotStands(site: Site, block: seq<Item>, spot: Spot)
    requires Checked(site) && Alone(site, spot) && Proper(site, block)
    ensures Standing(site, block, spot) && SiteLengths(site)
  {
    hide Proper, Tiled;
  }

  lemma {:induction false} UsedBreaks(site: Site, block: seq<Item>)
    requires Checked(site) && Proper(site, block) && NoEmptyDimension(site.shape) && !Overwriting(site) && Relay in block
    ensures !KeepsMeaning(site, block)
  {
    hide Tiled, Permutation, Proper;
    var k :| 0 <= k < |site.ps| && !(Reduces(site.ps[k]) && !site.usesOut[k]);
    var spot := SpotOf(site, k);
    SpotStands(site, block, spot);
    UnwrittenRun(site, spot, block, |block|);
    assert block[..|block|] == block;
    DiffersAtSpot(site, Plainly(site, true, -1, spot.at), spot, block, Full(1, 0));
  }

  lemma {:induction false} LateBreaks(site: Site, block: seq<Item>, fill: nat)
    requires Checked(site) && Proper(site, block) && NoEmptyDimension(site.shape)
    requires fill < |block| && block[fill].Fill? && block[fill].k < |site.ps| && Reduces(site.ps[block[fill].k])
    requires forall r | fill < r < |block| :: block[r] != Relay
    ensures !KeepsMeaning(site, block)
  {
    hide Tiled, Permutation, Proper;
    var spot := SpotOf(site, block[fill].k);
    SpotStands(site, block, spot);
    LateRun(site, spot, block, fill, |block|);
    DiffersAtSpot(site, Plainly(site, false, -1, spot.at), spot, block, Full(0, 0));
  }

  lemma {:induction false} AlteredBreaks(site: Site, block: seq<Item>)
    requires Checked(site) && Proper(site, block) && NoEmptyDimension(site.shape) && Overwriting(site) && !LeftAlone(block)
    ensures !KeepsMeaning(site, block)
  {
    hide Tiled, Permutation;
    var fill, at, relay :| 0 <= fill < at < relay < |block| && block[fill].Fill? && block[relay] == Relay && block[at].Other? && block[at].alters;
    var spot := SpotOf(site, block[fill].k);
    SpotStands(site, block, spot);
    WriteRun(site, spot, block, fill, at, relay, |block|);
    DiffersAtSpot(site, Plainly(site, false, Clock(block[..at]), spot.at), spot, block, Full(0, 0));
  }

  /** The last transpose of the first `n` items. */
  lemma {:induction false} LastRelay(block: seq<Item>, n: nat) returns (r: nat)
    requires n <= |block| && Relay in block[..n]
    ensures r < n && block[r] == Relay && forall q | r < q < n :: block[q] != Relay
  {
    if block[n - 1] == Relay {
      r := n - 1;
    } else {
      assert block[..n] == block[..n - 1] + [block[n - 1]];
      r := LastRelay(block, n - 1);
    }
  }

  /** What stands before an item at which the destination is neither untouched nor settled: a producer with no transpose
      since, or a transpose and a producer still to come. */
  lemma {:induction false} Unsettled(site: Site, block: seq<Item>, at: nat) returns (since: bool, fill: nat, k: nat)
    requires Proper(site, block) && at <= |block| && !Untouched(block[..at]) && !SettledBefore(site, block, at)
    ensures since ==> fill < at && block[fill].Fill? && forall r | fill < r < at :: block[r] != Relay
    ensures !since ==> Relay in block[..at] && k < |site.ps| && Fill(k) !in block[..at]
  {
    if Relay in block[..at] {
      var r := LastRelay(block, at);
      assert !Settles(site, block, r);
      k :| k < |site.ps| && Fill(k) !in block[..r];
      if Fill(k) in block[..at] {
        assert forall i | 0 <= i < r :: block[..r][i] == block[..at][i];
        fill :| 0 <= fill < at && block[..at][fill] == Fill(k);
        since := true;
      } else {
        since, fill := false, 0;
      }
    } else {
      fill :| 0 <= fill < at && !block[..at][fill].Other?;
      assert block[..at][fill] == block[fill];
      forall r | fill < r < at ensures block[r] != Relay {
        assert block[..at][r] == block[r];
      }
      since, k := true, 0;
    }
  }

  lemma {:induction false} SeenBreaks(site: Site, block: seq<Item>)
    requires Checked(site) && Proper(site, block) && NoEmptyDimension(site.shape) && Overwriting(site) && !SeenSettled(site, block)
    ensures !KeepsMeaning(site, block)
  {
    hide Tiled, Permutation, Untouched, SettledBefore, BeforeProbe, AfterProbe;
    var at :| 0 <= at < |block| && block[at].Other? && block[at].sees && !Untouched(block[..at]) && !SettledBefore(site, block, at);
    var since, fill, k := Unsettled(site, block, at);
    var spot := SpotOf(site, if since then block[fill].k else k);
    SpotStands(site, block, spot);
    var tell := Plainly(site, false, -1, spot.at);
    var start := if since then Full(0, 0) else Full(1, 0);
    if since {
      FreshRun(site, tell, spot, block, fill, at, at);
    } else {
      StaleRun(site, tell, spot, block, 1, at, at);
    }
    NotedRun(site, tell, spot, block, start, at, |block|);
    DiffersAtSpot(site, tell, spot, block, start);
  }

  // A producer that reads the destination.

  /** The seer's iterations, before the fold: they all see the same. */
  lemma {:induction false} SeerBefore(site: Site, tell: Tell, k: nat, s: State, x: Point)
    requires Checked(site) && Overwriting(site) && k < |site.ps| && site.seesDst[k] && tell.seer == k && tell.at < |Places(site)|
    requires !tell.keeps && WrittenBy(site, k, x)
    ensures StepBefore(site, Probe(site, tell), Fill(k), s).src(x) == if s.dst(Places(site)[tell.at]) == tell.of then 2 else 3
  {
    hide Performed, Permutation, Tiled, Places, Writes;
    var seen := Seen(site, k, s.dst);
    var p := With(site, Probe(site, tell), k, s.world, seen);
    var c := if s.dst(Places(site)[tell.at]) == tell.of then 2 else 3;
    assert TellAt(seen, tell.at) == s.dst(Places(site)[tell.at]);
    WritesWhatever(site, Probe(site, tell), k, s.world, seen, x);
    FillConstant(site.shape, p, s.src, x, c);
  }

  /** After the fold the last iteration has the last word, and sees what those before it have left. */
  lemma {:induction false} SeerAfter(site: Site, tell: Tell, k: nat, t: State, x: Point)
    requires Checked(site) && k < |site.ps| && site.seesDst[k] && tell.seer == k && tell.at < |Places(site)| && !tell.keeps
    requires |Iterations(site.ps[k])| > 0 && Runnable(site.ps[k], Iterations(site.ps[k])) && |x| == |site.perm|
    requires x == Place(site.ps[k], Iterations(site.ps[k])[|Iterations(site.ps[k])| - 1])
    ensures var ts := Iterations(Moved(site, k));
      var before := Live(site, Probe(site, tell), k, t.world, Moved(site, k), t.dst, ts[..|ts| - 1]);
      StepAfter(site, Probe(site, tell), Fill(k), t).dst(Permute(site.perm, x))
      == if before(Places(site)[tell.at]) == tell.of then 2 else 3
  {
    hide Tiled, Places, Iterations;
    var ts := Iterations(Moved(site, k));
    MovedPlace(site, k, x, |ts| - 1);
    var before := Live(site, Probe(site, tell), k, t.world, Moved(site, k), t.dst, ts[..|ts| - 1]);
    assert TellAt(Seen(site, k, before), tell.at) == before(Places(site)[tell.at]);
  }

  /** Wherever the seer writes, it leaves two or three. */
  lemma {:induction false} SeerValues(site: Site, tell: Tell, k: nat, w: World, dst: Buffer, ts: seq<seq<nat>>, y: Point)
    requires Checked(site) && k < |site.ps| && tell.seer == k && !tell.keeps && Runnable(Moved(site, k), ts)
    ensures var v := Live(site, Probe(site, tell), k, w, Moved(site, k), dst, ts)(y); v == dst(y) || v == 2 || v == 3
    ensures ts != [] && Place(Moved(site, k), ts[|ts| - 1]) == y ==> Live(site, Probe(site, tell), k, w, Moved(site, k), dst, ts)(y) >= 2
  {
    if ts != [] {
      hide Checked, Contents, Places, Moved, Place;
      SeerValues(site, tell, k, w, dst, ts[..|ts| - 1], y);
    }
  }

  /** What the seer left at the spot stays there, until the transpose brings it to the destination. */
  ghost predicate Told(site: Site, tell: Tell, spot: Spot, block: seq<Item>, start: State, i: nat, n: nat, before: int, after: int) {
    && Checked(site) && Known(site, block) && SpotRanked(site, spot) && i < n <= |block|
    && var s, t := BeforeProbe(site, tell, block, start, n), AfterProbe(site, tell, block, start, n);
      && s.src(spot.x) == before && t.dst(Permute(site.perm, spot.x)) == after
      && ((exists r :: i < r < n && block[r] == Relay) ==> s.dst(Permute(site.perm, spot.x)) == before)
  }

  lemma {:induction false} ToldNext(site: Site, tell: Tell, spot: Spot, block: seq<Item>, start: State, i: nat, n: nat, before: int, after: int)
    requires Told(site, tell, spot, block, start, i, n, before, after) && Alone(site, spot) && n < |block| && tell.clock == -1
    requires block[n] != Fill(spot.k)
    ensures Told(site, tell, spot, block, start, i, n + 1, before, after)
  {
    hide Checked, Alone, Hits, BeforeProbe, AfterProbe, Noting;
    ProbeNext(site, tell, spot, block, start, n);
  }

  lemma {:induction false} ToldRun(site: Site, tell: Tell, spot: Spot, block: seq<Item>, start: State, i: nat, n: nat, before: int, after: int)
    requires Checked(site) && Standing(site, block, spot) && i < |block| && block[i] == Fill(spot.k) && i < n <= |block| && tell.clock == -1
    requires Told(site, tell, spot, block, start, i, i + 1, before, after)
    ensures Told(site, tell, spot, block, start, i, n, before, after)
  {
    hide Checked, Alone, Proper, Told;
    if n > i + 1 {
      ToldRun(site, tell, spot, block, start, i, n - 1, before, after);
      FillOnce(site, block, i, n - 1);
      ToldNext(site, tell, spot, block, start, i, n - 1, before, after);
    }
  }

  /** The spot is where the producer's last iteration writes. */
  ghost predicate LastOf(site: Site, spot: Spot) {
    && Checked(site) && SpotRanked(site, spot) && WrittenBy(site, spot.k, spot.x)
    && |Iterations(site.ps[spot.k])| > 0 && Runnable(site.ps[spot.k], Iterations(site.ps[spot.k]))
    && spot.x == Place(site.ps[spot.k], Iterations(site.ps[spot.k])[|Iterations(site.ps[spot.k])| - 1])
  }

  /** What the last iteration of the producer at `i` sees after the fold. */
  ghost function LastSight(site: Site, tell: Tell, k: nat, t: State): Buffer
    requires Checked(site) && k < |site.ps| && |Iterations(site.ps[k])| > 0
  {
    var ts := Iterations(Moved(site, k));
    Live(site, Probe(site, tell), k, t.world, Moved(site, k), t.dst, ts[..|ts| - 1])
  }

  /** Its last iteration sees what it is told of before the fold and not after it, or the other way round. */
  ghost predicate Tells(site: Site, tell: Tell, spot: Spot, block: seq<Item>, start: State, i: nat) {
    && LastOf(site, spot) && Overwriting(site) && site.seesDst[spot.k]
    && Known(site, block) && i < |block| && block[i] == Fill(spot.k)
    && tell.seer == spot.k && tell.at < |Places(site)| && !tell.keeps && tell.clock == -1
    && (BeforeProbe(site, tell, block, start, i).dst(Places(site)[tell.at]) == tell.of)
       != (LastSight(site, tell, spot.k, AfterProbe(site, tell, block, start, i))(Places(site)[tell.at]) == tell.of)
  }

  lemma {:induction false} TellsTold(site: Site, tell: Tell, spot: Spot, block: seq<Item>, start: State, i: nat) returns (a: int)
    requires Tells(site, tell, spot, block, start, i)
    ensures (a == 2 || a == 3) && Told(site, tell, spot, block, start, i, i + 1, a, 5 - a)
  {
    hide Overwriting, StepBefore, StepAfter, Live, Probe, BeforeProbe, AfterProbe, Iterations, Places, Tiled, Permutation, WrittenBy;
    var s, t := BeforeProbe(site, tell, block, start, i), AfterProbe(site, tell, block, start, i);
    a := if s.dst(Places(site)[tell.at]) == tell.of then 2 else 3;
    SeerBefore(site, tell, spot.k, s, spot.x);
    SeerAfter(site, tell, spot.k, t, spot.x);
    ProbeRun(site, tell, block, start, i + 1);
  }

  /** Then the seer shows it. */
  lemma {:induction false} ToldBreaks(site: Site, tell: Tell, spot: Spot, block: seq<Item>, start: State, i: nat)
    requires Checked(site) && Standing(site, block, spot) && Tells(site, tell, spot, block, start, i)
    requires SettledBefore(site, block, |block|)
    ensures !KeepsMeaning(site, block)
  {
    var a := TellsTold(site, tell, spot, block, start, i);
    assert i < |block| && block[i] == Fill(spot.k) && tell.clock == -1;
    hide Checked, Alone, Proper, BeforeProbe, AfterProbe, Tells;
    ToldRun(site, tell, spot, block, start, i, |block|, a, 5 - a);
    SettledAfter(site, block, i);
    DiffersAtSpot(site, tell, spot, block, start);
  }

  lemma {:induction false} SettledAfter(site: Site, block: seq<Item>, i: nat)
    requires Proper(site, block) && SettledBefore(site, block, |block|) && i < |block| && block[i].Fill?
    ensures exists r :: i < r < |block| && block[r] == Relay
  {
    var r: nat :| r < |block| && Settles(site, block, r);
    assert Fill(block[i].k) in block[..r];
    var q :| 0 <= q < r && block[..r][q] == Fill(block[i].k);
    assert q == i;
  }

  /** The producer's last iteration, and the place it writes. */
  lemma {:induction false} LastSpot(site: Site, block: seq<Item>, k: nat) returns (spot: Spot)
    requires Checked(site) && Proper(site, block) && NoEmptyDimension(site.shape) && Overwriting(site) && k < |site.ps|
    ensures Standing(site, block, spot) && SiteLengths(site) && spot.k == k && LastOf(site, spot)
  {
    hide Tiled, Permutation, Proper;
    var any := SpotOf(site, k);
    WritesAllInside(site.shape, site.ps[k], any.x);
    PlacedAt(site.shape, site.ps[k], any.x);
    spot := SpotAt(site, k, |Iterations(site.ps[k])| - 1);
    SpotStands(site, block, spot);
  }

  /** Another producer has written since the last transpose: the seer sees that only after the fold. */
  lemma {:induction false} FreshSeerBreaks(site: Site, block: seq<Item>, i: nat, fill: nat)
    requires Checked(site) && Proper(site, block) && NoEmptyDimension(site.shape) && Overwriting(site) && SettledBefore(site, block, |block|)
    requires i < |block| && block[i].Fill? && block[i].k < |site.ps| && SiteLengths(site) && site.seesDst[block[i].k]
    requires fill < i && block[fill].Fill? && forall r | fill < r < i :: block[r] != Relay
    ensures !KeepsMeaning(site, block)
  {
    hide Tiled, Permutation, SettledBefore, BeforeProbe, AfterProbe, Iterations, Live, Probe, Proper, NoEmptyDimension;
    var k := block[i].k;
    ProperKnown(site, block);
    FillOnce(site, block, i, fill);
    var spot := LastSpot(site, block, k);
    var watched := SpotOf(site, block[fill].k);
    SpotStands(site, block, watched);
    var tell, start := Tell(false, -1, watched.at, k, 1), Full(0, 0);
    FreshRun(site, tell, watched, block, fill, i, i);
    var t := AfterProbe(site, tell, block, start, i);
    LiveNotWritten(site, Probe(site, tell), k, t.world, t.dst, watched.x, |Iterations(Moved(site, k))| - 1);
    assert Tells(site, tell, spot, block, start, i);
    hide Tells, Checked, Standing;
    ToldBreaks(site, tell, spot, block, start, i);
  }

  /** There has been a transpose already: the seer sees what the source held then only before the fold. */
  lemma {:induction false} StaleSeerBreaks(site: Site, block: seq<Item>, i: nat)
    requires Checked(site) && Proper(site, block) && NoEmptyDimension(site.shape) && Overwriting(site) && SettledBefore(site, block, |block|)
    requires i < |block| && block[i].Fill? && block[i].k < |site.ps| && SiteLengths(site) && site.seesDst[block[i].k]
    requires Relay in block[..i]
    ensures !KeepsMeaning(site, block)
  {
    hide Tiled, SettledBefore, BeforeProbe, AfterProbe, Iterations, Live, Probe, Proper, NoEmptyDimension;
    var k := block[i].k;
    ProperKnown(site, block);
    NotYetFilled(site, block, i);
    var spot := LastSpot(site, block, k);
    var watched := SpotOf(site, k);
    SpotStands(site, block, watched);
    var tell, start := Tell(false, -1, watched.at, k, 1), Full(1, 0);
    StaleRun(site, tell, watched, block, 1, i, i);
    var t := AfterProbe(site, tell, block, start, i);
    var ts := Iterations(Moved(site, k));
    SeerValues(site, tell, k, t.world, t.dst, ts[..|ts| - 1], Permute(site.perm, watched.x));
    assert Tells(site, tell, spot, block, start, i);
    hide Tells, Checked, Standing;
    ToldBreaks(site, tell, spot, block, start, i);
  }

  lemma {:induction false} LaterSeerBreaks(site: Site, block: seq<Item>, i: nat)
    requires Checked(site) && Proper(site, block) && NoEmptyDimension(site.shape) && Overwriting(site) && SettledBefore(site, block, |block|)
    requires i < |block| && block[i].Fill? && block[i].k < |site.ps| && SiteLengths(site) && site.seesDst[block[i].k] && !Untouched(block[..i])
    ensures !KeepsMeaning(site, block)
  {
    FillPlaced(site, block, i);
    NotSettled(site, block, i);
    var since, fill, other := Unsettled(site, block, i);
    hide Checked, Proper, Overwriting, SettledBefore, NoEmptyDimension, Untouched;
    if since {
      FreshSeerBreaks(site, block, i, fill);
    } else {
      StaleSeerBreaks(site, block, i);
    }
  }

  lemma NotSettled(site: Site, block: seq<Item>, i: nat)
    requires i < |block| && !SettledBefore(site, block, i + 1)
    ensures !SettledBefore(site, block, i)
  {
  }

  lemma NotYetFilled(site: Site, block: seq<Item>, i: nat)
    requires Proper(site, block) && i < |block| && block[i].Fill?
    ensures block[i] !in block[..i]
  {
  }

  /** The last iteration but one, and what the last sees at its place. */
  lemma {:induction false} EarlierSpot(site: Site, block: seq<Item>, k: nat) returns (watched: Spot, tell: Tell)
    requires Checked(site) && Proper(site, block) && k < |site.ps| && |Iterations(site.ps[k])| > 1
    ensures Standing(site, block, watched) && SiteLengths(site) && watched.k == k && tell == Tell(false, -1, watched.at, k, 0)
    ensures forall t: State :: LastSight(site, tell, k, t)(Permute(site.perm, watched.x)) >= 2
  {
    var m := |Iterations(site.ps[k])|;
    watched := SpotAt(site, k, m - 2);
    SpotStands(site, block, watched);
    tell := Tell(false, -1, watched.at, k, 0);
    hide Tiled, Permutation, Iterations, Live, Probe, Proper;
    var ts := Iterations(Moved(site, k));
    MovedPlace(site, k, watched.x, m - 2);
    assert ts[..|ts| - 1][m - 2] == ts[m - 2];
    forall t: State ensures LastSight(site, tell, k, t)(Permute(site.perm, watched.x)) >= 2 {
      SeerValues(site, tell, k, t.world, t.dst, ts[..|ts| - 1], Permute(site.perm, watched.x));
    }
  }

  /** It comes first, but has more than one iteration: the last sees what the one before it has written. */
  lemma {:induction false} FirstSeerBreaks(site: Site, block: seq<Item>, i: nat)
    requires Checked(site) && Proper(site, block) && NoEmptyDimension(site.shape) && Overwriting(site) && SettledBefore(site, block, |block|)
    requires i < |block| && block[i].Fill? && block[i].k < |site.ps| && SiteLengths(site) && site.seesDst[block[i].k]
    requires Untouched(block[..i]) && |Iterations(site.ps[block[i].k])| != 1
    ensures !KeepsMeaning(site, block)
  {
    hide Tiled, Permutation, SettledBefore, BeforeProbe, AfterProbe, Iterations, Probe, Proper, LastSight, NoEmptyDimension;
    var k := block[i].k;
    ProperKnown(site, block);
    var spot := LastSpot(site, block, k);
    var start := Full(0, 0);
    var watched, tell := EarlierSpot(site, block, k);
    assert Relay !in block[..i] by { assert forall j | 0 <= j < i :: block[..i][j].Other?; }
    NotYetFilled(site, block, i);
    StaleRun(site, tell, watched, block, 0, i, i);
    assert Tells(site, tell, spot, block, start, i);
    hide Tells, Checked, Standing, Overwriting;
    ToldBreaks(site, tell, spot, block, start, i);
  }

  lemma {:induction false} SeerBreaks(site: Site, block: seq<Item>)
    requires Checked(site) && Proper(site, block) && NoEmptyDimension(site.shape) && Overwriting(site) && SettledBefore(site, block, |block|)
    requires !OwnInputs(site, block)
    ensures !KeepsMeaning(site, block)
  {
    hide Checked, Overwriting, Untouched, SettledBefore, Iterations;
    Lengths(site);
    var i :| 0 <= i < |block| && block[i].Fill? && block[i].k < |site.ps| && site.seesDst[block[i].k]
      && !(Untouched(block[..i]) && |Iterations(site.ps[block[i].k])| == 1);
    if Untouched(block[..i]) {
      FirstSeerBreaks(site, block, i);
    } else {
      LaterSeerBreaks(site, block, i);
    }
  }

  // The whole.

  /** Without a transpose, and with producers that write nothing, nothing happens in either program. */
  lemma {:induction false} IdleRun(site: Site, b: Behaviour, block: seq<Item>, s: State, n: nat)
    requires Checked(site) && Proper(site, block) && Idle(site, block) && n <= |block|
    ensures var before, after := RunBefore(site, b, block[..n], s), RunAfter(site, b, block[..n], s);
      before.world == after.world && SameDst(site, before, after)
  {
    hide Tiled, StepBefore, StepAfter, SameDst;
    if n > 0 {
      assert block[..n][..n - 1] == block[..n - 1] && block[..n][n - 1] == block[n - 1];
      IdleRun(site, b, block, s, n - 1);
      IdleStep(site, b, block[n - 1], RunBefore(site, b, block[..n - 1], s), RunAfter(site, b, block[..n - 1], s));
    } else {
      assert SameDst(site, s, s) by { SameItself(site, s); }
    }
  }

  lemma SameItself(site: Site, s: State)
    requires Checked(site)
    ensures SameDst(site, s, s)
  {
    hide Checked;
  }

  lemma {:induction false} IdleStep(site: Site, b: Behaviour, item: Item, s: State, t: State)
    requires Checked(site) && !item.Relay? && (item.Fill? ==> item.k < |site.ps| && !Reduces(site.ps[item.k]))
    requires s.world == t.world && SameDst(site, s, t)
    ensures StepBefore(site, b, item, s).world == StepAfter(site, b, item, t).world
    ensures SameDst(site, StepBefore(site, b, item, s), StepAfter(site, b, item, t))
  {
    if item.Fill? {
      hide Live, Tiled, Performed, Writes, Reduces, Permutation, Iterations;
      var ts := Iterations(Moved(site, item.k));
      assert ts[..|ts|] == ts;
      forall x: Point | InBuffer(site.shape, x)
        ensures StepAfter(site, b, item, t).dst(Permute(site.perm, x)) == t.dst(Permute(site.perm, x))
      {
        NothingReduced(site.shape, site.ps[item.k], x);
        LiveNotWritten(site, b, item.k, t.world, t.dst, x, |ts|);
      }
    } else {
      hide Checked, StepBefore, StepAfter;
      OtherKeeps(site, b, item, s, t);
    }
  }

  lemma {:induction false} IdleKeeps(site: Site, block: seq<Item>)
    requires Checked(site) && Proper(site, block) && Idle(site, block)
    ensures KeepsMeaning(site, block)
  {
    hide Checked, Consistent, RunBefore, RunAfter, SameDst, Proper, Idle;
    ProperKnown(site, block);
    forall b: Behaviour, s: State | Consistent(site, b)
      ensures var before, after := RunBefore(site, b, block, s), RunAfter(site, b, block, s);
        SameDst(site, before, after) && before.world == after.world
    {
      IdleRun(site, b, block, s, |block|);
      assert block[..|block|] == block;
    }
  }

  /** No transpose comes after every producer: some producer has none after it. */
  lemma {:induction false} UnsettledBreaks(site: Site, block: seq<Item>)
    requires Checked(site) && Proper(site, block) && NoEmptyDimension(site.shape) && !SettledBefore(site, block, |block|)
    requires if Relay in block then Overwriting(site) else !Idle(site, block)
    ensures !KeepsMeaning(site, block)
  {
    hide Checked;
    if Relay in block {
      assert block[..|block|] == block;
      var r := LastRelay(block, |block|);
      assert !Settles(site, block, r);
      var k: nat :| k < |site.ps| && Fill(k) !in block[..r];
      var fill :| 0 <= fill < |block| && block[fill] == Fill(k);
      assert forall q | 0 <= q < r :: block[..r][q] == block[q];
      LateBreaks(site, block, fill);
    } else {
      var k :| 0 <= k < |site.ps| && Reduces(site.ps[k]);
      var fill :| 0 <= fill < |block| && block[fill] == Fill(k);
      LateBreaks(site, block, fill);
    }
  }

  /** A fold the checks accept keeps the meaning of a run of its block if and only if no producer uses the element it writes
      or reduces over nothing; some transpose comes after every producer; whatever reads the destination does so before
      the first of them or after such a transpose; nothing writes it after a producer and before a transpose; and no
      producer reads it, but for one that comes first of all and has a single iteration. Or else nothing at all happens:
      the transpose does not run and no producer writes anything. */
  lemma {:induction false} BlockExact(site: Site, block: seq<Item>)
    requires Checked(site) && Proper(site, block) && NoEmptyDimension(site.shape)
    ensures KeepsMeaning(site, block) <==> Harmless(site, block) || Idle(site, block)
  {
    hide Checked, Proper, Overwriting, SettledBefore, SeenSettled, LeftAlone, OwnInputs, NoEmptyDimension;
    if Harmless(site, block) {
      HarmlessKeeps(site, block);
    } else if Idle(site, block) {
      IdleKeeps(site, block);
    } else if Relay in block && !Overwriting(site) {
      UsedBreaks(site, block);
    } else if !SettledBefore(site, block, |block|) {
      UnsettledBreaks(site, block);
    } else if !Overwriting(site) {
      SettledRelay(site, block);
    } else if !SeenSettled(site, block) {
      SeenBreaks(site, block);
    } else if !LeftAlone(block) {
      AlteredBreaks(site, block);
    } else {
      SeerBreaks(site, block);
    }
  }

  lemma SettledRelay(site: Site, block: seq<Item>)
    requires SettledBefore(site, block, |block|)
    ensures Relay in block
  {
  }

  // Blocks the fold spoils, all with the same producer of a square.

  function Square(usesDst: bool): Site {
    Site([2, 2], [1, 0], [Producer(Whole, [2, 2], [0, 1], (t: seq<nat>, v: int) => v)], [false], [usesDst])
  }

  lemma {:induction false} SquareChecked(usesDst: bool)
    ensures Checked(Square(usesDst)) && NoEmptyDimension(Square(usesDst).shape) && Overwriting(Square(usesDst)) && |Square(usesDst).ps| == 1
  {
    var site := Square(usesDst);
    var slices := SlicesOf(site.ps);
    assert AlongAxis(site.shape, slices[0], 0);
    forall i | 0 <= i < 2 ensures Held(site.shape, slices, 0, i) {
      assert Holds(site.shape, slices[0], 0, i);
    }
    assert Tiled(site.shape, site.ps, 0);
    assert site.perm[0] == 1 && site.perm[1] == 0;
    assert 0 in site.ps[0].out && 1 in site.ps[0].out;
  }

  lemma SquareProper(usesDst: bool, block: seq<Item>)
    requires |block| > 0 && block[0] == Fill(0) && forall i | 0 < i < |block| :: !block[i].Fill?
    ensures Proper(Square(usesDst), block)
  {
  }

  /** The source is filled, the destination zeroed, and the source transposed into it. */
  lemma {:induction false} ZeroedOver()
    ensures var block := [Fill(0), Other(0, false, true), Relay];
      && Checked(Square(false)) && Proper(Square(false), block) && !KeepsMeaning(Square(false), block)
  {
    hide Checked, KeepsMeaning, Proper, Overwriting, NoEmptyDimension, Square;
    var block := [Fill(0), Other(0, false, true), Relay];
    SquareChecked(false);
    SquareProper(false, block);
    assert block[0].Fill? && block[1].alters && block[2] == Relay;
    assert !LeftAlone(block);
    assert Relay in block;
    BlockExact(Square(false), block);
  }

  /** The source is produced from the destination, and transposed back into it: after the fold the producer reads elements it
      has already written. */
  lemma {:induction false} InPlace()
    ensures var block := [Fill(0), Relay];
      && Checked(Square(true)) && Proper(Square(true), block) && !KeepsMeaning(Square(true), block)
  {
    hide Checked, KeepsMeaning, Proper, Overwriting, NoEmptyDimension;
    var site, block := Square(true), [Fill(0), Relay];
    SquareChecked(true);
    SquareProper(true, block);
    FourIterations();
    assert block[0].Fill? && site.seesDst[block[0].k];
    assert !OwnInputs(site, block);
    assert Relay in block;
    BlockExact(site, block);
  }

  lemma {:induction false} FourIterations()
    ensures |Iterations(Square(true).ps[0])| != 1
  {
    var p := Square(true).ps[0];
    IterationsMembers(p, [0, 0]);
    IterationsMembers(p, [1, 1]);
    var i :| 0 <= i < |Iterations(p)| && Iterations(p)[i] == [0, 0];
    var j :| 0 <= j < |Iterations(p)| && Iterations(p)[j] == [1, 1];
    assert Iterations(p)[i][0] != Iterations(p)[j][0];
  }

  /** The transpose is under a condition that does not hold: the destination should stay as it was. */
  lemma {:induction false} NotTransposed()
    ensures var block := [Fill(0)];
      && Checked(Square(false)) && Proper(Square(false), block) && !KeepsMeaning(Square(false), block)
  {
    hide Checked, KeepsMeaning, Proper, NoEmptyDimension;
    var site, block := Square(false), [Fill(0)];
    SquareChecked(false);
    SquareProper(false, block);
    assert Reduces(site.ps[0]);
    assert !Idle(site, block);
    BlockExact(site, block);
  }
}
