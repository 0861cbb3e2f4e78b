/** `ElideRedundantBufferCopy`: when a temporary is written once and only copied, its writer writes the copy's
    target instead. */
module ElideCopy {
  import opened Arith
  import opened BufferPrograms
  import opened RequantizeTail
  import opened Rounding
  import opened Wrappers

  function Count(values: seq<Value>, v: Value): nat {
    if values == [] then 0 else (if values[0] == v then 1 else 0) + Count(values[1..], v)
  }

  /** `writesOnly`: the operation writes `buf` and does not read it. */
  predicate WritesOnly(op: Op, buf: Value) {
    match op
    case MatMul(_, _, out, _, accumulate, _) => !accumulate && out == buf && Count(Operands(op), buf) == 1
    case ScaledMatMul(_, _, out, _, _, _, _) => out == buf && Count(Operands(op), buf) == 1
    case Requantize(src, bias, dst, _, _) => dst == buf && src != buf && bias != Some(buf)
    case Copy(from, to) => to == buf && from != buf
    case Other(_, inputs, outputs, known, captured) => known && buf in outputs && buf !in inputs && buf !in captured
    case View(_) => false
    case Dealloc(_) => false
  }

  function Renamed(v: Value, src: Value, dst: Value): Value {
    if v == src then dst else v
  }

  function RenamedAll(values: seq<Value>, src: Value, dst: Value): (r: seq<Value>)
    ensures |r| == |values|
  {
    seq(|values|, i requires 0 <= i < |values| => Renamed(values[i], src, dst))
  }

  function RenamedBias(b: Option<BiasRef>, src: Value, dst: Value): Option<BiasRef> {
    if b.None? then None else Some(b.value.(value := Renamed(b.value.value, src, dst)))
  }

  /** The operation with every operand that is `src` replaced by `dst`. */
  function Redirected(op: Op, src: Value, dst: Value): Op {
    match op
    case MatMul(lhs, rhs, out, bias, accumulate, shape) =>
      MatMul(Renamed(lhs, src, dst), Renamed(rhs, src, dst), Renamed(out, src, dst), RenamedBias(bias, src, dst), accumulate, shape)
    case Requantize(from, bias, to, body, columns) =>
      Requantize(Renamed(from, src, dst), if bias.None? then None else Some(Renamed(bias.value, src, dst)),
                 Renamed(to, src, dst), body, columns)
    case ScaledMatMul(lhs, rhs, out, bias, shape, scale, relu) =>
      ScaledMatMul(Renamed(lhs, src, dst), Renamed(rhs, src, dst), Renamed(out, src, dst), RenamedBias(bias, src, dst),
                   shape, scale, relu)
    case Copy(from, to) => Copy(Renamed(from, src, dst), Renamed(to, src, dst))
    case Other(id, inputs, outputs, known, captured) =>
      Other(id, RenamedAll(inputs, src, dst), RenamedAll(outputs, src, dst), known, RenamedAll(captured, src, dst))
    case View(_) => op
    case Dealloc(_) => op
  }

  /** The users of a value include what is in regions. */
  predicate Uses(op: Op, v: Value) {
    v in Named(op)
  }

  /** The operation at `w` is the one that writes `src`, and but for the copy and deallocations the only one to use it. */
  ghost predicate SoleWriter(ops: seq<Op>, src: Value, w: nat, c: nat) {
    && w < c && w < |ops| && WritesOnly(ops[w], src)
    && forall i | 0 <= i < |ops| && i != c && i != w && Uses(ops[i], src) :: ops[i].Dealloc?
  }

  ghost predicate UnusedBefore(ops: seq<Op>, dst: Value, c: nat) {
    forall i | 0 <= i < c && i < |ops| && Uses(ops[i], dst) :: ops[i].Dealloc?
  }

  /** What the types of a copy's operands and the places of their allocations say: one type on both sides, of static
      shape and identity layout, both allocated without dynamic sizes and in the block of the copy. */
  datatype CopyTypes = CopyTypes(same: bool, staticShape: bool, identityLayout: bool, staticAllocs: bool, sameBlock: bool) {
    predicate Fits() {
      same && staticShape && identityLayout && staticAllocs && sameBlock
    }
  }

  /** Everything the rewrite checks before it redirects the writer at `w` past the copy at `c`. */
  ghost predicate Accepted(ops: seq<Op>, types: CopyTypes, w: nat, c: nat) {
    && w < c < |ops| && ops[c].Copy? && types.Fits()
    && var src, dst := ops[c].from, ops[c].to;
      && src.Alloc? && dst.Alloc? && src != dst
      && SoleWriter(ops, src, w, c) && UnusedBefore(ops, dst, c)
  }

  /** Where everything is named by its allocation this is what is elided: an operation of known effect that writes the copy's
      source and does not read it; nothing else but deallocations using the source; and nothing but those using the target
      before the copy. */
  lemma {:induction false} PlainAccepted(ops: seq<Op>, w: nat, c: nat)
    requires w < c < |ops| && ops[c].Copy? && ops[c].from.Alloc? && ops[c].to.Alloc? && ops[c].from != ops[c].to
    requires forall i | 0 <= i < |ops| && i != c && i != w && !ops[i].Dealloc? :: ops[c].from !in Named(ops[i])
    requires forall i | 0 <= i < c && !ops[i].Dealloc? :: ops[c].to !in Named(ops[i])
    requires var op, src := ops[w], ops[c].from;
      || (op.Other? && op.known && src in op.outputs && src !in op.inputs && src !in op.captured)
      || (op.MatMul? && !op.accumulate && op.out == src && op.lhs != src && op.rhs != src && (op.bias.Some? ==> op.bias.value.value != src))
      || (op.Requantize? && op.dst == src && op.src != src && op.channelBias != Some(src))
    ensures Accepted(ops, CopyTypes(true, true, true, true, true), w, c)
  {
    var op, src := ops[w], ops[c].from;
    if op.MatMul? {
      assert Operands(op) == [op.lhs, op.rhs, op.out] + BiasValue(op.bias);
      CountOne(op.lhs, op.rhs, BiasValue(op.bias), src);
    }
  }

  lemma CountOne(a: Value, b: Value, rest: seq<Value>, v: Value)
    requires a != v && b != v && |rest| <= 1 && v !in rest
    ensures Count([a, b, v] + rest, v) == 1
  {
    var all := [a, b, v] + rest;
    assert all[1..] == [b, v] + rest && ([b, v] + rest)[1..] == [v] + rest && ([v] + rest)[1..] == rest;
    assert Count(rest, v) == 0 by { if |rest| == 1 { assert rest[0] in rest && rest[1..] == []; } }
    assert Count([v] + rest, v) == 1;
    assert Count([b, v] + rest, v) == 1;
  }

  function Elided(ops: seq<Op>, w: nat, c: nat): seq<Op>
    requires w < c < |ops| && ops[c].Copy?
  {
    ops[..w] + [Redirected(ops[w], ops[c].from, ops[c].to)] + ops[w + 1..c] + ops[c + 1..]
  }

  method FindWriter(ops: seq<Op>, src: Value, c: nat) returns (writer: Option<nat>)
    requires c < |ops|
    ensures writer.Some? ==> SoleWriter(ops, src, writer.value, c)
    ensures writer.None? ==> forall w: nat :: !SoleWriter(ops, src, w, c)
  {
    hide WritesOnly, Uses;
    writer := None;
    for i := 0 to |ops|
      invariant writer.Some? ==> writer.value < i && writer.value < c && WritesOnly(ops[writer.value], src)
      invariant writer.Some? ==> !ops[writer.value].Dealloc? && Uses(ops[writer.value], src)
      invariant forall j | 0 <= j < i && j != c && Some(j) != writer && Uses(ops[j], src) :: ops[j].Dealloc?
    {
      if i != c && !ops[i].Dealloc? && Uses(ops[i], src) {
        if writer.Some? || i > c || !WritesOnly(ops[i], src) {
          return None;
        }
        writer := Some(i);
      }
    }
    if writer.None? {
      forall w: nat ensures !SoleWriter(ops, src, w, c) {
        if w < |ops| && w < c {
          WriterUses(ops[w], src);
        }
      }
    }
  }

  lemma WriterUses(op: Op, src: Value)
    ensures WritesOnly(op, src) ==> Uses(op, src) && !op.Dealloc?
  {
  }

  method CheckUnused(ops: seq<Op>, dst: Value, c: nat) returns (ok: bool)
    requires c <= |ops|
    ensures ok <==> UnusedBefore(ops, dst, c)
  {
    for i := 0 to c
      invariant UnusedBefore(ops, dst, i)
    {
      if !ops[i].Dealloc? && Uses(ops[i], dst) {
        return false;
      }
    }
    return true;
  }

  /** `matchAndRewrite`. */
  method Elide(block: Block, types: CopyTypes, c: nat) returns (elided: bool, ghost w: nat)
    requires c < |block.ops| && block.ops[c].Copy?
    modifies block
    ensures !elided ==> block.ops == old(block.ops) && forall w :: !Accepted(old(block.ops), types, w, c)
    ensures elided ==> Accepted(old(block.ops), types, w, c) && block.ops == Elided(old(block.ops), w, c)
    ensures elided ==> types.same && types.staticShape && types.identityLayout && types.staticAllocs && types.sameBlock
  {
    hide SoleWriter, UnusedBefore;
    var ops := block.ops;
    elided, w := false, 0;
    var src, dst := ops[c].from, ops[c].to;
    if !types.Fits() || !src.Alloc? || !dst.Alloc? || src == dst {
      return;
    }
    var writer := FindWriter(ops, src, c);
    if writer.None? {
      return;
    }
    var unused := CheckUnused(ops, dst, c);
    if !unused {
      return;
    }
    elided, w := true, writer.value;
    SoleWriterIn(ops, src, w, c);
    block.ops := ops[..writer.value] + [Redirected(ops[writer.value], src, dst)] + ops[writer.value + 1..c] + ops[c + 1..];
  }

  lemma SoleWriterIn(ops: seq<Op>, src: Value, w: nat, c: nat)
    requires SoleWriter(ops, src, w, c)
    ensures w < c && w < |ops|
  {
  }

  /** Memory no view is made of is only ever named directly. */
  lemma {:induction false} NoAlias(ops: seq<Op>, x: nat, limit: nat, i: nat, v: Value)
    requires Defined(ops) && i < limit <= |ops| && v in Named(ops[i]) && Root(v) == x
    requires forall m | 0 <= m < limit && Uses(ops[m], Alloc(x)) :: !ops[m].View?
    ensures v == Alloc(x)
    decreases i
  {
    if !v.Alloc? {
      var m :| 0 <= m < i && ops[m] == View(v);
      assert v.source in Named(ops[m]);
      NoAlias(ops, x, limit, m, v.source);
      assert false;
    }
  }

  lemma {:induction false} CountOnce(values: seq<Value>, v: Value, i: nat, j: nat)
    requires Count(values, v) == 1 && i < |values| && j < |values| && i != j && values[i] == v
    ensures values[j] != v
    decreases |values|
  {
    if i > 0 && j > 0 {
      CountPositive(values[1..], v, i - 1);
      CountOnce(values[1..], v, i - 1, j - 1);
    } else if i == 0 && values[j] == v {
      CountPositive(values[1..], v, j - 1);
    } else if j == 0 {
      CountPositive(values[1..], v, i - 1);
    }
  }

  lemma {:induction false} CountPositive(values: seq<Value>, v: Value, i: nat)
    requires i < |values| && values[i] == v
    ensures Count(values, v) >= 1
    decreases |values|
  {
    if i > 0 {
      CountPositive(values[1..], v, i - 1);
    }
  }

  lemma FirstNamingUnique(values: seq<Value>, r: nat, j: nat)
    requires j < |values| ==> Root(values[j]) == r
    requires j <= |values| && forall i | 0 <= i < j :: Root(values[i]) != r
    ensures FirstNaming(values, r) == j
  {
  }

  /** Renaming memory that is only named directly moves where it is first named, and nothing else. */
  lemma {:induction false} FirstNamingRenamed(values: seq<Value>, x: nat, y: nat, r: nat)
    requires x != y && forall v | v in values :: (Root(v) == x ==> v == Alloc(x)) && Root(v) != y
    ensures var renamed := RenamedAll(values, Alloc(x), Alloc(y));
      && FirstNaming(renamed, y) == FirstNaming(values, x)
      && FirstNaming(values, y) == |values| && FirstNaming(renamed, x) == |values|
      && (r != x && r != y ==> FirstNaming(renamed, r) == FirstNaming(values, r))
  {
    hide FirstNaming;
    var renamed := RenamedAll(values, Alloc(x), Alloc(y));
    assert forall i | 0 <= i < |values| :: values[i] in values;
    FirstNamingUnique(renamed, y, FirstNaming(values, x));
    FirstNamingUnique(values, y, |values|);
    FirstNamingUnique(renamed, x, |values|);
    if r != x && r != y {
      FirstNamingUnique(renamed, r, FirstNaming(values, r));
    }
  }

  lemma RenamedNothing(values: seq<Value>, src: Value, dst: Value)
    requires src !in values
    ensures RenamedAll(values, src, dst) == values
  {
    assert forall i | 0 <= i < |values| :: values[i] in values;
  }

  /** Apart from its destination, the writer's operands are other memory. */
  lemma {:induction false} InputsElsewhere(op: Op, x: nat, y: nat)
    requires Computes(op) && WritesOnly(op, Alloc(x)) && x != y
    requires forall v | v in Named(op) :: (Root(v) == x ==> v == Alloc(x)) && Root(v) != y
    ensures Destination(op) == Alloc(x) && (op.MatMul? ==> !op.accumulate)
    ensures !op.Requantize? ==> Root(op.lhs) != x && Root(op.lhs) != y && Root(op.rhs) != x && Root(op.rhs) != y
    ensures !op.Requantize? && op.bias.Some? ==> Root(op.bias.value.value) != x && Root(op.bias.value.value) != y
    ensures op.Requantize? ==> Root(op.src) != x && Root(op.src) != y
    ensures op.Requantize? && op.channelBias.Some? ==> Root(op.channelBias.value) != x && Root(op.channelBias.value) != y
  {
    ComputesOperands(op);
    if !op.Requantize? {
      OnlyOutput(op, Alloc(x));
    }
  }

  /** Wherever its elements go it computes the same. */
  lemma {:induction false} ComputedRedirects(op: Op, x: nat, y: nat, p: Store, n: nat)
    requires Computes(op) && WritesOnly(op, Alloc(x)) && x != y
    requires forall v | v in Named(op) :: (Root(v) == x ==> v == Alloc(x)) && Root(v) != y
    ensures Computes(Redirected(op, Alloc(x), Alloc(y))) && Destination(Redirected(op, Alloc(x), Alloc(y))) == Alloc(y)
    ensures Computed(op, p, n) == Computed(Redirected(op, Alloc(x), Alloc(y)), p, n)
  {
    InputsElsewhere(op, x, y);
    if n > 0 {
      ComputedRedirects(op, x, y, p, n - 1);
      ElementRedirects(op, x, y, p, Computed(op, p, n - 1), n - 1);
    }
  }

  lemma {:induction false} ElementRedirects(op: Op, x: nat, y: nat, p: Store, done: seq<int>, t: nat)
    requires Computes(op) && WritesOnly(op, Alloc(x)) && x != y
    requires forall v | v in Named(op) :: (Root(v) == x ==> v == Alloc(x)) && Root(v) != y
    ensures Computes(Redirected(op, Alloc(x), Alloc(y)))
    ensures Element(op, Midway(op, p, done), t) == Element(Redirected(op, Alloc(x), Alloc(y)), Midway(Redirected(op, Alloc(x), Alloc(y)), p, done), t)
  {
    hide EvalI, Mvout, Wrap32, Product;
    InputsElsewhere(op, x, y);
  }

  lemma OpaqueRedirects(op: Op, src: Value, dst: Value)
    requires op.Other? && WritesOnly(op, src)
    ensures Redirected(op, src, dst).Other? && Redirected(op, src, dst).id == op.id
    ensures Reads(Redirected(op, src, dst)) == Reads(op) && Writes(Redirected(op, src, dst)) == RenamedAll(Writes(op), src, dst)
  {
    RenamedNothing(op.inputs, src, dst);
    RenamedNothing(op.captured, src, dst);
    RenamedConcat(op.outputs, op.captured, src, dst);
  }

  lemma RenamedConcat(a: seq<Value>, b: seq<Value>, src: Value, dst: Value)
    ensures RenamedAll(a + b, src, dst) == RenamedAll(a, src, dst) + RenamedAll(b, src, dst)
  {
  }

  lemma {:induction false} OpaqueWriter(op: Op, x: nat, y: nat, p: Store, interp: Interp)
    requires op.Other? && WritesOnly(op, Alloc(x)) && x != y
    requires forall v | v in Named(op) :: (Root(v) == x ==> v == Alloc(x)) && Root(v) != y
    ensures var before, after := Exec(op, p, interp), Exec(Redirected(op, Alloc(x), Alloc(y)), p, interp);
      && after(y) == before(x) && after(x) == p(x) && before(y) == p(y)
      && forall r: nat | r != x && r != y :: after(r) == before(r)
  {
    var src, dst := Alloc(x), Alloc(y);
    var targets := Writes(op);
    OpaqueRedirects(op, src, dst);
    assert src in targets;
    assert forall v | v in targets :: v in Named(op);
    hide FirstNaming, Redirected, Reads, Writes, Named;
    var k :| 0 <= k < |targets| && targets[k] == src;
    assert FirstNaming(targets, x) < |targets|;
    forall r: nat ensures var renamed := RenamedAll(targets, src, dst);
      && FirstNaming(renamed, y) == FirstNaming(targets, x)
      && FirstNaming(targets, y) == |targets| && FirstNaming(renamed, x) == |targets|
      && (r != x && r != y ==> FirstNaming(renamed, r) == FirstNaming(targets, r))
    {
      FirstNamingRenamed(targets, x, y, r);
    }
  }

  /** The redirected writer writes the same contents, only elsewhere. */
  lemma {:induction false} WriterRedirects(op: Op, x: nat, y: nat, p: Store, interp: Interp)
    requires WritesOnly(op, Alloc(x)) && x != y
    requires forall v | v in Named(op) :: (Root(v) == x ==> v == Alloc(x)) && Root(v) != y
    ensures var before, after := Exec(op, p, interp), Exec(Redirected(op, Alloc(x), Alloc(y)), p, interp);
      && after(y) == before(x) && after(x) == p(x) && before(y) == p(y)
      && forall r: nat | r != x && r != y :: after(r) == before(r)
  {
    hide Computed;
    if op.Other? {
      OpaqueWriter(op, x, y, p, interp);
    } else if Computes(op) {
      InputsElsewhere(op, x, y);
      ComputedRedirects(op, x, y, p, Extent(op, p));
    }
  }

  lemma {:induction false} OnlyOutput(op: Op, src: Value)
    requires op.MatMul? || op.ScaledMatMul?
    requires op.out == src && Count(Operands(op), src) == 1
    ensures op.lhs != src && op.rhs != src && (op.bias.Some? ==> op.bias.value.value != src)
  {
    CountOnce(Operands(op), src, 2, 0);
    CountOnce(Operands(op), src, 2, 1);
    if op.bias.Some? {
      CountOnce(Operands(op), src, 2, 3);
    }
  }

  /** An accepted elision changes nothing but the temporary that is no longer written. */
  lemma {:induction false} ElideSound(ops: seq<Op>, types: CopyTypes, w: nat, c: nat, store: Store, interp: Interp)
    requires Accepted(ops, types, w, c) && Defined(ops) && NothingAfterFree(ops)
    ensures AgreeOff(ops[c].from.id, Run(ops, store, interp), Run(Elided(ops, w, c), store, interp))
  {
    hide Run, Exec, Avoids, Ignores, WritesOnly, Redirected, NothingAfterFree, Defined;
    var src, dst := ops[c].from, ops[c].to;
    var x, y := src.id, dst.id;
    var mid, last := ops[w + 1..c], ops[c + 1..];
    var writer' := Redirected(ops[w], src, dst);
    var p := Run(ops[..w], store, interp);
    NeitherElsewhere(ops, types, w, c);

    var s1, t1 := Exec(ops[w], p, interp), Exec(writer', p, interp);
    WriterRedirects(ops[w], x, y, p, interp);
    // Halfway between the two stores after the writer: both temporaries hold what was written.
    var both := Put(s1, y, s1(x));
    var s2, b2, t2 := Run(mid, s1, interp), Run(mid, both, interp), Run(mid, t1, interp);
    AvoidingRun(mid, y, both, s1, interp);
    AvoidingRun(mid, x, both, t1, interp);
    AvoidingRun(mid, x, s1, s1, interp);
    var s3 := Exec(ops[c], s2, interp);
    CopyExec(ops[c], s2, interp);
    assert AgreeOff(x, s3, t2);
    IgnoringRun(last, x, s3, t2, interp);

    assert ops == ops[..w] + (([ops[w]] + mid + [ops[c]]) + last);
    RunConcat(ops[..w], ([ops[w]] + mid + [ops[c]]) + last, store, interp);
    RunConcat([ops[w]] + mid + [ops[c]], last, p, interp);
    RunEnds(ops[w], mid, ops[c], p, interp);
    assert Elided(ops, w, c) == ops[..w] + (([writer'] + mid) + last);
    RunConcat(ops[..w], ([writer'] + mid) + last, store, interp);
    RunConcat([writer'] + mid, last, p, interp);
    RunConcat([writer'], mid, p, interp);
    RunOne(writer', p, interp);
  }

  lemma CopyExec(op: Op, s: Store, interp: Interp)
    requires op.Copy?
    ensures forall r: nat :: Exec(op, s, interp)(r) == if r == Root(op.to) then s(Root(op.from)) else s(r)
  {
  }

  /** Nothing else in the block reaches the source, and nothing before the copy reaches the target. */
  lemma {:induction false} NeitherElsewhere(ops: seq<Op>, types: CopyTypes, w: nat, c: nat)
    requires Accepted(ops, types, w, c) && Defined(ops) && NothingAfterFree(ops)
    ensures var x, y := ops[c].from.id, ops[c].to.id;
      && (forall op | op in ops[w + 1..c] :: Avoids(op, x) && Avoids(op, y))
      && (forall op | op in ops[c + 1..] :: Ignores(op, x))
      && (forall v | v in Named(ops[w]) :: (Root(v) == x ==> v == Alloc(x)) && Root(v) != y)
  {
    var x, y := ops[c].from.id, ops[c].to.id;
    assert !ops[w].View?;
    forall i, v | 0 <= i < |ops| && v in Named(ops[i]) && Root(v) == x ensures v == Alloc(x) {
      NoAlias(ops, x, |ops|, i, v);
    }
    forall i, v | 0 <= i < c && v in Named(ops[i]) && Root(v) == y ensures v == Alloc(y) {
      NoAlias(ops, y, c, i, v);
    }
    // A deallocation before the copy would free what the copy still names.
    forall i | 0 <= i < c && i != w ensures Avoids(ops[i], x) && Avoids(ops[i], y) {
      assert ops[c].from in Named(ops[c]) && ops[c].to in Named(ops[c]);
      assert ops[i].Dealloc? ==> ops[i].v in Named(ops[i]);
    }
    forall i | c < i < |ops| ensures Ignores(ops[i], x) {
    }
  }

  lemma ElidedAt(ops: seq<Op>, w: nat, c: nat, j: nat)
    requires w < c < |ops| && ops[c].Copy? && j < |ops| - 1
    ensures |Elided(ops, w, c)| == |ops| - 1
    ensures Elided(ops, w, c)[j] == if j == w then Redirected(ops[w], ops[c].from, ops[c].to) else if j < c then ops[j] else ops[j + 1]
  {
    hide Redirected;
  }

  /** The elision keeps frees last. */
  lemma {:induction false} ElidedFreesLast(ops: seq<Op>, types: CopyTypes, w: nat, c: nat)
    requires Accepted(ops, types, w, c) && NothingAfterFree(ops)
    ensures NothingAfterFree(Elided(ops, w, c))
  {
    hide Elided, Redirected, Named, SoleWriter, UnusedBefore;
    var after := Elided(ops, w, c);
    ElidedAt(ops, w, c, w);
    forall i, j, v | 0 <= i < j < |after| && after[i].Dealloc? && v in Named(after[j])
      ensures Root(v) != Root(after[i].v)
    {
      WriterStays(ops, types, w, c);
      ElidedAt(ops, w, c, i);
      ElidedAt(ops, w, c, j);
      if j == w {
        RedirectedOperands(ops[w], ops[c].from, ops[c].to, v);
      }
    }
  }

  lemma WriterStays(ops: seq<Op>, types: CopyTypes, w: nat, c: nat)
    requires Accepted(ops, types, w, c)
    ensures !Redirected(ops[w], ops[c].from, ops[c].to).Dealloc? && ops[c].to in Named(ops[c])
  {
  }

  lemma RedirectedOperands(op: Op, src: Value, dst: Value, v: Value)
    requires v in Named(Redirected(op, src, dst))
    ensures v == dst || v in Named(op)
  {
    var before, after := Named(op), Named(Redirected(op, src, dst));
    RedirectedEach(op, src, dst);
    var k :| 0 <= k < |after| && after[k] == v;
    assert before[k] in before;
  }

  lemma RedirectedEach(op: Op, src: Value, dst: Value)
    ensures var before, after := Named(op), Named(Redirected(op, src, dst));
      |after| == |before| && forall k | 0 <= k < |before| :: after[k] == before[k] || after[k] == dst
  {
    hide RenamedAll;
    if op.Other? {
      RenamedConcat(op.inputs, op.outputs, src, dst);
      RenamedConcat(op.inputs + op.outputs, op.captured, src, dst);
      RenamedEach(Named(op), src, dst);
    }
  }

  lemma RenamedEach(values: seq<Value>, src: Value, dst: Value)
    ensures forall k | 0 <= k < |values| :: RenamedAll(values, src, dst)[k] == values[k] || RenamedAll(values, src, dst)[k] == dst
  {
  }
}
