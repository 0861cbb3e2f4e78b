/** The runtime's record of accelerator output buffers already prepared (`runtime/gemmlir_rt.c`): an
    open-addressing hash table that doubles at three quarters full.

    The capacity is always a power of two, so the source's `& mask` is written `% cap` here. */
module TouchedSet {
  import opened Memory

  /** A 64-bit address; zero is the null pointer and marks an empty slot. */
  type Pointer = p: nat | p < 0x1_0000_0000_0000_0000

  const FIRST_CAPACITY := 1024

  function Home(p: Pointer, cap: nat): (h: nat)
    requires cap > 0
    ensures h < cap
  {
    var mixed := (p / 16 * 0x9E37_79B9_7F4A_7C15) % 0x1_0000_0000_0000_0000;
    (mixed / 0x100_0000_0000) % cap
  }

  /** The slot `d` probes away from `h`, wrapping at the end of the table. */
  function Probe(h: nat, d: nat, cap: nat): (i: nat)
    requires h < cap && d < cap
    ensures i < cap
  {
    if h + d < cap then h + d else h + d - cap
  }

  lemma ProbeNext(h: nat, d: nat, cap: nat)
    requires h < cap && d + 1 < cap
    ensures (Probe(h, d, cap) + 1) % cap == Probe(h, d + 1, cap)
  {
  }

  /** Every slot is some number of probes from any home. */
  lemma ProbeReaches(h: nat, i: nat, cap: nat) returns (d: nat)
    requires h < cap && i < cap
    ensures d < cap && Probe(h, d, cap) == i
  {
    d := if h <= i then i - h else i + cap - h;
  }

  ghost function Stored(t: seq<Pointer>): set<Pointer> {
    set i | 0 <= i < |t| && t[i] != 0 :: t[i]
  }

  lemma ProbeZero(h: nat, cap: nat)
    requires h < cap
    ensures Probe(h, 0, cap) == h
  {
  }

  lemma StoredAt(t: seq<Pointer>, i: nat)
    requires i < |t| && t[i] != 0
    ensures t[i] in Stored(t)
  {
  }

  function Used(t: seq<Pointer>): nat {
    if t == [] then 0 else Used(t[..|t| - 1]) + if t[|t| - 1] != 0 then 1 else 0
  }

  /** Slot `i` is `d` probes from home and there is no gap on the way. */
  ghost predicate Chained(t: seq<Pointer>, p: Pointer, d: nat, i: nat) {
    && d < |t| && i == Probe(Home(p, |t|), d, |t|)
    && forall e | 0 <= e < d :: t[Probe(Home(p, |t|), e, |t|)] != 0
  }

  /** Every stored pointer can be found by probing from its home slot, and is stored once. */
  ghost predicate WellPlaced(t: seq<Pointer>) {
    && (forall i | 0 <= i < |t| && t[i] != 0 :: exists d :: Chained(t, t[i], d, i))
    && (forall i, j | 0 <= i < j < |t| && t[i] != 0 :: t[i] != t[j])
  }

  ghost predicate PowerOfTwo(n: nat) {
    n == 1 || (n > 1 && n % 2 == 0 && PowerOfTwo(n / 2))
  }

  /** A table that is not full has an empty slot. */
  lemma {:induction false} HasEmpty(t: seq<Pointer>) returns (e: nat)
    requires Used(t) < |t|
    ensures e < |t| && t[e] == 0
  {
    var last := |t| - 1;
    if t[last] == 0 {
      e := last;
    } else {
      e := HasEmpty(t[..last]);
    }
  }

  lemma {:induction false} UsedBound(t: seq<Pointer>)
    ensures Used(t) <= |t|
  {
    if t != [] {
      UsedBound(t[..|t| - 1]);
    }
  }

  lemma {:induction false} UsedInsert(t: seq<Pointer>, i: nat, p: Pointer)
    requires i < |t| && t[i] == 0 && p != 0
    ensures Used(t[i := p]) == Used(t) + 1
    decreases |t|
  {
    var last := |t| - 1;
    if i < last {
      UsedInsert(t[..last], i, p);
      assert t[i := p][..last] == t[..last][i := p];
    } else {
      assert t[i := p][..last] == t[..last];
    }
  }

  lemma {:induction false} EmptyTable(n: nat)
    ensures Used(seq(n, _ => 0 as Pointer)) == 0
  {
    if n > 0 {
      EmptyTable(n - 1);
      assert seq(n, _ => 0 as Pointer)[..n - 1] == seq(n - 1, _ => 0 as Pointer);
    }
  }

  /** A probe that stops at an empty slot has shown the pointer is not stored. */
  lemma {:induction false} NotStored(t: seq<Pointer>, p: Pointer, d: nat, i: nat)
    requires WellPlaced(t) && p != 0 && Chained(t, p, d, i) && t[i] == 0
    requires forall e | 0 <= e < d :: t[Probe(Home(p, |t|), e, |t|)] != p
    ensures p !in Stored(t)
  {
    hide Home;
    forall k | 0 <= k < |t| ensures t[k] != p {
    }
  }

  /** Storing a new pointer where its probe stopped keeps every chain whole. */
  lemma {:induction false} Insert(t: seq<Pointer>, p: Pointer, d: nat, i: nat)
    requires WellPlaced(t) && p != 0 && p !in Stored(t) && Chained(t, p, d, i) && t[i] == 0
    ensures WellPlaced(t[i := p]) && Stored(t[i := p]) == Stored(t) + {p}
  {
    hide Home;
    var t' := t[i := p];
    forall k | 0 <= k < |t'| && t'[k] != 0 ensures exists e :: Chained(t', t'[k], e, k) {
      if k == i {
        assert Chained(t', p, d, i);
      } else {
        var e :| Chained(t, t[k], e, k);
        assert Chained(t', t[k], e, k);
      }
    }
    forall k, l | 0 <= k < l < |t'| && t'[k] != 0 ensures t'[k] != t'[l] {
      assert t[k] != 0 ==> t[k] in Stored(t);
      assert t[l] != 0 ==> t[l] in Stored(t);
    }
    forall x ensures x in Stored(t') <==> x in Stored(t) + {p} {
      if x in Stored(t) {
        var k :| 0 <= k < |t| && t[k] == x && x != 0;
        assert t'[k] == x;
      }
      assert t'[i] == p;
    }
  }

  /** `gemmlir_touched_slot`: the slot that holds `p`, or the empty slot where it belongs. */
  method Slot(table: array<Pointer>, p: Pointer) returns (i: nat, ghost d: nat)
    requires p != 0 && WellPlaced(table[..]) && Used(table[..]) < table.Length
    ensures i < table.Length && Chained(table[..], p, d, i)
    ensures table[i] == if p in Stored(table[..]) then p else 0
  {
    ghost var t := table[..];
    var cap := table.Length;
    ghost var h := Home(p, cap);
    ghost var empty := HasEmpty(t);
    ghost var gap := ProbeReaches(h, empty, cap);
    hide Home, WellPlaced, Used, Probe, Stored;
    i := Home(p, cap);
    d := 0;
    assert i == Probe(h, 0, cap) by { ProbeZero(h, cap); }
    while table[i] != 0 && table[i] != p
      invariant d <= gap && i == Probe(h, d, cap)
      invariant forall e | 0 <= e < d :: t[Probe(h, e, cap)] != 0 && t[Probe(h, e, cap)] != p
      decreases gap - d
    {
      ProbeNext(h, d, cap);
      i := (i + 1) % cap;
      d := d + 1;
    }
    if t[i] == 0 {
      NotStored(t, p, d, i);
    } else {
      StoredAt(t, i);
    }
  }

  /** A table slot not reached yet holds none of the pointers in the slots before it. */
  lemma {:induction false} StoredPrefix(t: seq<Pointer>, i: nat)
    requires i < |t| && WellPlaced(t)
    ensures t[i] == 0 ==> Stored(t[..i + 1]) == Stored(t[..i]) && Used(t[..i + 1]) == Used(t[..i])
    ensures t[i] != 0 ==> Stored(t[..i + 1]) == Stored(t[..i]) + {t[i]} && Used(t[..i + 1]) == Used(t[..i]) + 1
    ensures t[i] != 0 ==> t[i] !in Stored(t[..i])
  {
    assert t[..i + 1][..i] == t[..i];
    forall x ensures x in Stored(t[..i + 1]) <==> x in Stored(t[..i]) || (x == t[i] && x != 0) {
      if x in Stored(t[..i]) {
        var k :| 0 <= k < i && t[..i][k] == x && x != 0;
        assert t[..i + 1][k] == x;
      }
      assert t[..i + 1][i] == t[i];
    }
  }

  /** Copying the first stored pointers of `table` into a larger empty table. */
  method Rehash(table: array<Pointer>, want: nat) returns (grown: array<Pointer>)
    requires WellPlaced(table[..]) && want > table.Length
    ensures fresh(grown) && grown.Length == want
    ensures WellPlaced(grown[..]) && Stored(grown[..]) == Stored(table[..]) && Used(grown[..]) == Used(table[..])
  {
    hide Home, WellPlaced, Used, Stored, Chained;
    grown := new Pointer[want](_ => 0);
    ghost var t := table[..];
    Blank(grown[..]);
    assert t[..0] == [];
    Blank(t[..0]);
    for i := 0 to table.Length
      invariant table[..] == t
      invariant WellPlaced(grown[..]) && Stored(grown[..]) == Stored(t[..i]) && Used(grown[..]) == Used(t[..i])
    {
      StoredPrefix(t, i);
      if table[i] != 0 {
        UsedBound(t[..i]);
        var slot, d := Slot(grown, table[i]);
        ghost var before := grown[..];
        grown[slot] := table[i];
        assert grown[..] == before[slot := t[i]];
        Insert(before, t[i], d, slot);
        UsedInsert(before, slot, t[i]);
      }
    }
    assert t[..table.Length] == t;
  }

  lemma {:induction false} Blank(t: seq<Pointer>)
    requires forall i | 0 <= i < |t| :: t[i] == 0
    ensures WellPlaced(t) && Stored(t) == {} && Used(t) == 0
  {
    assert t == seq(|t|, _ => 0 as Pointer);
    EmptyTable(|t|);
  }

  class Touched {
    var table: array<Pointer>
    var count: nat
    var cap: nat

    ghost predicate Valid()
      reads this, table
    {
      && table.Length == cap
      && WellPlaced(table[..])
      && Used(table[..]) == count
      && 4 * count <= 3 * cap
      && (cap == 0 || (PowerOfTwo(cap) && cap % 4 == 0))
    }

    /** The buffers recorded so far. */
    ghost function Seen(): set<Pointer>
      reads this, table
    {
      Stored(table[..])
    }

    constructor ()
      ensures Valid() && fresh(table) && Seen() == {}
    {
      table := new Pointer[0];
      count, cap := 0, 0;
      new;
      Blank(table[..]);
    }

    /** `gemmlir_touched_room`: doubles the table once it is three quarters full. */
    method Room()
      requires Valid()
      modifies this
      ensures Valid() && Seen() == old(Seen()) && count == old(count)
      ensures 4 * count < 3 * cap
      ensures table == old(table) || fresh(table)
    {
      if cap != 0 && count * 4 < cap * 3 {
        return;
      }
      hide WellPlaced, Used, Stored;
      var want := if cap != 0 then cap * 2 else FIRST_CAPACITY;
      assert PowerOfTwo(want) && want % 4 == 0 && want >= 2 * cap && want >= 4 by { Doubling(cap); }
      var grown := Rehash(table, want);
      table := grown;
      cap := want;
    }

    /** `gemmlir_unseen`: true the first time a buffer is seen, which records it. */
    method Unseen(p: Pointer) returns (first: bool)
      requires Valid()
      modifies this, table
      ensures Valid() && (table == old(table) || fresh(table))
      ensures first <==> p != 0 && p !in old(Seen())
      ensures Seen() == if p == 0 then old(Seen()) else old(Seen()) + {p}
    {
      hide WellPlaced, Used, Stored, Chained, PowerOfTwo, Home;
      if p == 0 {
        return false;
      }
      Room();
      var i, d := Slot(table, p);
      if table[i] != 0 {
        assert Seen() + {p} == Seen();
        return false;
      }
      ghost var before := table[..];
      table[i] := p;
      assert table[..] == before[i := p];
      Insert(before, p, d, i);
      UsedInsert(before, i, p);
      count := count + 1;
      return true;
    }

    /** `gemmlir_first_touch`: clears a buffer the first time it is about to be written, never again. */
    method FirstTouch(mem: array<byte>, p: Pointer, bytes: nat)
      requires Valid() && p + bytes <= mem.Length
      modifies this, table, mem
      ensures Valid() && (table == old(table) || fresh(table))
      ensures Seen() == if p == 0 || bytes == 0 then old(Seen()) else old(Seen()) + {p}
      ensures var clears := p != 0 && bytes != 0 && p !in old(Seen());
        forall a | 0 <= a < mem.Length :: mem[a] == if clears && p <= a < p + bytes then 0 else old(mem[a])
    {
      if p == 0 || bytes == 0 {
        return;
      }
      var first := Unseen(p);
      if !first {
        return;
      }
      forall a | p <= a < p + bytes {
        mem[a] := 0;
      }
    }
  }

  lemma Doubling(cap: nat)
    requires cap == 0 || (PowerOfTwo(cap) && cap % 4 == 0)
    ensures var want := if cap != 0 then cap * 2 else FIRST_CAPACITY;
      PowerOfTwo(want) && want % 4 == 0 && want >= 2 * cap && want >= 4
  {
    assert PowerOfTwo(8);
    assert PowerOfTwo(32);
    assert PowerOfTwo(128);
    assert PowerOfTwo(512);
  }

  /** Over any history of calls, each buffer is answered "unseen" exactly at its first appearance. */
  method Replay(calls: seq<Pointer>) returns (answers: seq<bool>)
    ensures |answers| == |calls|
    ensures forall k | 0 <= k < |calls| :: answers[k] <==> calls[k] != 0 && calls[k] !in calls[..k]
  {
    var touched := new Touched();
    answers := [];
    for k := 0 to |calls|
      invariant touched.Valid() && fresh(touched) && fresh(touched.table)
      invariant |answers| == k
      invariant forall p: Pointer :: p in touched.Seen() <==> p != 0 && p in calls[..k]
      invariant forall i | 0 <= i < k :: answers[i] <==> calls[i] != 0 && calls[i] !in calls[..i]
    {
      var first := touched.Unseen(calls[k]);
      answers := answers + [first];
      assert calls[..k + 1] == calls[..k] + [calls[k]];
    }
  }
}
