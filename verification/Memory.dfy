/** Byte-addressed memory and the elementary moves made on it.

    A copy is described by the list of byte moves it makes, in order; `Apply` carries the list out one
    byte at a time. The C primitives that move several bytes at once are methods proved to do the same
    as their list of moves. */
module Memory {

  newtype byte = x: int | 0 <= x < 0x100

  /** One byte move: the byte at address `from` goes to address `to`. */
  datatype Move = Move(to: int, from: int)

  ghost predicate InBounds(moves: seq<Move>, size: nat) {
    forall m | m in moves :: 0 <= m.to < size && 0 <= m.from < size
  }

  /** Nothing that is read is ever written. */
  ghost predicate Apart(moves: seq<Move>) {
    forall m, n | m in moves && n in moves :: m.to != n.from
  }

  /** No address is written from two different places. */
  ghost predicate SingleValued(moves: seq<Move>) {
    forall m, n | m in moves && n in moves && m.to == n.to :: m.from == n.from
  }

  ghost function Apply(mem: seq<byte>, moves: seq<Move>): (r: seq<byte>)
    requires InBounds(moves, |mem|)
    ensures |r| == |mem|
    decreases |moves|
  {
    if moves == [] then mem else Apply(mem[moves[0].to := mem[moves[0].from]], moves[1..])
  }

  lemma {:induction false} ApplyConcat(mem: seq<byte>, a: seq<Move>, b: seq<Move>)
    requires InBounds(a + b, |mem|)
    ensures InBounds(a, |mem|) && InBounds(b, |mem|)
    ensures Apply(mem, a + b) == Apply(Apply(mem, a), b)
    decreases |a|
  {
    assert forall m | m in a :: m in a + b;
    assert forall m | m in b :: m in a + b;
    if a == [] {
      assert a + b == b;
    } else {
      assert (a + b)[1..] == a[1..] + b;
      ApplyConcat(mem[a[0].to := mem[a[0].from]], a[1..], b);
    }
  }

  /** Moving `n` consecutive bytes, lowest address first. */
  function Block(to: int, from: int, n: nat): (r: seq<Move>)
    ensures |r| == n
  {
    seq(n, b => Move(to + b, from + b))
  }

  lemma BlockAt(to: int, from: int, n: nat, k: int)
    ensures 0 <= k < n ==> Move(to + k, from + k) in Block(to, from, n)
  {
    if 0 <= k < n {
      assert Block(to, from, n)[k] == Move(to + k, from + k);
    }
  }

  lemma {:induction false} BlockConcat(to: int, from: int, n: nat, m: nat)
    ensures Block(to, from, n) + Block(to + n, from + n, m) == Block(to, from, n + m)
  {
  }

  /** What a list of moves leaves behind, when it never reads what it writes and never
      writes one address from two places. */
  lemma {:induction false} ApplyPointwise(mem: seq<byte>, moves: seq<Move>)
    requires InBounds(moves, |mem|) && Apart(moves) && SingleValued(moves)
    ensures forall m | m in moves :: Apply(mem, moves)[m.to] == mem[m.from]
    ensures forall a | 0 <= a < |mem| && (forall m | m in moves :: m.to != a) :: Apply(mem, moves)[a] == mem[a]
    decreases |moves|
  {
    if moves != [] {
      var first, rest := moves[0], moves[1..];
      var mem' := mem[first.to := mem[first.from]];
      assert forall m | m in rest :: m in moves;
      assert first in moves;
      ApplyPointwise(mem', rest);
      forall m | m in moves ensures Apply(mem, moves)[m.to] == mem[m.from] {
        if m in rest {
          assert mem'[m.from] == mem[m.from];
        } else {
          assert m == first;
          forall n | n in rest ensures n.to != first.to {
            assert n in moves && n != first;
          }
        }
      }
    }
  }

  /** Memory after `n` bytes have been moved all at once. */
  ghost function Landed(mem: seq<byte>, to: nat, from: nat, n: nat): (r: seq<byte>)
    requires to + n <= |mem| && from + n <= |mem|
    ensures |r| == |mem|
  {
    seq(|mem|, a requires 0 <= a < |mem| => if to <= a < to + n then mem[from + (a - to)] else mem[a])
  }

  /** A block that does not read what it writes lands as a whole. */
  lemma {:induction false} ApplyBlock(mem: seq<byte>, to: nat, from: nat, n: nat)
    requires to + n <= |mem| && from + n <= |mem|
    requires n == 0 || to + n <= from || from + n <= to
    ensures InBounds(Block(to, from, n), |mem|)
    ensures Apply(mem, Block(to, from, n)) == Landed(mem, to, from, n)
    decreases n
  {
    if n == 0 {
      assert Block(to, from, 0) == [];
      assert Landed(mem, to, from, 0) == mem;
    } else {
      ApplyBlock(mem, to, from, n - 1);
      ApplySnoc(mem, to, from, n - 1);
      LandedSnoc(mem, to, from, n - 1);
    }
  }

  lemma {:induction false} ApplySnoc(mem: seq<byte>, to: nat, from: nat, n: nat)
    requires to + n < |mem| && from + n < |mem|
    ensures InBounds(Block(to, from, n), |mem|) && InBounds(Block(to, from, n + 1), |mem|)
    ensures var before := Apply(mem, Block(to, from, n));
      Apply(mem, Block(to, from, n + 1)) == before[to + n := before[from + n]]
  {
    BlockConcat(to, from, n, 1);
    ApplyConcat(mem, Block(to, from, n), Block(to + n, from + n, 1));
    ApplyOne(Apply(mem, Block(to, from, n)), to + n, from + n);
  }

  lemma {:induction false} LandedSnoc(mem: seq<byte>, to: nat, from: nat, n: nat)
    requires to + n < |mem| && from + n < |mem|
    requires to + n < from || from + n < to
    ensures var before := Landed(mem, to, from, n);
      Landed(mem, to, from, n + 1) == before[to + n := before[from + n]]
  {
  }

  lemma {:induction false} ApplyOne(mem: seq<byte>, to: nat, from: nat)
    requires to < |mem| && from < |mem|
    ensures Apply(mem, Block(to, from, 1)) == mem[to := mem[from]]
  {
    var moves := Block(to, from, 1);
    assert moves[0] == Move(to, from) && moves[1..] == [];
  }

  /** `memcpy`: undefined unless the two blocks are apart. */
  method MemCpy(mem: array<byte>, to: nat, from: nat, n: nat)
    requires to + n <= mem.Length && from + n <= mem.Length
    requires n == 0 || to + n <= from || from + n <= to
    modifies mem
    ensures mem[..] == Landed(old(mem[..]), to, from, n)
  {
    forall b | 0 <= b < n {
      mem[to + b] := mem[from + b];
    }
  }
}
