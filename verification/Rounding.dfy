/** Rounding to the nearest integer, halves to the even one: roundTiesToEven, section 4.3.1 of IEEE 754-2008. */
module Rounding {

  function RoundEven(x: real): int {
    var f := x.Floor;
    var rest := x - f as real;
    if rest < 0.5 || (rest == 0.5 && f % 2 == 0) then f else f + 1
  }

  lemma FixesIntegers(n: int)
    ensures RoundEven(n as real) == n
  {
  }

  /** No integer is nearer, and a tie goes to the even one. */
  lemma Nearest(x: real, n: int)
    ensures var r := RoundEven(x);
      -0.5 <= x - r as real <= 0.5 && (x - r as real == 0.5 || r as real - x == 0.5 ==> r % 2 == 0)
    ensures -0.5 < x - n as real < 0.5 ==> n == RoundEven(x)
  {
  }

  lemma Monotone(x: real, y: real)
    requires x <= y
    ensures RoundEven(x) <= RoundEven(y)
  {
    assert x.Floor <= y.Floor;
  }

  function Max(x: int, y: int): int { if x >= y then x else y }

  function Min(x: int, y: int): int { if x <= y then x else y }

  function RMax(x: real, y: real): real { if x >= y then x else y }

  function RMin(x: real, y: real): real { if x <= y then x else y }

  function Abs(x: int): int { if x < 0 then -x else x }

  function Clamp(v: int, lo: int, hi: int): int { Min(Max(v, lo), hi) }

  lemma RoundsExtrema(x: real, y: real)
    ensures RoundEven(RMax(x, y)) == Max(RoundEven(x), RoundEven(y))
    ensures RoundEven(RMin(x, y)) == Min(RoundEven(x), RoundEven(y))
  {
    if x <= y {
      Monotone(x, y);
    } else {
      Monotone(y, x);
    }
  }
}
