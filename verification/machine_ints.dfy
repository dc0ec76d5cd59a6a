/**
 * Fixed-width machine integers of the timing model: the `uint64_t` time
 * stamps of a device timeline (whose `+` and `-` wrap modulo 2^64) and the
 * 32-bit signed `int` used for memory geometry, whose division truncates
 * toward zero.
 */
module MachineInts {

  const U64_MODULUS: nat := 0x1_0000_0000_0000_0000

  /** A value of C++ `uint64_t`. */
  type U64 = x: int | 0 <= x < U64_MODULUS

  /** `a + b` on `uint64_t`: wraps around modulo 2^64. */
  function Add64(a: U64, b: U64): (r: U64)
    ensures a + b < U64_MODULUS ==> r == a + b
    ensures a + b >= U64_MODULUS ==> r == a + b - U64_MODULUS
  {
    if a + b < U64_MODULUS then a + b else a + b - U64_MODULUS
  }

  /** `a - b` on `uint64_t`: wraps around modulo 2^64 when b > a. */
  function Sub64(a: U64, b: U64): (r: U64)
    ensures b <= a ==> r == a - b && r <= a
    ensures a < b ==> r == a - b + U64_MODULUS && r > a
  {
    if b <= a then a - b else a - b + U64_MODULUS
  }

  const INT32_MIN: int := -0x8000_0000
  const INT32_MAX: int := 0x7FFF_FFFF

  predicate IsInt32(x: int) {
    INT32_MIN <= x <= INT32_MAX
  }

  /** A value of C++ `int` on a target where it is 32 bits wide. */
  type Int32 = x: int | IsInt32(x)

  /**
   * The two's-complement wrap of an integer into 32 bits: what an `int`
   * overflow typically produces (the language leaves it undefined).
   */
  function WrapInt32(x: int): (r: Int32)
    ensures (r - x) % 0x1_0000_0000 == 0
    ensures IsInt32(x) ==> r == x
  {
    var m := x % 0x1_0000_0000;
    if m <= INT32_MAX then m else m - 0x1_0000_0000
  }

  function Abs(x: int): nat {
    if x < 0 then -x else x
  }

  lemma MulSign(x: int, y: int)
    ensures x > 0 && y > 0 ==> x * y > 0
    ensures x < 0 && y < 0 ==> x * y > 0
    ensures x > 0 && y < 0 ==> x * y < 0
    ensures x < 0 && y > 0 ==> x * y < 0
    ensures x == 0 ==> x * y == 0
  {
    if x < 0 && y < 0 {
      assert x * y == (-x) * (-y);
    } else if x > 0 && y < 0 {
      assert x * y == -(x * (-y));
    } else if x < 0 && y > 0 {
      assert x * y == -((-x) * y);
    }
  }

  lemma NegMul(x: int, y: int)
    ensures (-x) * y == -(x * y) && x * (-y) == -(x * y)
  {
  }

  lemma DivBounds(x: nat, y: nat)
    requires y > 0
    ensures 0 <= (x / y) * y <= x < (x / y) * y + y
  {
    assert x == y * (x / y) + x % y;
    MulSign(x / y, y);
  }

  /** C++ `a / b` on `int`: the quotient truncated toward zero. */
  function TruncDiv(a: int, b: int): (q: int)
    requires b != 0
    ensures a >= 0 && b > 0 ==> q == a / b
    ensures a >= 0 && b < 0 ==> q == -(a / -b)
    ensures b == -1 ==> q == -a
    ensures b == 1 ==> q == a
  {
    var m := Abs(a) / Abs(b);
    if (a < 0) != (b < 0) then -m else m
  }

  /** `TruncDiv(a, b) * b` is `Abs(a) / Abs(b) * Abs(b)` with the sign of `a`. */
  lemma TruncDivTimesDivisor(a: int, b: int)
    requires b != 0
    ensures var p := (Abs(a) / Abs(b)) * Abs(b);
            TruncDiv(a, b) * b == (if a < 0 then -p else p)
  {
    var q := TruncDiv(a, b);
    var ab: int := Abs(b);
    var m: int := Abs(a) / ab;
    if a >= 0 && b > 0 {
      assert q == m && b == ab;
    } else if a >= 0 {
      assert q == -m && b == -ab;
      NegMul(m, b);
      NegMul(m, ab);
    } else if b > 0 {
      assert q == -m && b == ab;
      NegMul(m, b);
    } else {
      assert q == m && b == -ab;
      NegMul(m, ab);
    }
  }

  lemma SignedMultipleTowardZero(a: int, b: int, qb: int, p: int)
    requires 0 <= p <= Abs(a) < p + Abs(b)
    requires qb == (if a < 0 then -p else p)
    ensures Abs(qb) <= Abs(a) < Abs(qb) + Abs(b)
    ensures qb == 0 || (qb < 0 <==> a < 0)
  {
  }

  /**
   * `TruncDiv` rounds toward zero for every sign of `a` and `b`: `q * b` is
   * the multiple of `b` nearest to `a` on the side of zero.
   */
  lemma {:induction false} TruncDivTowardZero(a: int, b: int)
    requires b != 0
    ensures var q := TruncDiv(a, b);
            Abs(q * b) <= Abs(a) < Abs(q * b) + Abs(b) &&
            (q * b == 0 || (q * b < 0 <==> a < 0))
  {
    var p: int := (Abs(a) / Abs(b)) * Abs(b);
    DivBounds(Abs(a), Abs(b));
    TruncDivTimesDivisor(a, b);
    SignedMultipleTowardZero(a, b, TruncDiv(a, b) * b, p);
  }
}
