/**
 * The C integer semantics the firmware relies on: bit tests on masks,
 * conversions to the fixed-width types it stores values in (uint8_t,
 * int16_t, uint32_t), and C's truncating division and remainder, which
 * differ from Dafny's Euclidean `/` and `%` on negative operands.
 */
module CArith {

  /** A value of C type uint8_t. */
  type u8 = x: int | 0 <= x < 0x100

  /** A value of C type int16_t. */
  type i16 = x: int | -0x8000 <= x < 0x8000

  function Pow2(n: nat): (r: nat)
    ensures r > 0
  {
    if n == 0 then 1 else 2 * Pow2(n - 1)
  }

  function Abs(x: int): (r: nat)
    ensures r == x || r == -x
  {
    if x < 0 then -x else x
  }

  /**
   * Bit `i` of `x` read as two's complement. `x >> i` on a signed value is
   * an arithmetic shift on the firmware's target, i.e. floor division by
   * 2^i, which is what Dafny's `/` computes for a positive divisor.
   */
  predicate BitSet(x: int, i: nat)
  {
    (x / Pow2(i)) % 2 == 1
  }

  /** Division with remainder is unique (Euclidean form, positive divisor). */
  lemma DivUnique(m: int, d: int, q: int, r: int)
    requires d > 0 && 0 <= r < d && m == d * q + r
    ensures m / d == q && m % d == r
  {
    var q0, r0 := m / d, m % d;
    assert d * (q - q0) == r0 - r;
    if q > q0 {
      MulAtLeast(d, q - q0);
    } else if q < q0 {
      MulAtLeast(d, q0 - q);
    }
  }

  lemma MulAtLeast(d: int, k: int)
    requires d > 0 && k >= 1
    ensures d * k >= d
  {
  }

  /**
   * Shifting right one more position is dividing by one more power of two:
   * the loop `legmask = legmask >> 1` visits bit i of the original mask at
   * iteration i.
   */
  lemma ShiftRight(x: int, i: nat)
    ensures x / Pow2(i) / 2 == x / Pow2(i + 1)
  {
    var a := Pow2(i);
    var q, r := x / a, x % a;
    var q2, r2 := q / 2, q % 2;
    assert x == a * q + r;
    assert q == 2 * q2 + r2;
    assert x == (2 * a) * q2 + (a * r2 + r) by {
      assert a * q == a * (2 * q2 + r2) == (2 * a) * q2 + a * r2;
    }
    assert 0 <= a * r2 + r < 2 * a by {
      assert r2 == 0 || r2 == 1;
    }
    DivUnique(x, 2 * a, q2, a * r2 + r);
  }

  /** Conversion to uint8_t: reduction modulo 2^8. */
  function U8(x: int): (r: u8)
    ensures (x - r) % 0x100 == 0
    ensures 0 <= x < 0x100 ==> r == x
  {
    x % 0x100
  }

  /**
   * Conversion to int16_t: the representative of x modulo 2^16 in
   * [-2^15, 2^15), as the firmware's compiler wraps it.
   */
  function I16(x: int): (r: i16)
    ensures (x - r) % 0x1_0000 == 0
    ensures -0x8000 <= x < 0x8000 ==> r == x
  {
    (x + 0x8000) % 0x1_0000 - 0x8000
  }

  /** Conversion to uint32_t: reduction modulo 2^32. */
  function U32(x: int): (r: int)
    ensures 0 <= r < 0x1_0000_0000
    ensures (x - r) % 0x1_0000_0000 == 0
    ensures 0 <= x < 0x1_0000_0000 ==> r == x
  {
    x % 0x1_0000_0000
  }

  /**
   * C's `a / b`: the quotient truncated toward zero. The remainder it leaves,
   * `a - q * b`, is smaller than `b` in magnitude and has the sign of `a`.
   */
  function CDiv(a: int, b: int): (q: int)
    requires b != 0
    ensures Abs(a - q * b) < Abs(b)
    ensures a >= 0 ==> a - q * b >= 0
    ensures a <= 0 ==> a - q * b <= 0
  {
    var m := Abs(a) / Abs(b);
    var q := if (a >= 0) == (b > 0) then m else -m;
    CDivRemainder(a, b, m, q);
    q
  }

  lemma CDivRemainder(a: int, b: int, m: int, q: int)
    requires b != 0
    requires m == Abs(a) / Abs(b)
    requires q == if (a >= 0) == (b > 0) then m else -m
    ensures Abs(a - q * b) < Abs(b)
    ensures a >= 0 ==> a - q * b >= 0
    ensures a <= 0 ==> a - q * b <= 0
  {
    var A, B := Abs(a), Abs(b);
    var rm := A % B;
    assert A == B * m + rm && 0 <= rm < B;
    var mb := m * B;
    assert q * b == if a >= 0 then mb else -mb by {
      if b > 0 {
        assert B == b;
      } else {
        assert B == -b;
        assert q * b == (-q) * B;
      }
    }
  }

  /** C's `a % b`: what remains after the truncating quotient. */
  function CRem(a: int, b: int): (r: int)
    requires b != 0
    ensures a == CDiv(a, b) * b + r
    ensures Abs(r) < Abs(b)
    ensures a >= 0 ==> r >= 0
    ensures a <= 0 ==> r <= 0
  {
    a - CDiv(a, b) * b
  }
}
