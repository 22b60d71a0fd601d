/**
 * Exact decimal arithmetic used in place of floating point: scaling by a
 * power of ten with an integer exponent, `math.floor(math.log10(v))` and
 * Python's one-argument `round` (round half to even).
 */
module Decimal {

  /** 10^n for a natural n, as an integer; it agrees with the real power `Scale(1.0, n)`. */
  function Pow10Nat(n: nat): (r: nat)
    ensures r >= 1
    ensures r as real == Scale(1.0, n)
  {
    if n == 0 then 1 else 10 * Pow10Nat(n - 1)
  }

  /**
   * x * 10^e for any integer e: `x * 10**e`, and `x / 10**-e` for a negative
   * exponent. Defined by repeated multiplication or division by ten, so that
   * every fact about it is linear in x. Scaling keeps the sign.
   */
  function Scale(x: real, e: int): (r: real)
    ensures r > 0.0 <==> x > 0.0
    ensures r == 0.0 <==> x == 0.0
    ensures r < 0.0 <==> x < 0.0
    decreases if e >= 0 then e else -e
  {
    if e == 0 then x
    else if e > 0 then 10.0 * Scale(x, e - 1)
    else Scale(x, e + 1) / 10.0
  }

  /** 10^e as a real. */
  function Pow10(e: int): (r: real) {
    Scale(1.0, e)
  }

  lemma ScaleSucc(x: real, e: int)
    ensures Scale(x, e + 1) == 10.0 * Scale(x, e)
  {
  }

  /** Scaling by 10^a and then by 10^b is scaling by 10^(a+b). */
  lemma {:induction false} ScaleAdd(x: real, a: int, b: int)
    ensures Scale(Scale(x, a), b) == Scale(x, a + b)
    decreases if b >= 0 then b else -b
  {
    if b > 0 {
      ScaleAdd(x, a, b - 1);
      ScaleSucc(Scale(x, a), b - 1);
      ScaleSucc(x, a + b - 1);
    } else if b < 0 {
      ScaleAdd(x, a, b + 1);
      ScaleSucc(Scale(x, a), b);
      ScaleSucc(x, a + b);
    }
  }

  /** Scaling is strictly increasing in the scaled value. */
  lemma {:induction false} ScaleMonotone(x: real, y: real, e: int)
    ensures x <= y ==> Scale(x, e) <= Scale(y, e)
    ensures x < y ==> Scale(x, e) < Scale(y, e)
    decreases if e >= 0 then e else -e
  {
    if e > 0 {
      ScaleMonotone(x, y, e - 1);
    } else if e < 0 {
      ScaleMonotone(x, y, e + 1);
    }
  }

  /** Scaling distributes over subtraction. */
  lemma {:induction false} ScaleDiff(x: real, y: real, e: int)
    ensures Scale(x - y, e) == Scale(x, e) - Scale(y, e)
    decreases if e >= 0 then e else -e
  {
    if e > 0 {
      ScaleDiff(x, y, e - 1);
    } else if e < 0 {
      ScaleDiff(x, y, e + 1);
    }
  }

  lemma {:induction false} ScaleHalf(e: int)
    ensures Scale(0.5, e) == Pow10(e) / 2.0
    decreases if e >= 0 then e else -e
  {
    if e > 0 {
      ScaleHalf(e - 1);
    } else if e < 0 {
      ScaleHalf(e + 1);
    }
  }

  /** For a natural exponent, scaling an integer gives an integer. */
  lemma {:induction false} ScaleNat(m: int, n: nat)
    ensures Scale(m as real, n) == (m * Pow10Nat(n)) as real
  {
    if n > 0 {
      ScaleNat(m, n - 1);
      assert m * Pow10Nat(n) == 10 * (m * Pow10Nat(n - 1));
    }
  }

  /** For a negative exponent, scaling is division by a power of ten. */
  lemma {:induction false} ScaleDown(x: real, n: nat)
    ensures Scale(x, -(n as int)) == x / Pow10Nat(n) as real
  {
    if n > 0 {
      ScaleDown(x, n - 1);
      var p := Pow10Nat(n - 1) as real;
      assert Scale(x, -(n as int)) == (x / p) / 10.0;
      DivTen(x, p);
    }
  }

  /** Dividing by p and then by ten is dividing by ten times p. */
  lemma DivTen(x: real, p: real)
    requires p >= 1.0
    ensures (x / p) / 10.0 == x / (10.0 * p)
  {
  }

  lemma Pow10OfNat(n: nat)
    ensures Pow10(n) == Pow10Nat(n) as real
  {
    ScaleNat(1, n);
  }

  /** Powers of ten grow with the exponent. */
  lemma {:induction false} Pow10Monotone(a: int, b: int)
    requires a <= b
    ensures Pow10(a) <= Pow10(b)
    decreases b - a
  {
    if a < b {
      Pow10Monotone(a, b - 1);
      ScaleSucc(1.0, b - 1);
    }
  }

  /**
   * The decimal order of magnitude of a positive value, `math.floor(math.log10(v))`:
   * the integer k with 10^k <= v < 10^(k+1).
   */
  function FloorLog10(v: real): (k: int)
    requires v > 0.0
    ensures Pow10(k) <= v < Pow10(k + 1)
    decreases (if v >= 10.0 then v.Floor else 0), (if v < 1.0 then (1.0 / v).Floor else 0)
  {
    if v >= 10.0 then
      assert (v / 10.0).Floor < v.Floor;
      var k := FloorLog10(v / 10.0);
      ScaleSucc(1.0, k);
      ScaleSucc(1.0, k + 1);
      k + 1
    else if v < 1.0 then
      assert v * 10.0 < 1.0 ==> (1.0 / (v * 10.0)).Floor < (1.0 / v).Floor by {
        if v * 10.0 < 1.0 {
          assert 1.0 / (v * 10.0) == (1.0 / v) / 10.0;
          assert 1.0 / v > 10.0;
        }
      }
      assert (1.0 / v).Floor >= 1 by {
        assert 1.0 / v > 1.0;
      }
      var k := FloorLog10(v * 10.0);
      ScaleSucc(1.0, k - 1);
      ScaleSucc(1.0, k);
      k - 1
    else
      0
  }

  /** The order of magnitude is the only k with 10^k <= v < 10^(k+1). */
  lemma FloorLog10Unique(v: real, k: int)
    requires v > 0.0
    requires Pow10(k) <= v < Pow10(k + 1)
    ensures FloorLog10(v) == k
  {
    var j := FloorLog10(v);
    if j < k {
      Pow10Monotone(j + 1, k);
    } else if k < j {
      Pow10Monotone(k + 1, j);
    }
  }

  /** Python's `round(x)` on one argument: nearest integer, ties to even. */
  function RoundHalfEven(x: real): (n: int)
    ensures -0.5 <= x - n as real <= 0.5
    ensures x - n as real == 0.5 || n as real - x == 0.5 ==> n % 2 == 0
  {
    var f := x.Floor;
    var d := x - f as real;
    if d < 0.5 then f
    else if d > 0.5 then f + 1
    else if f % 2 == 0 then f
    else f + 1
  }

  /** No integer is nearer to x than RoundHalfEven(x), and on a tie no other even one. */
  lemma RoundHalfEvenNearest(x: real, m: int)
    ensures Abs(x - RoundHalfEven(x) as real) <= Abs(x - m as real)
    ensures Abs(x - RoundHalfEven(x) as real) == Abs(x - m as real) && m % 2 == 0 ==> m == RoundHalfEven(x)
  {
    var n := RoundHalfEven(x);
    if m < n {
      assert m as real <= n as real - 1.0;
    } else if m > n {
      assert m as real >= n as real + 1.0;
    }
  }

  /** Rounding an integer gives it back. */
  lemma RoundHalfEvenOfInt(m: int)
    ensures RoundHalfEven(m as real) == m
  {
    var n := RoundHalfEven(m as real);
    assert -1 < m - n < 1;
  }

  function Abs(x: real): (r: real) {
    if x < 0.0 then -x else x
  }
}
