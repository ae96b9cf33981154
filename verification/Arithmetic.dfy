/** Facts about quotients, remainders and powers of two. */
module Arithmetic {
  function Min(x: nat, y: nat): nat { if x < y then x else y }
  function Max(x: nat, y: int): nat { if x < y then y else x }
  function Mod(x: int, d: int): int { if d > 0 then x % d else 0 }

  /** C's division of integers, which rounds toward zero. */
  function Quotient(a: int, b: nat): int
    requires b > 0
  {
    if a >= 0 then a / b else -(-a / b)
  }

  function Remainder(a: int, b: nat): int
    requires b > 0
  {
    a - Quotient(a, b) * b
  }

  lemma MultipleIsFar(k: int, d: int)
    requires d > 0
    ensures k >= 1 ==> k * d >= d
    ensures k <= -1 ==> k * d <= -d
  {
  }

  lemma DivModUnique(x: int, d: int, q: int, r: int)
    requires d > 0 && x == q * d + r && 0 <= r < d
    ensures x / d == q && x % d == r
  {
    var k := x / d - q;
    assert x == (x / d) * d + x % d;
    assert k * d == r - x % d by { assert (q + k) * d == q * d + k * d; }
    MultipleIsFar(k, d);
  }

  lemma ModShift(x: int, k: int, d: int)
    requires d > 0
    ensures (x + k * d) % d == x % d
  {
    assert x + k * d == (x / d + k) * d + x % d by { assert (x / d + k) * d == (x / d) * d + k * d; }
    DivModUnique(x + k * d, d, x / d + k, x % d);
  }

  lemma ModOfModSum(x: int, y: int, d: int)
    requires d > 0
    ensures (x % d + y) % d == (x + y) % d
  {
    ModShift(x % d + y, x / d, d);
    assert x % d + y + (x / d) * d == x + y;
  }

  lemma RemaindersDiffer(x: int, y: int, d: int)
    requires d > 0 && x < y < x + d
    ensures x % d != y % d
  {
    var k := y / d - x / d;
    assert x == (x / d) * d + x % d && y == (y / d) * d + y % d;
    assert k * d == (y / d) * d - (x / d) * d;
    MultipleIsFar(k, d);
  }

  predicate IsPowerOfTwo(n: int)
    decreases n
  {
    n == 1 || (n > 1 && n % 2 == 0 && IsPowerOfTwo(n / 2))
  }

  lemma {:induction false} PowersDivide(n: int, m: int)
    requires IsPowerOfTwo(n) && IsPowerOfTwo(m) && n <= m
    ensures m % n == 0
  {
    if n == 1 {
    } else {
      PowersDivide(n / 2, m / 2);
      var q := (m / 2) / (n / 2);
      assert m / 2 == q * (n / 2) && n == 2 * (n / 2) && m == 2 * (m / 2);
      DivModUnique(m, n, q, 0);
    }
  }

  lemma PowerTimes2(n: int)
    requires IsPowerOfTwo(n)
    ensures IsPowerOfTwo(2 * n)
  {
    assert 2 * n % 2 == 0 && 2 * n / 2 == n;
  }

  lemma PowerTimes16(n: int)
    requires IsPowerOfTwo(n)
    ensures IsPowerOfTwo(16 * n)
  {
    PowerTimes2(n);
    PowerTimes2(2 * n);
    PowerTimes2(4 * n);
    PowerTimes2(8 * n);
  }

  lemma PowerTimes256(n: int)
    requires IsPowerOfTwo(n)
    ensures IsPowerOfTwo(256 * n)
  {
    PowerTimes16(n);
    PowerTimes16(16 * n);
  }

  function Pow2(n: nat): (p: nat)
    ensures p > 0
  {
    if n == 0 then 1 else 2 * Pow2(n - 1)
  }

  lemma {:induction false} PowerNotTens(n: nat)
    ensures Pow2(n) % 5 != 0
  {
    if n > 0 { PowerNotTens(n - 1); }
  }

  /** The number from lo on, within one period, that x is a whole number of periods away from. */
  function Within(x: int, lo: int, period: nat): (w: int)
    requires period > 0
    ensures lo <= w < lo + period
  {
    (x - lo) % period + lo
  }

  lemma OnePeriodAway(x: int, lo: int, period: nat)
    requires period > 0 && lo <= x - period < lo + period
    ensures Within(x, lo, period) == x - period
  {
    assert x - lo == 1 * period + (x - period - lo);
    DivModUnique(x - lo, period, 1, x - period - lo);
  }

  /** The bits that two numbers share: `a & b`. */
  function And(a: nat, b: nat): nat {
    if a == 0 || b == 0 then 0
    else 2 * And(a / 2, b / 2) + (if a % 2 == 1 && b % 2 == 1 then 1 else 0)
  }

  lemma RemainderByDouble(x: nat, h: nat)
    requires h > 0
    ensures x % (2 * h) == 2 * (x / 2 % h) + x % 2
  {
    var q, r := x / 2 / h, x / 2 % h;
    assert x / 2 == q * h + r;
    assert q * (2 * h) == 2 * (q * h);
    DivModUnique(x, 2 * h, q, 2 * r + x % 2);
  }

  /** Masking with a power of two less one is the remainder. */
  lemma {:induction false} MaskIsRemainder(x: nat, n: nat)
    requires IsPowerOfTwo(n)
    ensures And(x, n - 1) == x % n
    decreases n
  {
    if n == 1 {
    } else {
      var h := n / 2;
      assert n - 1 == 2 * (h - 1) + 1;
      MaskIsRemainder(x / 2, h);
      RemainderByDouble(x, h);
    }
  }
}
