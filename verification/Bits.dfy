/**
 Python's bitwise operators on unbounded integers, in two's complement with infinitely many sign bits.
 Division and remainder by two are Dafny's, which floor for a positive divisor.
 */
module Bits {
  function Mag(x: int): nat { if x < 0 then -x - 1 else x }

  predicate Sign(x: int) { x == 0 || x == -1 }

  function And(x: int, y: int): int
    decreases Mag(x) + Mag(y)
  {
    if Sign(x) && Sign(y) then (if x == -1 && y == -1 then -1 else 0)
    else 2 * And(x / 2, y / 2) + (if x % 2 == 1 && y % 2 == 1 then 1 else 0)
  }

  function Or(x: int, y: int): int
    decreases Mag(x) + Mag(y)
  {
    if Sign(x) && Sign(y) then (if x == -1 || y == -1 then -1 else 0)
    else 2 * Or(x / 2, y / 2) + (if x % 2 == 1 || y % 2 == 1 then 1 else 0)
  }

  function Xor(x: int, y: int): int
    decreases Mag(x) + Mag(y)
  {
    if Sign(x) && Sign(y) then (if x == y then 0 else -1)
    else 2 * Xor(x / 2, y / 2) + (if x % 2 != y % 2 then 1 else 0)
  }

  function Pow2(n: nat): (p: int)
    ensures p > 0
  {
    if n == 0 then 1 else 2 * Pow2(n - 1)
  }

  function Shl(x: int, n: nat): int { x * Pow2(n) }

  function Shr(x: int, n: nat): int { x / Pow2(n) }

  lemma {:induction false} Pow2Sum(a: nat, b: nat)
    ensures Pow2(a + b) == Pow2(a) * Pow2(b)
    decreases a
  {
    if a > 0 { Pow2Sum(a - 1, b); }
  }

  /** Shifting by n + 1 is shifting the half by n. */
  lemma ShrStep(x: int, n: nat)
    ensures Shr(x, n + 1) == Shr(x / 2, n)
  {
    DivDiv(x, 2, Pow2(n));
  }

  lemma DivDiv(x: int, a: int, b: int)
    requires a > 0 && b > 0
    ensures a * b > 0 && x / (a * b) == (x / a) / b
  {
    var q, r := (x / a) / b, (x / a) % b;
    Regroup(a, b, q, r);
    OneLess(a, b);
    MulLe(a, r, b - 1);
    MulLe(a, 0, r);
    QuotientUnique(x, a * b, q, a * r + x % a);
  }

  lemma Regroup(a: int, b: int, q: int, r: int)
    ensures a * (b * q + r) == (a * b) * q + a * r
  {
  }

  lemma OneLess(a: int, b: int)
    requires a > 0 && b > 0
    ensures a * (b - 1) == a * b - a && a * b > 0
  {
  }

  lemma MulLe(a: int, x: int, y: int)
    requires a >= 0 && x <= y
    ensures a * x <= a * y
  {
  }

  lemma QuotientUnique(x: int, d: int, q: int, r: int)
    requires d > 0 && x == d * q + r && 0 <= r < d
    ensures x / d == q && x % d == r
  {
    var p, s := x / d, x % d;
    assert d * (p - q) == r - s;
    if p > q { MulLe(d, 1, p - q); assert false; }
    if p < q { MulLe(d, p - q, -1); assert false; }
  }

  lemma ShrShr(x: int, a: nat, b: nat)
    ensures Shr(Shr(x, a), b) == Shr(x, a + b)
  {
    Pow2Sum(a, b);
    DivDiv(x, Pow2(a), Pow2(b));
  }

  lemma RemainderStep(x: int, m: int)
    requires m > 0
    ensures x % (2 * m) == 2 * ((x / 2) % m) + x % 2
  {
    var q, r := (x / 2) / m, (x / 2) % m;
    assert x / 2 == m * q + r;
    assert x == (2 * m) * q + (2 * r + x % 2);
    QuotientUnique(x, 2 * m, q, 2 * r + x % 2);
  }

  lemma AndUnfolds(x: int, y: int)
    ensures And(x, y) == 2 * And(x / 2, y / 2) + (if x % 2 == 1 && y % 2 == 1 then 1 else 0)
  {
  }

  lemma OrUnfolds(x: int, y: int)
    ensures Or(x, y) == 2 * Or(x / 2, y / 2) + (if x % 2 == 1 || y % 2 == 1 then 1 else 0)
  {
  }

  lemma ShlStep(x: int, n: nat)
    ensures Shl(x, n + 1) == 2 * Shl(x, n) && Shl(x, n + 1) / 2 == Shl(x, n) && Shl(x, n + 1) % 2 == 0
  {
    assert Shl(x, n + 1) == 2 * Shl(x, n);
  }

  /** A mask of n ones takes the remainder. */
  lemma {:induction false} AndMask(x: int, n: nat)
    ensures And(x, Pow2(n) - 1) == x % Pow2(n)
    decreases n
  {
    if n == 0 {
      AndZero(x);
    } else {
      AndMask(x / 2, n - 1);
      MaskStep(x, Pow2(n - 1));
    }
  }

  /** A mask with one more bit keeps the lowest bit, and masks the half with one bit less. */
  lemma MaskStep(x: int, m: int)
    requires m > 0 && And(x / 2, m - 1) == (x / 2) % m
    ensures And(x, 2 * m - 1) == x % (2 * m)
  {
    AndUnfolds(x, 2 * m - 1);
    RemainderStep(x, m);
    hide And;
    assert (2 * m - 1) / 2 == m - 1 && (2 * m - 1) % 2 == 1;
  }

  lemma {:induction false} AndZero(x: int)
    ensures And(x, 0) == 0
    decreases Mag(x)
  {
    if !Sign(x) { AndZero(x / 2); }
  }

  /** The n-th bit. */
  lemma {:induction false} AndBit(x: int, n: nat)
    ensures And(x, Pow2(n)) == if Shr(x, n) % 2 == 1 then Pow2(n) else 0
    decreases n
  {
    if n == 0 {
      if !Sign(x) { AndZero(x / 2); }
      assert And(-1, 1) == 2 * And(-1, 0) + 1;
    } else {
      AndBit(x / 2, n - 1);
      ShrStep(x, n - 1);
      assert Pow2(n) / 2 == Pow2(n - 1) && Pow2(n) % 2 == 0;
    }
  }

  /** Or of a value below 2^n and a multiple of 2^n is their sum. */
  lemma {:induction false} OrDisjoint(low: int, high: int, n: nat)
    requires 0 <= low < Pow2(n) && high >= 0
    ensures Or(low, Shl(high, n)) == low + Shl(high, n)
    ensures Or(Shl(high, n), low) == low + Shl(high, n)
    decreases n
  {
    if n == 0 {
      OrZero(high);
    } else {
      OrDisjoint(low / 2, high, n - 1);
      ShlStep(high, n - 1);
      OrUnfolds(low, Shl(high, n));
      OrUnfolds(Shl(high, n), low);
    }
  }

  lemma {:induction false} OrZero(x: int)
    requires x >= 0
    ensures Or(x, 0) == x && Or(0, x) == x
    decreases x
  {
    if x > 0 { OrZero(x / 2); }
  }

  lemma {:induction false} XorZero(x: int)
    ensures Xor(x, 0) == x
    decreases Mag(x)
  {
    if !Sign(x) { XorZero(x / 2); }
  }

  lemma {:induction false} XorOnes(x: int)
    ensures Xor(x, -1) == -x - 1
    decreases Mag(x)
  {
    if !Sign(x) { XorOnes(x / 2); }
  }

  /** Values of the same sign combine to a value that is not negative. */
  lemma {:induction false} XorSameSign(x: int, y: int)
    requires x < 0 <==> y < 0
    ensures Xor(x, y) >= 0
    decreases Mag(x) + Mag(y)
  {
    if !(Sign(x) && Sign(y)) { XorSameSign(x / 2, y / 2); }
  }

  lemma {:induction false} XorCancels(x: int, y: int, z: int)
    ensures Xor(x, y) == Xor(x, z) <==> y == z
    decreases Mag(x) + Mag(y) + Mag(z)
  {
    if Sign(x) && Sign(y) && Sign(z) {
      assert x in {0, -1} && y in {0, -1} && z in {0, -1};
    } else {
      hide Xor;
      XorCancels(x / 2, y / 2, z / 2);
      XorUnfolds(x, y);
      XorUnfolds(x, z);
      HalfAndLowestBit(y, z);
      BitAndRest(Xor(x / 2, y / 2), Xor(x / 2, z / 2), if x % 2 != y % 2 then 1 else 0, if x % 2 != z % 2 then 1 else 0);
    }
  }

  lemma HalfAndLowestBit(y: int, z: int)
    ensures y == z <==> y / 2 == z / 2 && y % 2 == z % 2
  {
  }

  lemma BitAndRest(a: int, b: int, low: int, low': int)
    requires low in {0, 1} && low' in {0, 1}
    ensures 2 * a + low == 2 * b + low' <==> a == b && low == low'
  {
  }

  lemma XorUnfolds(x: int, y: int)
    ensures Xor(x, y) == 2 * Xor(x / 2, y / 2) + (if x % 2 != y % 2 then 1 else 0)
  {
  }
}
