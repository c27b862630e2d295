/** Bitwise arithmetic on naturals, and rounding up to a power of two (cache.go). */
module Bits {

  const U64: nat := 0x1_0000_0000_0000_0000

  function Pow2(k: nat): (r: nat)
    ensures r >= 1
  {
    if k == 0 then 1 else 2 * Pow2(k - 1)
  }

  function BitAnd(x: nat, y: nat): nat
    decreases x
  {
    if x == 0 || y == 0 then 0 else 2 * BitAnd(x / 2, y / 2) + (x % 2) * (y % 2)
  }

  function BitOr(x: nat, y: nat): nat
    decreases x + y
  {
    if x == 0 then y
    else if y == 0 then x
    else 2 * BitOr(x / 2, y / 2) + if x % 2 == 1 || y % 2 == 1 then 1 else 0
  }

  function ShiftRight(x: nat, k: nat): nat {
    if k == 0 then x else ShiftRight(x / 2, k - 1)
  }

  function ShiftLeft(x: nat, k: nat): nat {
    if k == 0 then x else 2 * ShiftLeft(x, k - 1)
  }

  ghost predicate IsPowerOfTwo(n: nat) {
    exists k: nat :: n == Pow2(k)
  }

  lemma {:induction false} Pow2Monotonic(a: nat, b: nat)
    requires a <= b
    ensures Pow2(a) <= Pow2(b)
    decreases b
  {
    if a < b {
      Pow2Monotonic(a, b - 1);
    }
  }

  lemma {:induction false} Pow2Add(a: nat, b: nat)
    ensures Pow2(a + b) == Pow2(a) * Pow2(b)
    decreases b
  {
    if b > 0 {
      Pow2Add(a, b - 1);
    }
  }

  /** Masking with a power of two less one is the remainder. */
  lemma {:induction false} MaskIsModulo(x: nat, k: nat)
    ensures BitAnd(x, Pow2(k) - 1) == x % Pow2(k)
    decreases k
  {
    hide BitAnd;
    if k > 0 {
      MaskIsModulo(x / 2, k - 1);
      MaskStep(x, Pow2(k - 1));
    } else {
      AndZero(x);
    }
  }

  lemma MaskStep(x: nat, p: nat)
    requires p > 0 && BitAnd(x / 2, p - 1) == x / 2 % p
    ensures BitAnd(x, 2 * p - 1) == x % (2 * p)
  {
    hide BitAnd;
    Halves(x, p);
    AndOnes(x, p);
  }

  lemma AndZero(x: nat)
    ensures BitAnd(x, 0) == 0
  {
  }

  /** Masking with an odd number keeps the lowest bit. */
  lemma AndOnes(x: nat, p: nat)
    requires p > 0
    ensures BitAnd(x, 2 * p - 1) == 2 * BitAnd(x / 2, p - 1) + x % 2
  {
    var y := 2 * p - 1;
    assert y / 2 == p - 1 && y % 2 == 1;
  }

  /** Dividing by `2 * p` is dividing by 2 and then by `p`. */
  lemma Halves(x: nat, p: nat)
    requires p > 0
    ensures x / (2 * p) == x / 2 / p
    ensures x % (2 * p) == 2 * (x / 2 % p) + x % 2
  {
    var q, r := x / 2 / p, x / 2 % p;
    assert x / 2 == q * p + r;
    Regroup(q, p);
    DivModUnique(x, 2 * p, q, 2 * r + x % 2);
  }

  lemma Regroup(q: nat, p: nat)
    ensures q * (2 * p) == 2 * (q * p)
  {
  }

  lemma DivModUnique(x: nat, d: nat, q: nat, r: nat)
    requires d > 0 && r < d && x == q * d + r
    ensures x / d == q && x % d == r
  {
    var q' := x / d;
    assert x == q' * d + x % d;
    if q' < q {
      MultiplesApart(q', q, d);
      assert false;
    } else if q < q' {
      MultiplesApart(q, q', d);
      assert false;
    }
  }

  lemma MultiplesApart(a: nat, b: nat, d: nat)
    requires a < b
    ensures a * d + d <= b * d
  {
    assert (b - a) * d == b * d - a * d;
    assert (b - a - 1) * d >= 0;
  }

  lemma OrHalves(x: nat, y: nat)
    ensures BitOr(x, y) / 2 == BitOr(x / 2, y / 2)
    ensures BitOr(x, y) % 2 == 1 <==> x % 2 == 1 || y % 2 == 1
  {
  }

  /** Or-ing below the d-th bit leaves the high part alone and loses no bit of `y`. */
  lemma {:induction false} OrBelow(hi: nat, lo: nat, y: nat, d: nat)
    requires lo < Pow2(d) && y < Pow2(d)
    ensures BitOr(ShiftLeft(hi, d) + lo, y) == ShiftLeft(hi, d) + BitOr(lo, y)
    ensures y <= BitOr(lo, y) < Pow2(d)
    decreases d
  {
    hide BitOr;
    if d > 0 {
      OrBelow(hi, lo / 2, y / 2, d - 1);
      OrHalves(ShiftLeft(hi, d) + lo, y);
      OrHalves(lo, y);
    } else {
      OrZero(ShiftLeft(hi, d));
      OrZero(0);
    }
  }

  lemma {:induction false} OrCommutes(x: nat, y: nat)
    ensures BitOr(x, y) == BitOr(y, x)
    decreases x
  {
    if x != 0 && y != 0 {
      OrCommutes(x / 2, y / 2);
    }
  }

  /** The or of fields that do not overlap is their sum. */
  lemma OrIsSum(lo: nat, hi: nat, d: nat)
    requires lo < Pow2(d)
    ensures BitOr(lo, ShiftLeft(hi, d)) == lo + ShiftLeft(hi, d)
  {
    OrBelow(hi, 0, lo, d);
    OrCommutes(lo, ShiftLeft(hi, d));
  }

  lemma {:induction false} ShiftLeftIsTimes(x: nat, k: nat)
    ensures ShiftLeft(x, k) == x * Pow2(k)
  {
    if k > 0 {
      ShiftLeftIsTimes(x, k - 1);
      Regroup(x, Pow2(k - 1));
    }
  }

  lemma {:induction false} ShiftRightIsDiv(x: nat, k: nat)
    ensures ShiftRight(x, k) == x / Pow2(k)
  {
    if k > 0 {
      ShiftRightIsDiv(x / 2, k - 1);
      Halves(x, Pow2(k - 1));
    }
  }

  lemma {:induction false} ShiftOnes(f: nat, d: nat)
    ensures ShiftLeft(Pow2(f) - 1, d) == Pow2(f + d) - Pow2(d)
    decreases d
  {
    if d > 0 {
      ShiftOnes(f, d - 1);
      assert Pow2(f + d) == 2 * Pow2(f + d - 1);
    }
  }

  /** Shifting right moves bounds given by powers of two. */
  lemma {:induction false} ShiftedBounds(x: nat, a: nat, b: nat, j: nat)
    requires j <= a && b <= a && Pow2(a) - Pow2(b) <= x < Pow2(a)
    ensures Pow2(a - j) - Pow2(if j <= b then b - j else 0) <= ShiftRight(x, j) < Pow2(a - j)
    decreases j
  {
    if j > 0 {
      ShiftedBounds(x / 2, a - 1, if b > 0 then b - 1 else 0, j - 1);
    }
  }

  lemma {:induction false} ShiftedOut(x: nat, k: nat, j: nat)
    requires x < Pow2(k) && k <= j
    ensures ShiftRight(x, j) == 0
    decreases j
  {
    if j > 0 {
      ShiftedOut(x / 2, if k > 0 then k - 1 else 0, j - 1);
    }
  }

  /** `m` has k bits, the top `f` of them (or all) set. */
  ghost predicate TopOnes(m: nat, k: nat, f: nat) {
    Pow2(k) - Pow2(if f <= k then k - f else 0) <= m < Pow2(k)
  }

  lemma OrZero(x: nat)
    ensures BitOr(x, 0) == x
  {
  }

  /** One smearing step doubles the run of ones at the top. */
  lemma SmearStep(m: nat, k: nat, f: nat)
    requires TopOnes(m, k, f)
    ensures TopOnes(BitOr(m, ShiftRight(m, f)), k, 2 * f)
  {
    hide BitOr, ShiftLeft, ShiftRight, Pow2;
    if f >= k {
      ShiftedOut(m, k, f);
      OrZero(m);
    } else {
      var d := k - f;
      ShiftedBounds(m, k, d, f);
      ShiftOnes(f, d);
      OrBelow(Pow2(f) - 1, m - ShiftLeft(Pow2(f) - 1, d), ShiftRight(m, f), d);
    }
  }

  lemma {:induction false} BitLength(m: nat, bound: nat) returns (k: nat)
    requires 1 <= m < Pow2(bound)
    ensures 1 <= k <= bound && Pow2(k - 1) <= m < Pow2(k)
    decreases bound
  {
    if Pow2(bound - 1) <= m {
      k := bound;
    } else {
      k := BitLength(m, bound - 1);
    }
  }

  /** The least power of two that is at least `n`. */
  method NextPowerOfTwo(n: int) returns (r: nat)
    requires n <= Pow2(62)
    ensures IsPowerOfTwo(r) && n <= r
    ensures forall k: nat :: n <= Pow2(k) ==> r <= Pow2(k)
  {
    hide BitOr, ShiftRight, Pow2;
    PowFacts(0);
    if n <= 1 {
      return 1;
    }
    var m: nat := n - 1;
    ghost var k := BitLength(m, 62);
    PowFacts(k);
    SmearStep(m, k, 1);
    m := BitOr(m, ShiftRight(m, 1));
    SmearStep(m, k, 2);
    m := BitOr(m, ShiftRight(m, 2));
    SmearStep(m, k, 4);
    m := BitOr(m, ShiftRight(m, 4));
    SmearStep(m, k, 8);
    m := BitOr(m, ShiftRight(m, 8));
    SmearStep(m, k, 16);
    m := BitOr(m, ShiftRight(m, 16));
    SmearStep(m, k, 32);
    m := BitOr(m, ShiftRight(m, 32));
    assert m == Pow2(k) - 1;
    r := m + 1;
    forall j: nat | n <= Pow2(j)
      ensures r <= Pow2(j)
    {
      if j < k {
        Pow2Monotonic(j, k - 1);
      } else {
        Pow2Monotonic(k, j);
      }
    }
  }

  lemma PowFacts(k: nat)
    ensures Pow2(0) == 1 && (k > 0 ==> Pow2(k) == 2 * Pow2(k - 1))
  {
  }
}
