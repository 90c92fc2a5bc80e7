/** The reconnect delay of the watch loop: a left shift on int64, an overflow
    guard, a ceiling and a jitter draw. Durations are int64 nanoseconds, and the
    wrap-around of the machine word is written out. */
module Backoff {

  const TWO_TO_THE_63: int := 0x8000_0000_0000_0000
  const TWO_TO_THE_64: int := 0x1_0000_0000_0000_0000

  predicate Int64(x: int) {
    -TWO_TO_THE_63 <= x < TWO_TO_THE_63
  }

  /** The int64 that the machine keeps of an exact result. */
  function Wrap64(x: int): (w: int)
    ensures Int64(w)
    ensures (x - w) % TWO_TO_THE_64 == 0
    ensures Int64(x) ==> w == x
  {
    var m := x % TWO_TO_THE_64;
    if m < TWO_TO_THE_63 then m else m - TWO_TO_THE_64
  }

  function Pow2(n: nat): (p: nat)
    ensures p >= 1
  {
    if n == 0 then 1 else 2 * Pow2(n - 1)
  }

  function Min(a: int, b: int): int {
    if a <= b then a else b
  }

  function Max(a: int, b: int): int {
    if a <= b then b else a
  }

  /** The shifted and guarded exponent (`exp` in the source) before jitter. Go
      shifts by 64 or more to zero, which is what the wrapped product gives. */
  function GuardedShift(attempt: int, min: int, max: int): int {
    var n: nat := if attempt < 1 then 0 else attempt - 1;
    var exp := Wrap64(min * Pow2(n));
    if exp <= 0 || exp > max then max else exp
  }

  /** What one call may return. The source draws uniformly from the closed range;
      the draw itself panics when its int64 bound is not positive. */
  datatype Delay = Between(lo: int, hi: int) | Panics

  function Backoff(attempt: int, min: int, max: int): Delay {
    var exp := GuardedShift(attempt, min, max);
    if exp <= min then Between(min, min)
    else
      var bound := Wrap64(Wrap64(exp - min) + 1);
      if bound <= 0 then Panics else Between(min, min + bound - 1)
  }

  /** Exponential backoff over the integers: double per failed attempt, then stop at max. */
  function IdealCeiling(attempt: nat, min: int, max: int): int
    requires attempt >= 1
  {
    Min(min * Pow2(attempt - 1), max)
  }

  // ----- powers of two and wrap-around

  lemma {:induction false} Pow2Adds(a: nat, b: nat)
    ensures Pow2(a + b) == Pow2(a) * Pow2(b)
  {
    if b != 0 {
      Pow2Adds(a, b - 1);
      assert a + b - 1 == a + (b - 1);
    }
  }

  lemma {:induction false} Pow2Monotone(a: nat, b: nat)
    requires a <= b
    ensures Pow2(a) <= Pow2(b)
  {
    if a < b { Pow2Monotone(a, b - 1); }
  }

  lemma Pow2Of64()
    ensures Pow2(64) == TWO_TO_THE_64
  {
    assert Pow2(8) == 256;
    Pow2Adds(8, 8);
    Pow2Adds(16, 16);
    Pow2Adds(32, 32);
  }

  lemma MulAssoc(a: int, b: int, c: int)
    ensures (a * b) * c == a * (b * c)
  {
  }

  lemma WrapDropsWords(x: int) returns (c: int)
    ensures x - Wrap64(x) == c * TWO_TO_THE_64
  {
    c := (x - Wrap64(x)) / TWO_TO_THE_64;
  }

  lemma SubtractMultiples(x: int, w: int, q: int, c: int, a: int, b: int)
    requires x == q * b && x - w == c * (a * b)
    ensures w == (q - c * a) * b
  {
    MulAssoc(c, a, b);
  }

  lemma WrapOfWholeWords(x: int, c: int)
    requires x == c * TWO_TO_THE_64
    ensures Wrap64(x) == 0
  {
  }

  /** If x is a multiple of 2^j, so is what the machine keeps of it; from 2^64 on nothing is kept. */
  lemma WrapKeepsFactor(x: int, q: int, j: nat) returns (r: int)
    requires x == q * Pow2(j)
    ensures j < 64 ==> Wrap64(x) == r * Pow2(j)
    ensures j >= 64 ==> Wrap64(x) == 0
  {
    Pow2Of64();
    if j >= 64 {
      Pow2Adds(j - 64, 64);
      MulAssoc(q, Pow2(j - 64), TWO_TO_THE_64);
      WrapOfWholeWords(x, q * Pow2(j - 64));
      r := 0;
    } else {
      Pow2Adds(64 - j, j);
      var c := WrapDropsWords(x);
      SubtractMultiples(x, Wrap64(x), q, c, Pow2(64 - j), Pow2(j));
      r := q - c * Pow2(64 - j);
    }
  }

  lemma MulOrder(a: int, b: int, c: int)
    requires a > 0 && a * b < a * c
    ensures b < c
  {
  }

  lemma MulGrows(a: int, b: int, c: int)
    requires 0 <= a <= b && c >= 0
    ensures a * c <= b * c
  {
  }

  // ----- when the machine shift is the exponential

  /** Exactly when one guarded shift is the ideal ceiling: the product did not
      overflow, or the wrapped product was caught by the guard or met it. */
  lemma GuardExactness(attempt: nat, min: int, max: int)
    requires attempt >= 1
    requires 0 < min <= max && Int64(max)
    ensures GuardedShift(attempt, min, max) == IdealCeiling(attempt, min, max)
       <==> Int64(min * Pow2(attempt - 1))
            || Wrap64(min * Pow2(attempt - 1)) <= 0
            || max <= Wrap64(min * Pow2(attempt - 1))
  {
    assert min * Pow2(attempt - 1) >= min;
  }

  /** The guard alone is not enough: a minimum with a low bit set can wrap to a
      small positive number, and the ceiling falls back to the minimum. */
  lemma GuardMissesWrap()
    ensures var min := 0x4000_0000_0000_0001;
            && Int64(min)
            && IdealCeiling(3, min, min + 10) == min + 10
            && GuardedShift(3, min, min + 10) == 4
            && Backoff(3, min, min + 10) == Between(min, min)
  {
    assert Pow2(2) == 4;
    assert Wrap64(0x1_0000_0000_0000_0004) == 4;
  }

  /** Once the product overflows, the ceiling lies below the power of two that divides the product. */
  lemma OverflowClearsCeiling(min: int, max: int, p: int, f: int)
    requires 0 < min && min * p >= TWO_TO_THE_63 && f >= 1
    requires min * max < TWO_TO_THE_63 * f
    ensures max < f * p
  {
    MulGrows(TWO_TO_THE_63, min * p, f);
    MulAssoc(min, p, f);
    assert p * f == f * p;
    MulOrder(min, max, f * p);
  }

  lemma PositiveMultiple(w: int, r: int, p: int)
    requires w == r * p && w > 0 && p > 0
    ensures w >= p
  {
  }

  lemma OverflowIsCaught(x: int, q: int, j: nat, max: int)
    requires x == q * Pow2(j) && max < Pow2(j)
    ensures Wrap64(x) <= 0 || max < Wrap64(x)
  {
    var r := WrapKeepsFactor(x, q, j);
    if j < 64 && Wrap64(x) > 0 {
      PositiveMultiple(Wrap64(x), r, Pow2(j));
    }
  }

  lemma FactorOut(min: int, t: nat, n: nat) returns (q: int)
    requires min % Pow2(t) == 0
    ensures min * Pow2(n) == q * Pow2(t + n)
  {
    q := min / Pow2(t);
    assert min == q * Pow2(t);
    Pow2Adds(t, n);
    MulAssoc(q, Pow2(t), Pow2(n));
  }

  /** If 2^t divides min and min*max < 2^(63+t), the machine shift is the exponential for every attempt. */
  lemma ShiftIsExponential(attempt: nat, min: int, max: int, t: nat)
    requires attempt >= 1
    requires 0 < min <= max && Int64(max)
    requires min % Pow2(t) == 0
    requires min * max < TWO_TO_THE_63 * Pow2(t)
    ensures GuardedShift(attempt, min, max) == IdealCeiling(attempt, min, max)
  {
    var n: nat := attempt - 1;
    var q := FactorOut(min, t, n);
    if min * Pow2(n) >= TWO_TO_THE_63 {
      OverflowClearsCeiling(min, max, Pow2(n), Pow2(t));
      Pow2Adds(t, n);
      OverflowIsCaught(min * Pow2(n), q, t + n, max);
    } else {
      MulGrows(1, Pow2(n), min);
    }
    GuardExactness(attempt, min, max);
  }

  /** The defaults, one second and two minutes, are inside that condition. */
  lemma DefaultsAreExact(attempt: nat)
    requires attempt >= 1
    ensures GuardedShift(attempt, 1_000_000_000, 120_000_000_000)
         == IdealCeiling(attempt, 1_000_000_000, 120_000_000_000)
  {
    assert Pow2(9) == 512;
    ShiftIsExponential(attempt, 1_000_000_000, 120_000_000_000, 9);
  }

  lemma IdealEscalates(p: int, q: int, min: int, max: int)
    requires 1 <= p <= q && 0 < min <= max
    ensures min <= Min(min * p, max) <= Min(min * q, max) <= max
  {
    MulGrows(p, q, min);
    MulGrows(1, p, min);
  }

  /** Under the same condition the ceiling never falls as attempts accumulate, and stays at max once there. */
  lemma CeilingEscalates(a: nat, b: nat, min: int, max: int, t: nat)
    requires 1 <= a <= b
    requires 0 < min <= max && Int64(max)
    requires min % Pow2(t) == 0
    requires min * max < TWO_TO_THE_63 * Pow2(t)
    ensures min <= GuardedShift(a, min, max) <= GuardedShift(b, min, max) <= max
    ensures GuardedShift(a, min, max) == max ==> GuardedShift(b, min, max) == max
  {
    ShiftIsExponential(a, min, max, t);
    ShiftIsExponential(b, min, max, t);
    Pow2Monotone(a - 1, b - 1);
    IdealEscalates(Pow2(a - 1), Pow2(b - 1), min, max);
  }

  /** For every int64 min and max: the delay is never below min, never above both
      bounds, and the draw panics exactly when the jitter range does not fit in an int64. */
  lemma DelayBounds(attempt: int, min: int, max: int)
    requires Int64(min) && Int64(max)
    ensures var d := Backoff(attempt, min, max);
            && (d.Panics? <==> GuardedShift(attempt, min, max) - min >= TWO_TO_THE_63 - 1)
            && (d.Between? ==> d.lo == min && d.hi == Max(min, GuardedShift(attempt, min, max)))
            && (0 < min ==> d.Between?)
            && (d.Between? && min <= max ==> d.hi <= max)
  {
    var exp := GuardedShift(attempt, min, max);
    if exp > min {
      var diff := exp - min;
      assert 0 < diff < TWO_TO_THE_64;
    }
  }

  /** The range that one failure's delay is drawn from, where the machine shift is exact. */
  lemma DelayIsExponential(attempt: nat, min: int, max: int, t: nat)
    requires attempt >= 1
    requires 0 < min <= max && Int64(max)
    requires min % Pow2(t) == 0
    requires min * max < TWO_TO_THE_63 * Pow2(t)
    ensures Backoff(attempt, min, max) == Between(min, Min(min * Pow2(attempt - 1), max))
  {
    ShiftIsExponential(attempt, min, max, t);
    DelayBounds(attempt, min, max);
    IdealEscalates(Pow2(attempt - 1), Pow2(attempt - 1), min, max);
  }

  /** An attempt below one counts as the first. */
  lemma FirstAttemptIsOne(attempt: int, min: int, max: int)
    requires attempt < 1
    ensures Backoff(attempt, min, max) == Backoff(1, min, max)
  {
  }
}
