/** The retry delay of the worker and outbox queues, computed by the kernel in machine
    integers: 64-bit signed inputs, a 32-bit shift count and 64-bit unsigned saturation. */
module Retry {

  const TWO32 := 0x1_0000_0000
  const TWO63 := 0x8000_0000_0000_0000
  const TWO64 := 0x1_0000_0000_0000_0000
  const SHIFT_CAP := 100_000

  type I64 = x: int | -TWO63 <= x < TWO63
  type U64 = x: int | 0 <= x < TWO64

  datatype RetryPolicy = RetryPolicy(maxOutboxAttempts: I64, baseRetryDelayMs: I64, maxRetryDelayMs: I64)

  function Pow2(n: nat): (p: nat)
    ensures p >= 1
  {
    if n == 0 then 1 else 2 * Pow2(n - 1)
  }

  function Min(a: int, b: int): int {
    if a <= b then a else b
  }

  /** `x as u64` on a signed 64-bit value. */
  function AsU64(x: I64): U64 {
    if x < 0 then x + TWO64 else x
  }

  /** `x as i64` on an unsigned 64-bit value. */
  function AsI64(x: U64): I64 {
    if x < TWO63 then x else x - TWO64
  }

  /** `x as u32` keeps the low 32 bits. */
  function AsU32(x: I64): (r: int)
    ensures 0 <= r < TWO32
  {
    x % TWO32
  }

  function SaturatingMul(a: U64, b: U64): U64 {
    var product := Mul(a, b);
    if product < TWO64 then product else TWO64 - 1
  }

  function Mul(a: nat, b: nat): (p: nat) {
    a * b
  }

  /** `1u64.checked_shl(n)`, with the all-ones word standing in for an overlong shift. */
  function ShiftOrMax(n: nat): U64 {
    if n < 64 then (Pow2Bound(n, 63); Pow2Of63(); Pow2(n)) else TWO64 - 1
  }

  function NextRetryDelayMs(attempts: I64, baseMs: I64, maxMs: I64): (delay: I64) {
    var exponent := if attempts > 0 then attempts - 1 else 0;
    var shift := ShiftOrMax(AsU32(exponent));
    var delay := SaturatingMul(AsU64(baseMs), Min(shift, SHIFT_CAP));
    AsI64(Min(delay, AsU64(maxMs)))
  }

  /** The delay over unbounded integers: exponential in the attempt, capped twice. */
  function IdealDelay(exponent: nat, baseMs: nat, maxMs: nat): nat {
    Min(maxMs, baseMs * Min(Pow2(exponent), SHIFT_CAP))
  }

  function Exponent(attempts: int): nat {
    if attempts > 0 then attempts - 1 else 0
  }

  lemma {:induction false} Pow2Bound(n: nat, m: nat)
    requires n <= m
    ensures Pow2(n) <= Pow2(m)
    decreases m - n
  {
    if n < m { Pow2Bound(n + 1, m); }
  }

  lemma Pow2Of16()
    ensures Pow2(16) == 0x1_0000
  {
    assert Pow2(4) == 16;
    assert Pow2(8) == 256;
    assert Pow2(12) == 4096;
  }

  lemma Pow2Of63()
    ensures Pow2(63) == TWO63
  {
    Pow2Of16();
    Pow2Sum(16, 16);
    Pow2Sum(32, 16);
    Pow2Sum(48, 15);
    assert Pow2(16) == 2 * Pow2(15);
  }

  lemma {:induction false} Pow2Sum(a: nat, b: nat)
    ensures Pow2(a + b) == Pow2(a) * Pow2(b)
  {
    if b > 0 {
      Pow2Sum(a, b - 1);
      assert Pow2(a + b) == 2 * Pow2(a + (b - 1));
    }
  }

  /** The cap of 100000 is reached from the 17th power on. */
  lemma CapFrom17(n: nat)
    ensures Pow2(n) >= SHIFT_CAP <==> n >= 17
  {
    Pow2Of16();
    assert Pow2(17) == 0x2_0000;
    if n >= 17 { Pow2Bound(17, n); } else { Pow2Bound(n, 16); }
  }

  /** The machine computation is the ideal delay of the 32-bit truncated exponent; no
      intermediate word ever overflows visibly. */
  lemma DelayOfTruncatedExponent(attempts: I64, baseMs: I64, maxMs: I64)
    requires baseMs >= 0 && maxMs >= 0
    ensures NextRetryDelayMs(attempts, baseMs, maxMs)
            == IdealDelay(AsU32(Exponent(attempts)), baseMs, maxMs)
  {
    var n := AsU32(Exponent(attempts));
    CapFrom17(n);
    assert Min(ShiftOrMax(n), SHIFT_CAP) == Min(Pow2(n), SHIFT_CAP);
    var factor := Min(Pow2(n), SHIFT_CAP);
    assert baseMs * factor >= 0;
  }

  /** Up to 2^32 attempts the machine delay is exactly the capped exponential. */
  lemma BackoffIsCappedExponential(attempts: I64, baseMs: I64, maxMs: I64)
    requires baseMs >= 0 && maxMs >= 0
    requires attempts <= TWO32
    ensures NextRetryDelayMs(attempts, baseMs, maxMs) == IdealDelay(Exponent(attempts), baseMs, maxMs)
    ensures 0 <= NextRetryDelayMs(attempts, baseMs, maxMs) <= maxMs
  {
    DelayOfTruncatedExponent(attempts, baseMs, maxMs);
  }

  lemma IdealDelayMonotone(m: nat, n: nat, baseMs: nat, maxMs: nat)
    requires m <= n
    ensures IdealDelay(m, baseMs, maxMs) <= IdealDelay(n, baseMs, maxMs) <= maxMs
  {
    Pow2Bound(m, n);
    var a, b := Min(Pow2(m), SHIFT_CAP), Min(Pow2(n), SHIFT_CAP);
    assert a <= b;
    assert baseMs * a <= baseMs * b;
  }

  /** Waiting never gets shorter with more attempts, up to 2^32 of them. */
  lemma BackoffMonotone(fewer: I64, more: I64, baseMs: I64, maxMs: I64)
    requires baseMs >= 0 && maxMs >= 0
    requires fewer <= more <= TWO32
    ensures NextRetryDelayMs(fewer, baseMs, maxMs) <= NextRetryDelayMs(more, baseMs, maxMs)
  {
    BackoffIsCappedExponential(fewer, baseMs, maxMs);
    BackoffIsCappedExponential(more, baseMs, maxMs);
    IdealDelayMonotone(Exponent(fewer), Exponent(more), baseMs, maxMs);
  }

  /** Past 2^32 attempts the shift count wraps. The delay still is the capped exponential
      exactly when the wrapped shift already saturates one of the two caps, or the base is
      zero. */
  lemma BackoffExactBeyondTwo32(attempts: I64, baseMs: I64, maxMs: I64)
    requires baseMs >= 0 && maxMs >= 0
    requires attempts > TWO32
    ensures NextRetryDelayMs(attempts, baseMs, maxMs) == IdealDelay(Exponent(attempts), baseMs, maxMs)
            <==> AsU32(attempts - 1) >= 17 || baseMs == 0 || baseMs * Pow2(AsU32(attempts - 1)) >= maxMs
  {
    DelayOfTruncatedExponent(attempts, baseMs, maxMs);
    var n := AsU32(attempts - 1);
    CapFrom17(attempts - 1);
    CapFrom17(n);
    if n < 17 {
      SmallerFactor(baseMs, Pow2(n), SHIFT_CAP, maxMs);
    }
  }

  lemma SmallerFactor(base: nat, p: nat, cap: nat, limit: nat)
    requires p < cap
    ensures Min(limit, base * p) == Min(limit, base * cap) <==> base == 0 || base * p >= limit
  {
  }

  /** The wrap is observable: attempt 2^32 + 1 waits as little as the first one. */
  lemma BackoffWrapWitness()
    ensures NextRetryDelayMs(TWO32 + 1, 1_000, 30_000) == 1_000
    ensures IdealDelay(Exponent(TWO32 + 1), 1_000, 30_000) == 30_000
  {
  }
}
