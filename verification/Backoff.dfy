/**
 The two exponential back-offs, on int64 nanoseconds: Retry's in the workflow
 combinators and the outbox dispatcher's.
 */
module Backoff {
  import opened Int64

  function Pow2(n: nat): (p: nat)
    ensures p >= 1
  {
    if n == 0 then 1 else 2 * Pow2(n - 1)
  }

  function Min(a: int, b: int): int {
    if a <= b then a else b
  }

  /** The doubling loop: n doublings at most, stopping at the cap. */
  function Doubling(exp: int, cap: int, n: nat): int
    decreases n
  {
    if n == 0 then exp
    else
      var e := Wrap(2 * exp);
      if e > cap then cap else Doubling(e, cap, n - 1)
  }

  lemma PowStep(exp: int, n: nat)
    ensures exp * Pow2(n + 1) == (2 * exp) * Pow2(n)
  {
    assert exp * (2 * Pow2(n)) == (2 * exp) * Pow2(n);
  }

  lemma PowGrows(exp: int, n: nat)
    requires 0 < exp
    ensures exp <= exp * Pow2(n)
  {
    assert exp * (Pow2(n) - 1) >= 0;
  }

  /**
   The loop computes min(exp * 2^n, cap), except that an over-large start is
   returned as it is when nothing is doubled.
   */
  lemma {:induction false} DoublingIsCappedPower(exp: int, cap: int, n: nat)
    requires 0 < exp < HALF && 0 < cap < HALF
    ensures Doubling(exp, cap, n) == Min(exp * Pow2(n), cap) <==> (0 < n || exp <= cap)
    ensures 0 < Doubling(exp, cap, n) && (exp <= cap ==> Doubling(exp, cap, n) <= cap)
    decreases n
  {
    if n > 0 {
      PowStep(exp, n - 1);
      if 2 * exp > cap {
        PowGrows(2 * exp, n - 1);
      } else {
        DoublingIsCappedPower(2 * exp, cap, n - 1);
      }
    }
  }

  /**
   2^62 is the exact bound: below it the loop is the capped power for every
   start and every number of doublings; for every larger cap some doubling
   wraps to a negative delay.
   */
  lemma DoublingBoundIsSharp(cap: int)
    requires 0 < cap <= MAX
    ensures (forall exp: int, n: nat | 0 < exp <= cap :: Doubling(exp, cap, n) == Min(exp * Pow2(n), cap))
       <==> cap < HALF
    ensures HALF <= cap ==> Doubling(cap, cap, 1) < 0
  {
    if cap < HALF {
      forall exp: int, n: nat | 0 < exp <= cap
        ensures Doubling(exp, cap, n) == Min(exp * Pow2(n), cap)
      {
        DoublingIsCappedPower(exp, cap, n);
      }
    } else {
      assert Wrap(2 * cap) == 2 * cap - 0x1_0000_0000_0000_0000;
      assert Doubling(cap, cap, 1) == Wrap(2 * cap);
      PowGrows(cap, 1);
      assert Doubling(cap, cap, 1) != Min(cap * Pow2(1), cap);
    }
  }

  // ---------- workflow Retry ----------

  datatype RetryPolicy = RetryPolicy(maxAttempts: int, baseBackoff: int, maxBackoff: int)

  const MILLISECOND := 1_000_000

  /** What Retry makes of the policy it is given. */
  function Normalized(p: RetryPolicy): (q: RetryPolicy)
    ensures 1 <= q.maxAttempts && 0 < q.baseBackoff <= q.maxBackoff
    ensures 0 < p.maxAttempts && 0 < p.baseBackoff <= p.maxBackoff ==> q == p
    ensures (p.maxAttempts <= 0 ==> q.maxAttempts == 1) && (0 < p.maxAttempts ==> q.maxAttempts == p.maxAttempts)
    ensures q.baseBackoff == 1_000_000 || (0 < p.baseBackoff && q.baseBackoff == p.baseBackoff)
    ensures 0 < p.baseBackoff ==> q.baseBackoff == p.baseBackoff
    ensures q.maxBackoff == p.maxBackoff || (p.maxBackoff < q.baseBackoff && q.maxBackoff == q.baseBackoff)
  {
    var base := if p.baseBackoff <= 0 then MILLISECOND else p.baseBackoff;
    RetryPolicy(
      if p.maxAttempts <= 0 then 1 else p.maxAttempts,
      base,
      if p.maxBackoff <= 0 || p.maxBackoff < base then base else p.maxBackoff)
  }

  /** draw(n) is the random source's integer below n. */
  predicate IsDraw(draw: int -> int, n: int) {
    0 < n ==> 0 <= draw(n) < n
  }

  /**
   For any policy whose cap stays below 2^62 the delay lies between half of
   and all of min(base * 2^(attempt-1), cap), so the final clamp never acts.
   */
  method RetryBackoff(p: RetryPolicy, attempt: nat, draw: int -> int) returns (delay: int, clamped: bool)
    requires 1 <= attempt
    requires IsDraw(draw, Doubling(p.baseBackoff, p.maxBackoff, attempt - 1) / 2 + 1)
    ensures 0 < p.baseBackoff <= p.maxBackoff < HALF ==>
      var full := Min(p.baseBackoff * Pow2(attempt - 1), p.maxBackoff);
      full / 2 <= delay <= full && !clamped && delay == full / 2 + draw(full / 2 + 1)
  {
    var exp := p.baseBackoff;
    var i := 1;
    while i < attempt
      invariant 1 <= i <= attempt
      invariant Doubling(p.baseBackoff, p.maxBackoff, attempt - 1) == Doubling(exp, p.maxBackoff, attempt - i)
    {
      exp := Wrap(2 * exp);
      if exp > p.maxBackoff {
        exp := p.maxBackoff;
        break;
      }
      i := i + 1;
    }
    assert exp == Doubling(p.baseBackoff, p.maxBackoff, attempt - 1);
    if 0 < p.baseBackoff <= p.maxBackoff < HALF {
      DoublingIsCappedPower(p.baseBackoff, p.maxBackoff, attempt - 1);
    }
    var half := GoDiv(exp, 2);
    var jitter := draw(half + 1);
    delay := Wrap(half + jitter);
    clamped := delay > p.maxBackoff;
    if clamped {
      delay := p.maxBackoff;
    }
  }

  // ---------- outbox dispatcher ----------

  /** Conversion of a float to an integer drops the fraction. */
  function Truncated(x: real): int {
    if x >= 0.0 then x.Floor else -((-x).Floor)
  }

  /**
   u is the random draw in [0, 1).  For a base and a cap below 2^62 the delay
   is within 20% of min(base * 2^attempts, cap), up to the dropped fraction of
   a nanosecond; the first attempt waits by the base even above the cap.  The
   draw decides the delay within these bounds linearly.
   */
  method OutboxBackoff(base: int, cap: int, attempts: nat, u: real) returns (delay: int)
    requires 0.0 <= u < 1.0
    ensures 0 < base < HALF && 0 < cap < HALF ==>
      var full := if attempts == 0 then base else Min(base * Pow2(attempts), cap);
      && 8 * full - 10 < 10 * delay < 12 * full
      && IsJittered(full, u, delay)
  {
    var backoff := base;
    var i := 0;
    while i < attempts
      invariant i <= attempts
      invariant Doubling(base, cap, attempts) == Doubling(backoff, cap, attempts - i)
    {
      backoff := Wrap(2 * backoff);
      if backoff > cap {
        backoff := cap;
        break;
      }
      i := i + 1;
    }
    assert backoff == Doubling(base, cap, attempts);
    if 0 < base < HALF && 0 < cap < HALF {
      DoublingIsCappedPower(base, cap, attempts);
    }
    JitterBounds(backoff, u);
    delay := Jittered(backoff, u);
    if delay < 0 {
      delay := base;
    }
  }

  /** 0.8 of the delay at u = 0, rising to 1.2 of it, without the fraction of a nanosecond. */
  ghost predicate IsJittered(full: int, u: real, delay: int) {
    delay as real <= full as real * (0.8 + 0.4 * u) < delay as real + 1.0
  }

  /** The delay moved by a uniform amount between minus and plus a fifth. */
  function Moved(b: real, u: real): real {
    var jitter := b * 0.2;
    var delta := u * 2.0 * jitter - jitter;
    b + delta
  }

  function Jittered(b: int, u: real): int {
    Truncated(Moved(b as real, u))
  }

  lemma JitterBounds(b: int, u: real)
    requires 0.0 <= u < 1.0
    ensures 0 < b ==> 0 <= Jittered(b, u) && 8 * b - 10 < 10 * Jittered(b, u) < 12 * b
    ensures 0 < b ==> IsJittered(b, u, Jittered(b, u))
  {
    if 0 < b {
      MovedIsLinear(b as real, u);
      TruncatedNear(b, Moved(b as real, u));
    }
  }

  lemma TruncatedNear(b: int, x: real)
    requires 0 < b && b as real * 0.8 <= x < b as real * 1.2
    ensures x - 1.0 < Truncated(x) as real <= x
    ensures 0 <= Truncated(x) && 8 * b - 10 < 10 * Truncated(x) < 12 * b
  {
  }

  lemma MovedIsLinear(b: real, u: real)
    requires 0.0 <= u < 1.0 && 0.0 < b
    ensures Moved(b, u) == b * (0.8 + 0.4 * u) && b * 0.8 <= Moved(b, u) < b * 1.2
  {
    ScaleDown(u, b);
    var p := u * b;
    assert u * 2.0 * (b * 0.2) == 0.4 * p;
    assert b * (0.8 + 0.4 * u) == b * 0.8 + 0.4 * p;
  }

  lemma ScaleDown(u: real, x: real)
    requires 0.0 <= u < 1.0 && 0.0 < x
    ensures 0.0 <= u * x < x
  {
    assert (1.0 - u) * x > 0.0;
  }
}
