/** Retry delays. Durations are counted in nanoseconds. */
module Backoff {
  import opened Prelude

  const NANOS_PER_MILLI := 1_000_000
  const U128_MAX := 0xFFFF_FFFF_FFFF_FFFF_FFFF_FFFF_FFFF_FFFF

  /** A duration holds whole seconds that fit 64 bits and a fraction below one second. */
  type Duration = x: int | 0 <= x <= 0xFFFF_FFFF_FFFF_FFFF * 1_000_000_000 + 999_999_999

  function AsMillis(d: Duration): nat {
    d / NANOS_PER_MILLI
  }

  function FromMillis(ms: u64): Duration {
    ms * NANOS_PER_MILLI
  }

  function SaturatingMul128(a: nat, b: nat): nat {
    Min(a * b, U128_MAX)
  }

  function Pow(base: nat, exponent: nat): nat {
    if exponent == 0 then 1 else base * Pow(base, exponent - 1)
  }

  lemma Reassociate(b: nat, f: nat, p: nat)
    ensures b * (f * p) == (b * p) * f
  {
  }

  lemma MulLeq(a: nat, b: nat, c: nat, d: nat)
    requires a <= b && c <= d
    ensures a * c <= b * d
  {
    assert a * c <= a * d <= b * d;
  }

  datatype BackoffPolicy = BackoffPolicy(initial: Duration, maximum: Duration, multiplier: u32) {
    /** Zero multipliers are treated as one. */
    function Factor(): nat {
      Max(multiplier, 1)
    }

    /** The uncapped exponential, in milliseconds, starting no higher than the maximum. */
    function Exponential(attempt: nat): nat {
      Min(AsMillis(initial), AsMillis(maximum)) * Pow(Factor(), attempt)
    }

    /** Closed form of the delay, for every policy. */
    function DelayAt(attempt: nat): Duration {
      if attempt > 0 && Exponential(attempt) >= AsMillis(maximum) then maximum
      else FromMillis(Min(Exponential(attempt), U64_MAX))
    }

    /** The retry loop computes the closed form; the product it takes never saturates 128 bits, and with a
        multiplier of at least two it stops after about log2 of the maximum rounds. */
    method Delay(attempt: u32) returns (d: Duration, ghost rounds: nat)
      ensures d == DelayAt(attempt)
      ensures rounds <= attempt
      ensures multiplier >= 2 && AsMillis(initial) >= 1 && rounds > 1 ==> Pow(2, rounds - 1) < AsMillis(maximum)
    {
      var factor := Max(multiplier, 1);
      var limit := AsMillis(maximum);
      var milliseconds := Min(AsMillis(initial), limit);
      rounds := 0;
      for i := 0 to attempt
        invariant rounds == i && milliseconds == Exponential(i)
        invariant i > 0 ==> milliseconds < limit
      {
        Multiply(milliseconds, i);
        assert i > 0 ==> milliseconds * factor <= U128_MAX;
        milliseconds := SaturatingMul128(milliseconds, factor);
        rounds := rounds + 1;
        if milliseconds >= limit {
          ExponentialGrows(i + 1, attempt);
          if multiplier >= 2 && AsMillis(initial) >= 1 && rounds > 1 { DoublesAtLeast(i); }
          return maximum, rounds;
        }
      }
      if multiplier >= 2 && AsMillis(initial) >= 1 && rounds > 1 {
        ExponentialGrows(rounds - 1, rounds);
        DoublesAtLeast(rounds - 1);
      }
      d := FromMillis(Min(milliseconds, U64_MAX));
    }

    lemma Multiply(milliseconds: nat, i: nat)
      requires milliseconds == Exponential(i) && milliseconds <= AsMillis(maximum)
      ensures milliseconds * Factor() == Exponential(i + 1) <= U128_MAX
    {
      Reassociate(Min(AsMillis(initial), AsMillis(maximum)), Factor(), Pow(Factor(), i));
      assert milliseconds <= 0xFFFF_FFFF_FFFF_FFFF_FFFF;
      MulLeq(milliseconds, 0xFFFF_FFFF_FFFF_FFFF_FFFF, Factor(), 0xFFFF_FFFF);
    }

    lemma {:induction false} ExponentialGrows(m: nat, n: nat)
      requires m <= n
      ensures Exponential(m) <= Exponential(n)
      decreases n - m
    {
      if m < n {
        Reassociate(Min(AsMillis(initial), AsMillis(maximum)), Factor(), Pow(Factor(), m));
        MulLeq(Exponential(m), Exponential(m), 1, Factor());
        ExponentialGrows(m + 1, n);
      }
    }

    lemma {:induction false} DoublesAtLeast(n: nat)
      requires multiplier >= 2 && AsMillis(initial) >= 1 && AsMillis(maximum) >= 1
      ensures Pow(2, n) <= Exponential(n)
    {
      if n > 0 {
        DoublesAtLeast(n - 1);
        Reassociate(Min(AsMillis(initial), AsMillis(maximum)), Factor(), Pow(Factor(), n - 1));
        MulLeq(Exponential(n - 1), Exponential(n - 1), 2, Factor());
      }
    }

    /** Later attempts never wait less, and no attempt waits longer than the maximum. */
    lemma DelaysGrow(m: nat, n: nat)
      requires m <= n
      ensures DelayAt(m) <= DelayAt(n) <= maximum
    {
      ExponentialGrows(m, n);
    }

    /** For whole-millisecond durations that fit 64 bits the delay is the capped exponential. */
    lemma WholeMilliseconds(attempt: nat)
      requires initial % 1_000_000 == 0 && maximum % 1_000_000 == 0
      requires initial / 1_000_000 <= 0xFFFF_FFFF_FFFF_FFFF && maximum / 1_000_000 <= 0xFFFF_FFFF_FFFF_FFFF
      ensures DelayAt(attempt) == Min(maximum, initial * Pow(if multiplier == 0 then 1 else multiplier, attempt))
    {
      var i, m, p := AsMillis(initial), AsMillis(maximum), Pow(Factor(), attempt);
      PowPositive(Factor(), attempt);
      assert initial == i * NANOS_PER_MILLI && maximum == m * NANOS_PER_MILLI;
      Reassociate(p, NANOS_PER_MILLI, i);
      assert initial * p == (i * p) * NANOS_PER_MILLI;
      MulLeq(i, i, 1, p);
      MulLeq(m, m, 1, p);
    }

    lemma {:induction false} PowPositive(b: nat, n: nat)
      requires b >= 1
      ensures Pow(b, n) >= 1
    {
      if n > 0 {
        PowPositive(b, n - 1);
        assert b * Pow(b, n - 1) >= 1;
      }
    }
  }
}
