/** Reconnect delays: saturating exponential growth with bounded jitter. */
module Backoff {
  import opened Prelude

  const NANOS_PER_MILLI: nat := 1_000_000
  const DURATION_MAX: nat := 0x1_0000_0000_0000_0000 * 1_000_000_000 - 1

  /** A `std::time::Duration` in nanoseconds. */
  type Duration = n: nat | n <= DURATION_MAX

  datatype ReconnectPolicy = ReconnectPolicy(
    baseDelay: Duration, maxDelay: Duration, jitterPercent: nat, maxAttempts: Option<U32>, resetAfter: Duration)

  predicate LimitReached(policy: ReconnectPolicy, attempt: U32) {
    policy.maxAttempts.Some? && attempt >= policy.maxAttempts.value
  }

  function SatInc32(a: U32): U32 {
    Min(a + 1, U32_MAX)
  }

  function Pow2(e: nat): nat {
    if e == 0 then 1 else 2 * Pow2(e - 1)
  }

  /** `duration.saturating_mul(multiplier)`. */
  function Scaled(d: Duration, multiplier: nat): Duration {
    Min(d * multiplier, DURATION_MAX)
  }

  /** `u64::try_from(duration.as_millis()).unwrap_or(u64::MAX)`. */
  function Millis(d: Duration): U64 {
    Min(d / NANOS_PER_MILLI, U64_MAX)
  }

  /** The delay before jitter. */
  function BaseDelay(policy: ReconnectPolicy, attempt: U32): Duration {
    Min(Scaled(policy.baseDelay, Pow2(Min(attempt, 31))), policy.maxDelay)
  }

  /** How far jitter may move the delay, in milliseconds. */
  function Span(policy: ReconnectPolicy, attempt: U32): U64 {
    Min(Millis(BaseDelay(policy, attempt)) * Min(policy.jitterPercent, 100), U64_MAX) / 100
  }

  function Xorshift(r: bv64): bv64 {
    var a := r ^ (r << 13);
    var b := a ^ (a >> 7);
    b ^ (b << 17)
  }

  function Word(r: bv64): nat {
    r as nat
  }

  /** The generator is the shift register of its three shifts, bit by bit. */
  lemma XorshiftKnown()
    ensures Xorshift(1) == 0x4082_2041
    ensures Xorshift(2) == 0x8104_4082
  {
  }

  /** The generator keeps a nonzero state, so jitter never degenerates to one fixed offset. */
  lemma XorshiftKeepsNonzero(r: bv64)
    ensures Xorshift(r) == 0 <==> r == 0
  {
  }

  /** A whole number of milliseconds within the span, or the cap if it cuts such a number short. */
  ghost predicate InSpan(millis: nat, span: nat, cap: Duration, delay: Duration) {
    || (delay == cap && cap <= (millis + span) * NANOS_PER_MILLI)
    || (delay % NANOS_PER_MILLI == 0 && millis - span <= delay / NANOS_PER_MILLI <= millis + span)
  }

  /** Within the span of the base, in whole milliseconds, unless the cap or a zero span decides. */
  ghost predicate Near(base: Duration, span: nat, cap: Duration, delay: Duration) {
    if span == 0 then delay == base
    else delay <= cap && InSpan(Millis(base), span, cap, delay)
  }

  /** The word, counted off in turns of the span's `2 * span + 1` numbers, ends at `picked`. */
  ghost predicate Picks(random: nat, span: nat, turns: nat, picked: nat) {
    random == turns * (2 * span + 1) + picked && picked <= 2 * span
  }

  /** The delay that a random word draws: the number it ends at, above the lower end of the span, up to the cap. */
  ghost predicate Drawn(base: Duration, span: nat, cap: Duration, random: nat, delay: Duration) {
    span > 0 ==> exists turns, picked ::
      Picks(random, span, turns, picked) &&
      delay == Min(SatAdd(SatSub(Millis(base), span), picked) * NANOS_PER_MILLI, cap)
  }

  lemma {:induction false} MoreTurns(fewer: nat, more: nat, width: nat)
    requires fewer < more
    ensures more * width >= fewer * width + width
    decreases more
  {
    var less := more - 1;
    assert more * width == less * width + width;
    if fewer < less {
      MoreTurns(fewer, less, width);
    }
  }

  lemma PicksOne(random: nat, span: nat, i: nat, p: nat, j: nat, q: nat)
    requires Picks(random, span, i, p) && Picks(random, span, j, q)
    ensures p == q
  {
    if i < j {
      MoreTurns(i, j, 2 * span + 1);
    } else if j < i {
      MoreTurns(j, i, 2 * span + 1);
    }
  }

  /** Each word draws one delay. */
  lemma DrawnOnce(base: Duration, span: nat, cap: Duration, random: nat, a: Duration, b: Duration)
    requires span > 0 && Drawn(base, span, cap, random, a) && Drawn(base, span, cap, random, b)
    ensures a == b
  {
    var i: nat, p: nat :| Picks(random, span, i, p) &&
                          a == Min(SatAdd(SatSub(Millis(base), span), p) * NANOS_PER_MILLI, cap);
    var j: nat, q: nat :| Picks(random, span, j, q) &&
                          b == Min(SatAdd(SatSub(Millis(base), span), q) * NANOS_PER_MILLI, cap);
    PicksOne(random, span, i, p, j, q);
  }

  /** Every whole number of milliseconds in the span is drawn by some word. */
  lemma EveryDelayDrawn(base: Duration, span: nat, cap: Duration, millis: nat)
    requires 0 < span <= Millis(base) && Millis(base) - span <= millis <= Millis(base) + span
    requires millis <= U64_MAX && millis * NANOS_PER_MILLI <= cap
    ensures Drawn(base, span, cap, millis - (Millis(base) - span), millis * NANOS_PER_MILLI)
  {
    var picked := millis - (Millis(base) - span);
    assert Picks(picked, span, 0, picked);
    assert SatAdd(SatSub(Millis(base), span), picked) == millis;
  }

  /** The source picks with a remainder. */
  lemma RemainderPicks(random: nat, width: nat, span: nat) returns (turns: nat)
    requires width == 2 * span + 1
    ensures Picks(random, span, turns, random % width)
  {
    turns := random / width;
  }

  lemma PickDraws(base: Duration, span: nat, cap: Duration, random: nat, turns: nat, offset: nat, delay: Duration)
    requires Picks(random, span, turns, offset)
    requires delay == Min(SatAdd(SatSub(Millis(base), span), offset) * NANOS_PER_MILLI, cap)
    ensures Drawn(base, span, cap, random, delay)
  {
  }

  /** A delay the policy allows for this attempt. */
  ghost predicate Allowed(policy: ReconnectPolicy, attempt: U32, delay: Duration) {
    delay <= policy.maxDelay && Near(BaseDelay(policy, attempt), Span(policy, attempt), policy.maxDelay, delay)
  }

  lemma ProductBound(millis: nat, percent: nat)
    requires percent <= 100
    ensures millis * percent <= millis * 100
  {
  }

  lemma HundredthBound(m: nat, millis: nat)
    requires m <= millis * 100
    ensures m / 100 <= millis
  {
  }

  /** The span never exceeds the base, so neither the subtraction nor the width saturates. */
  lemma SpanFits(millis: U64, percent: nat)
    requires percent <= 100
    ensures var span := Min(millis * percent, U64_MAX) / 100;
            span <= millis && 2 * span + 1 <= U64_MAX
  {
    ProductBound(millis, percent);
    HundredthBound(Min(millis * percent, U64_MAX), millis);
  }

  /** A whole number of milliseconds within the span, or the cap. */
  lemma JitterStays(millis: U64, span: nat, offset: nat, cap: Duration)
    requires span <= millis && offset <= 2 * span
    ensures var delay := Min(SatAdd(SatSub(millis, span), offset) * NANOS_PER_MILLI, cap);
            InSpan(millis, span, cap, delay)
  {
    var k := SatAdd(SatSub(millis, span), offset);
    assert k * NANOS_PER_MILLI % NANOS_PER_MILLI == 0 && k * NANOS_PER_MILLI / NANOS_PER_MILLI == k;
  }

  class ReconnectBackoff {
    const policy: ReconnectPolicy
    var attempt: U32
    var randomState: bv64

    constructor (policy: ReconnectPolicy, seed: bv64)
      ensures this.policy == policy && attempt == 0 && randomState == seed
    {
      this.policy, attempt, randomState := policy, 0, seed;
    }

    method Reset()
      modifies this`attempt
      ensures attempt == 0
    {
      attempt := 0;
    }

    method NextDelay() returns (delay: Duration)
      modifies this
      ensures attempt == SatInc32(old(attempt))
      ensures randomState
              == if Min(policy.jitterPercent, 100) == 0 then old(randomState) else Xorshift(old(randomState))
      ensures Allowed(policy, old(attempt), delay)
      ensures Drawn(BaseDelay(policy, old(attempt)), Span(policy, old(attempt)), policy.maxDelay, Word(randomState),
                    delay)
    {
      var exponent := Min(attempt, 31);
      attempt := SatInc32(attempt);
      var base := Min(Scaled(policy.baseDelay, Pow2(exponent)), policy.maxDelay);
      var jitterPercent := Min(policy.jitterPercent, 100);
      if jitterPercent == 0 {
        return base;
      }
      randomState := Xorshift(randomState);
      delay := Jittered(base, jitterPercent, Word(randomState));
    }

    method Jittered(base: Duration, jitterPercent: nat, random: nat) returns (delay: Duration)
      requires jitterPercent <= 100 && base <= policy.maxDelay
      ensures Near(base, Min(Millis(base) * jitterPercent, U64_MAX) / 100, policy.maxDelay, delay)
      ensures Drawn(base, Min(Millis(base) * jitterPercent, U64_MAX) / 100, policy.maxDelay, random, delay)
    {
      var baseMillis := Millis(base);
      var span := Min(baseMillis * jitterPercent, U64_MAX) / 100;
      if span == 0 {
        return base;
      }
      SpanFits(baseMillis, jitterPercent);
      var width := SatAdd(Min(span * 2, U64_MAX), 1);
      var offset := random % width;
      ghost var turns := RemainderPicks(random, width, span);
      var millis := SatAdd(SatSub(baseMillis, span), offset);
      JitterStays(baseMillis, span, offset, policy.maxDelay);
      delay := Min(millis * NANOS_PER_MILLI, policy.maxDelay);
      PickDraws(base, span, policy.maxDelay, random, turns, offset, delay);
    }
  }

  lemma {:induction false} Pow2Monotone(a: nat, b: nat)
    requires a <= b
    ensures 1 <= Pow2(a) <= Pow2(b)
    decreases b
  {
    if a < b {
      Pow2Monotone(a, b - 1);
    } else if a > 0 {
      Pow2Monotone(a - 1, a - 1);
    }
  }

  lemma ScaledMonotone(d: Duration, m: nat, n: nat)
    requires m <= n
    ensures Scaled(d, m) <= Scaled(d, n)
  {
    assert d * n == d * m + d * (n - m);
  }

  /** Between resets the unjittered delay never shrinks. */
  lemma BaseDelayMonotone(policy: ReconnectPolicy, a: U32, b: U32)
    requires a <= b
    ensures BaseDelay(policy, a) <= BaseDelay(policy, b) <= policy.maxDelay
  {
    Pow2Monotone(Min(a, 31), Min(b, 31));
    ScaledMonotone(policy.baseDelay, Pow2(Min(a, 31)), Pow2(Min(b, 31)));
  }

  lemma MillisBound(base: Duration, span: nat)
    requires span <= Millis(base)
    ensures (Millis(base) + span) * NANOS_PER_MILLI <= base + base
  {
    var m := base / NANOS_PER_MILLI;
    assert m * NANOS_PER_MILLI <= base;
    assert Millis(base) + span <= m + m;
  }

  /** Jitter at most doubles a delay. */
  lemma AtMostDoubled(policy: ReconnectPolicy, attempt: U32, delay: Duration)
    requires Allowed(policy, attempt, delay)
    ensures delay <= 2 * BaseDelay(policy, attempt)
  {
    var base: nat, span: nat := BaseDelay(policy, attempt), Span(policy, attempt);
    SpanFits(Millis(base), Min(policy.jitterPercent, 100));
    MillisBound(base, span);
    if span != 0 && delay % NANOS_PER_MILLI == 0 {
      assert delay == delay / NANOS_PER_MILLI * NANOS_PER_MILLI;
    }
  }

  /** A reset starts over from the shortest delay of all: at most twice the configured base, whatever came before. */
  lemma DelayAfterReset(policy: ReconnectPolicy, before: U32, delay: Duration)
    requires Allowed(policy, 0, delay)
    ensures delay <= 2 * policy.baseDelay && delay <= policy.maxDelay
    ensures BaseDelay(policy, 0) == Min(policy.baseDelay, policy.maxDelay) <= BaseDelay(policy, before)
  {
    AtMostDoubled(policy, 0, delay);
    BaseDelayMonotone(policy, 0, before);
  }

  /** Until the cap, each attempt doubles the delay. */
  lemma BaseDelayDoubles(policy: ReconnectPolicy, attempt: U32)
    requires attempt < 31 && policy.baseDelay * Pow2(attempt + 1) <= policy.maxDelay
    ensures BaseDelay(policy, attempt) == policy.baseDelay * Pow2(attempt)
    ensures BaseDelay(policy, attempt + 1) == 2 * BaseDelay(policy, attempt)
  {
    assert policy.baseDelay * Pow2(attempt + 1) == 2 * (policy.baseDelay * Pow2(attempt));
  }

  /** Past the cap, or the 31st attempt, the delay grows no more. */
  lemma BaseDelayLevels(policy: ReconnectPolicy, attempt: U32)
    ensures policy.baseDelay * Pow2(Min(attempt, 31)) >= policy.maxDelay ==>
            BaseDelay(policy, attempt) == policy.maxDelay
    ensures attempt >= 31 ==> BaseDelay(policy, attempt) == BaseDelay(policy, 31)
  {
  }

  /** The span is the percentage of the base, rounded down, and never more than the whole. */
  lemma SpanIsPercentage(policy: ReconnectPolicy, attempt: U32)
    requires Millis(BaseDelay(policy, attempt)) * 100 <= U64_MAX
    ensures var (millis, span) := (Millis(BaseDelay(policy, attempt)), Span(policy, attempt));
            && millis == BaseDelay(policy, attempt) / 1_000_000
            && (policy.jitterPercent >= 100 ==> span == millis)
            && (policy.jitterPercent < 100 ==>
                  100 * span <= millis * policy.jitterPercent < 100 * span + 100)
  {
    ProductBound(Millis(BaseDelay(policy, attempt)), Min(policy.jitterPercent, 100));
  }
}
