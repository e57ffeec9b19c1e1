/**
 The absolute send time of an RTP header: seconds in 6.18 fixed point, kept in 24
 bits and wrapping every 64 seconds.  The machine arithmetic is written out.
 */
module RtpClock {
  const UINT32: int := 0x1_0000_0000
  const WRAP: int := 0x100_0000      // 1ul << 24
  const HALF: int := 0x80_0000
  const FRACTION: int := 0x4_0000    // 1 << kAbsSendTimeFraction
  const INT64_MAX: int := 0x7FFF_FFFF_FFFF_FFFF
  const WRAP_MICROS: int := 64_000_000

  datatype RtpHeaderExtension = RtpHeaderExtension(hasAbsoluteSendTime: bool, absoluteSendTime: nat)

  type Ticks = x: int | 0 <= x < WRAP

  // ---------- Machine operations

  /** Subtraction of unsigned 32-bit integers. */
  function Subtract32(a: int, b: int): int {
    (a - b) % UINT32
  }

  /** Left shift of an unsigned 32-bit integer by 8. */
  function ShiftLeft8(x: int): int {
    (x * 256) % UINT32
  }

  /** The cast of an unsigned to a signed 32-bit integer. */
  function ToInt32(x: int): int {
    if x < UINT32 / 2 then x else x - UINT32
  }

  /** Arithmetic right shift by 8 rounds down. */
  function ShiftRight8(x: int): int {
    x / 256
  }

  /** Signed division rounds toward zero. */
  function Divide(x: int, y: int): int
    requires y > 0
  {
    if x >= 0 then x / y else -(-x / y)
  }

  // ---------- The two functions

  predicate Readable(h: RtpHeaderExtension) {
    h.hasAbsoluteSendTime && h.absoluteSendTime < WRAP
  }

  function SignedDelta(now: Ticks, previous: Ticks): int {
    ShiftRight8(ToInt32(ShiftLeft8(Subtract32(now, previous))))
  }

  /** In microseconds. */
  function GetAbsoluteSendTimestamp(h: RtpHeaderExtension): int
    requires Readable(h)
  {
    Divide(h.absoluteSendTime * 1_000_000, FRACTION)
  }

  /** In microseconds. */
  function GetAbsoluteSendTimeDelta(h: RtpHeaderExtension, previous: Ticks): int
    requires Readable(h)
  {
    Divide(SignedDelta(h.absoluteSendTime, previous) * 1_000_000, FRACTION)
  }

  // ---------- The signed delta

  /** The signed delta is the one number in [-2^23, 2^23) that equals the difference modulo 2^24. */
  lemma DeltaIsTheNearest(now: Ticks, previous: Ticks, d: int)
    ensures d == SignedDelta(now, previous) <==> -HALF <= d < HALF && (now - previous - d) % WRAP == 0
  {
    DeltaByCases(now, previous);
    var e := SignedDelta(now, previous);
    if -HALF <= d < HALF && (now - previous - d) % WRAP == 0 {
      var q := (now - previous - d) / WRAP;
      assert now - previous - d == WRAP * q;
    }
  }

  /** The wrap that the shift by 8 and back performs, case by case. */
  lemma DeltaByCases(now: Ticks, previous: Ticks)
    ensures var d := now - previous;
            SignedDelta(now, previous) == if d < -HALF then d + WRAP else if d < HALF then d else d - WRAP
  {
    var d := now - previous;
    var u := Subtract32(now, previous);
    assert u == if d < 0 then d + UINT32 else d;
    var q := if d < 0 then 255 else 0;
    assert u * 256 == (if d < 0 then (d + WRAP) * 256 else d * 256) + UINT32 * q;
    assert ShiftLeft8(u) == if d < 0 then (d + WRAP) * 256 else d * 256;
  }

  /** Exchanging the two times negates the delta, except half a wrap apart, where both deltas are -2^23. */
  lemma DeltaIsOdd(a: Ticks, b: Ticks)
    ensures SignedDelta(b, a) == -SignedDelta(a, b) <==> a - b != HALF && b - a != HALF
    ensures a - b == HALF || b - a == HALF ==> SignedDelta(a, b) == SignedDelta(b, a) == -HALF
  {
    DeltaByCases(a, b);
    DeltaByCases(b, a);
  }

  // ---------- Unwrapping a sequence of times

  /** What 24 bits keep of a true time. */
  function Truncated(t: int): Ticks {
    t % WRAP
  }

  /** The delta of two truncated times is the true elapsed time exactly when that lies in [-2^23, 2^23). */
  lemma DeltaRecovers(from: int, to: int)
    ensures SignedDelta(Truncated(to), Truncated(from)) == to - from <==> -HALF <= to - from < HALF
  {
    DeltaIsTheNearest(Truncated(to), Truncated(from), to - from);
    var q := to / WRAP - from / WRAP;
    assert Truncated(to) - Truncated(from) - (to - from) == WRAP * -q;
  }

  /** The sum of the deltas along the first `n` steps of a sequence of true times. */
  function Elapsed(times: seq<int>, n: nat): int
    requires n < |times|
  {
    if n == 0 then 0 else Elapsed(times, n - 1) + SignedDelta(Truncated(times[n]), Truncated(times[n - 1]))
  }

  ghost predicate SmallSteps(times: seq<int>, n: nat)
    requires n < |times|
  {
    forall k :: 0 < k <= n ==> -HALF <= times[k] - times[k - 1] < HALF
  }

  /**
   Folding the deltas of the truncated times recovers the true elapsed time all along exactly when every step is small.
   */
  lemma {:induction false} UnwrapRecovers(times: seq<int>, n: nat)
    requires n < |times|
    ensures SmallSteps(times, n) <==> forall k :: 0 <= k <= n ==> Elapsed(times, k) == times[k] - times[0]
  {
    if n > 0 {
      UnwrapRecovers(times, n - 1);
      DeltaRecovers(times[n - 1], times[n]);
      if forall k :: 0 <= k <= n ==> Elapsed(times, k) == times[k] - times[0] {
        assert Elapsed(times, n) == times[n] - times[0] && Elapsed(times, n - 1) == times[n - 1] - times[0];
        assert SmallSteps(times, n - 1);
      }
    }
  }

  // ---------- Microseconds

  function At(t: Ticks): RtpHeaderExtension {
    RtpHeaderExtension(true, t)
  }

  /** The sum of the microsecond deltas along the first `n` steps. */
  function ElapsedMicros(times: seq<int>, n: nat): int
    requires n < |times|
  {
    if n == 0 then 0 else
      ElapsedMicros(times, n - 1) + GetAbsoluteSendTimeDelta(At(Truncated(times[n])), Truncated(times[n - 1]))
  }

  /** One microsecond delta, in units of 1/4096 microsecond: a tick is 15625 of them. */
  lemma MicrosOfDelta(now: Ticks, previous: Ticks)
    ensures var exact := SignedDelta(now, previous) * 15625;
            var micros := GetAbsoluteSendTimeDelta(At(now), previous);
            && (exact >= 0 ==> 0 <= exact - 4096 * micros <= 4095)
            && (exact <= 0 ==> -4095 <= exact - 4096 * micros <= 0)
  {
    var d := SignedDelta(now, previous);
    if d >= 0 {
      assert d * 1_000_000 == FRACTION * (d * 1_000_000 / FRACTION) + d * 1_000_000 % FRACTION;
    } else {
      assert -(d * 1_000_000) == FRACTION * (-(d * 1_000_000) / FRACTION) + -(d * 1_000_000) % FRACTION;
    }
  }

  /**
   With small steps, the sum of n microsecond deltas is within n * 4095/4096 microseconds of the true elapsed time.
   */
  lemma {:induction false} DriftIsBounded(times: seq<int>, n: nat)
    requires n < |times| && SmallSteps(times, n)
    ensures -4095 * n <= 15625 * (times[n] - times[0]) - 4096 * ElapsedMicros(times, n) <= 4095 * n
  {
    if n > 0 {
      DriftIsBounded(times, n - 1);
      DeltaRecovers(times[n - 1], times[n]);
      MicrosOfDelta(Truncated(times[n]), Truncated(times[n - 1]));
    }
  }

  const STEP: int := 3783  // STEP * 15625 is 4095 modulo 4096

  /** The bound is reached: a sender that steps STEP ticks at a time loses 4095/4096 of a microsecond every time. */
  lemma {:induction false} DriftIsReached(times: seq<int>, n: nat)
    requires n < |times| && forall k :: 0 < k <= n ==> times[k] - times[k - 1] == STEP
    ensures 15625 * (times[n] - times[0]) - 4096 * ElapsedMicros(times, n) == 4095 * n
  {
    if n > 0 {
      hide SignedDelta, GetAbsoluteSendTimeDelta;
      DriftIsReached(times, n - 1);
      DeltaRecovers(times[n - 1], times[n]);
      StepLoss(Truncated(times[n]), Truncated(times[n - 1]));
    }
  }

  lemma StepLoss(now: Ticks, previous: Ticks)
    requires SignedDelta(now, previous) == STEP
    ensures 15625 * STEP - 4096 * GetAbsoluteSendTimeDelta(At(now), previous) == 4095
  {
    MicrosOfDelta(now, previous);
  }

  /**
   The two readings of a pair of headers agree: the delta and the difference of the two timestamps differ by at
   most one microsecond and a whole number of wraps, which is the wrap that the signed delta undoes.
   */
  lemma DeltaAgreesWithTimestamps(now: Ticks, previous: Ticks)
    ensures var wraps := if now - previous < -HALF then 1 else if now - previous < HALF then 0 else -1;
            var difference := GetAbsoluteSendTimestamp(At(now)) - GetAbsoluteSendTimestamp(At(previous));
            -1 <= GetAbsoluteSendTimeDelta(At(now), previous) - difference - wraps * WRAP_MICROS <= 1
  {
    DeltaByCases(now, previous);
    MicrosOfDelta(now, previous);
    MicrosOfTimestamp(now);
    MicrosOfTimestamp(previous);
  }

  lemma MicrosOfTimestamp(now: Ticks)
    ensures 0 <= now * 15625 - 4096 * GetAbsoluteSendTimestamp(At(now)) <= 4095
  {
    assert now * 1_000_000 == FRACTION * (now * 1_000_000 / FRACTION) + now * 1_000_000 % FRACTION;
  }

  /** The 64-bit products do not overflow. */
  lemma NoOverflow(now: Ticks, previous: Ticks)
    ensures now * 1_000_000 <= INT64_MAX
    ensures -INT64_MAX <= SignedDelta(now, previous) * 1_000_000 <= INT64_MAX
  {
    DeltaByCases(now, previous);
  }
}
