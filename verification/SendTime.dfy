/**
  The absolute send time of webrtc/include/api/rtp_headers.h: a 24-bit counter of 2^-18 second ticks
  that wraps every 64 seconds. Unsigned and signed 32-bit arithmetic is written out over integers.
 */
module SendTime {

  const WIRE := 0x100_0000            // 2^24, the counter's modulus
  const HALF := 0x80_0000             // 2^23
  const WORD := 0x1_0000_0000         // 2^32
  const SECOND := 0x4_0000            // 2^18 ticks
  const MICROS := 1000000

  /** static_cast<int32_t> of a uint32_t. */
  function AsSigned(x: int): int
    requires 0 <= x < WORD
  {
    if x < WORD / 2 then x else x - WORD
  }

  /** C++ division, which truncates towards zero. */
  function Quotient(a: int, b: int): int
    requires b > 0
  {
    if a >= 0 then a / b else -((-a) / b)
  }

  /** static_cast<int32_t>((now - previous) << 8) >> 8. */
  function TickDelta(now: int, previous: int): int
    requires 0 <= now < WIRE && 0 <= previous < WIRE
  {
    var difference := (now - previous) % WORD;
    var shifted := (difference * 256) % WORD;
    AsSigned(shifted) / 256             // an arithmetic shift right rounds down, as Dafny's division does
  }

  /** GetAbsoluteSendTimeDelta, in microseconds. */
  function DeltaMicros(now: int, previous: int): int
    requires 0 <= now < WIRE && 0 <= previous < WIRE
  {
    Quotient(TickDelta(now, previous) * MICROS, SECOND)
  }

  /** GetAbsoluteSendTimestamp, in microseconds. */
  function TimestampMicros(time: int): int
    requires 0 <= time < WIRE
  {
    Quotient(time * MICROS, SECOND)
  }

  // ---------------------------------------------------------------- one step

  lemma ShiftDropsHighBits(d: int)
    ensures (d % WORD * 256) % WORD == (d % WIRE) * 256
  {
    var q := d / WIRE;
    assert d == WIRE * q + d % WIRE;
    assert d * 256 == WORD * q + (d % WIRE) * 256;
    ModIs(d * 256, q, (d % WIRE) * 256);
    var w := d / WORD;
    assert d % WORD * 256 == d * 256 - WORD * (w * 256);
    ModIs(d % WORD * 256, q - w * 256, (d % WIRE) * 256);
  }

  lemma ModIs(x: int, q: int, r: int)
    requires x == WORD * q + r && 0 <= r < WORD
    ensures x % WORD == r
  {}

  /** The delta is the one number in [-2^23, 2^23) congruent to the difference modulo 2^24. */
  lemma TickDeltaIs(now: int, previous: int)
    requires 0 <= now < WIRE && 0 <= previous < WIRE
    ensures -HALF <= TickDelta(now, previous) < HALF
    ensures TickDelta(now, previous) % WIRE == (now - previous) % WIRE
  {
    ShiftDropsHighBits(now - previous);
    var r := (now - previous) % WIRE;
    assert TickDelta(now, previous) == if r < HALF then r else r - WIRE;
  }

  lemma OnlyCongruent(a: int, b: int)
    requires -HALF <= a < HALF && -HALF <= b < HALF && a % WIRE == b % WIRE
    ensures a == b
  {}

  /** A true step within half the range is recovered from the two wrapped times. */
  lemma StepRecovered(before: int, after: int)
    requires -HALF <= after - before < HALF
    ensures TickDelta(after % WIRE, before % WIRE) == after - before
  {
    TickDeltaIs(after % WIRE, before % WIRE);
    ModDifference(after, before);
    OnlyCongruent(TickDelta(after % WIRE, before % WIRE), after - before);
  }

  lemma ModDifference(a: int, b: int)
    ensures (a % WIRE - b % WIRE) % WIRE == (a - b) % WIRE
  {
    var x, y := a / WIRE, b / WIRE;
    assert a % WIRE - b % WIRE == (a - b) - WIRE * (x - y);
    ShiftByModulus(a - b, x - y);
  }

  lemma ShiftByModulus(d: int, k: int)
    ensures (d - WIRE * k) % WIRE == d % WIRE
  {
    var q := d / WIRE;
    assert d - WIRE * k == WIRE * (q - k) + d % WIRE;
  }

  // ---------------------------------------------------------------- a packet sequence

  /** The true send times, in ticks, of successive packets, each within half the range of the one before. */
  predicate Steady(times: seq<int>) {
    forall i :: 0 < i < |times| ==> -HALF <= times[i] - times[i - 1] < HALF
  }

  /** What a receiver sums up from the wrapped times, starting at packet 0. */
  function TickSum(times: seq<int>): int {
    if |times| <= 1 then 0
    else TickSum(times[..|times| - 1]) + TickDelta(times[|times| - 1] % WIRE, times[|times| - 2] % WIRE)
  }

  function MicrosSum(times: seq<int>): int {
    if |times| <= 1 then 0
    else MicrosSum(times[..|times| - 1]) + DeltaMicros(times[|times| - 1] % WIRE, times[|times| - 2] % WIRE)
  }

  /** Summing the deltas unwraps the counter exactly, however often it wrapped. */
  lemma {:induction false} TicksUnwrap(times: seq<int>)
    requires times != [] && Steady(times)
    ensures TickSum(times) == times[|times| - 1] - times[0]
  {
    if |times| > 1 {
      var n := |times| - 1;
      TicksUnwrap(times[..n]);
      StepRecovered(times[n - 1], times[n]);
    }
  }

  lemma QuotientError(a: int)
    ensures -SECOND < a - SECOND * Quotient(a, SECOND) < SECOND
  {}

  /** In microseconds each packet adds less than one of rounding error, and no more accumulates. */
  lemma {:induction false} MicrosUnwrap(times: seq<int>)
    requires times != [] && Steady(times)
    ensures var exact := (times[|times| - 1] - times[0]) * MICROS; var steps := |times| - 1;
      && (steps == 0 ==> MicrosSum(times) == 0)
      && (steps > 0 ==> -SECOND * steps < exact - SECOND * MicrosSum(times) < SECOND * steps)
  {
    if |times| > 1 {
      var n := |times| - 1;
      MicrosUnwrap(times[..n]);
      StepRecovered(times[n - 1], times[n]);
      QuotientError((times[n] - times[n - 1]) * MICROS);
    }
  }

  /** Distinct send times keep their order and at least three microseconds' distance as timestamps. */
  lemma TimestampsKeepOrder(a: int, b: int)
    requires 0 <= a < b < WIRE
    ensures TimestampMicros(a) + 3 * (b - a) <= TimestampMicros(b)
  {
    QuotientError(a * MICROS);
    QuotientError(b * MICROS);
  }

  /** A timestamp is the exact time in microseconds, less a part of one. */
  lemma TimestampIs(time: int)
    requires 0 <= time < WIRE
    ensures 0 <= time * MICROS - SECOND * TimestampMicros(time) < SECOND
  {
    var q := time * MICROS / SECOND;
    assert time * MICROS == SECOND * q + time * MICROS % SECOND;
  }

  /** A delta is the exact one, less a part of a microsecond towards zero, in either direction. */
  lemma DeltaIs(now: int, previous: int)
    requires 0 <= now < WIRE && 0 <= previous < WIRE
    ensures var exact := TickDelta(now, previous) * MICROS; var rounded := SECOND * DeltaMicros(now, previous);
      if exact >= 0 then 0 <= exact - rounded < SECOND else -SECOND < exact - rounded <= 0
  {
    var exact := TickDelta(now, previous) * MICROS;
    hide TickDelta;
    TowardsZero(exact);
  }

  lemma TowardsZero(a: int)
    ensures if a >= 0 then 0 <= a - SECOND * Quotient(a, SECOND) < SECOND
            else -SECOND < a - SECOND * Quotient(a, SECOND) <= 0
  {}
}
