/**
 * Timestamp arithmetic of the player (src/player.rs): turning a packet's
 * timestamp fields into a duration, and the saturating sleep computed
 * before each send. Durations are whole nanoseconds.
 */
module Clock {
  import opened Pcap

  const NANOS_PER_SEC: nat := 1_000_000_000
  const NANOS_PER_MICRO: nat := 1_000

  /**
   * `Duration::new(secs, nanos)` as a span of nanoseconds: it carries whole
   * seconds out of `nanos`, so the span is secs seconds plus nanos
   * nanoseconds (DurationNewCarries).
   */
  function DurationNew(secs: nat, nanos: nat): nat
  {
    secs * NANOS_PER_SEC + nanos
  }

  /**
   * The seconds of `Duration::new(secs, nanos)` are secs plus the whole
   * seconds in nanos, and its sub-second nanoseconds are what is left of nanos.
   */
  lemma DurationNewCarries(secs: nat, nanos: nat)
    ensures DurationNew(secs, nanos) / NANOS_PER_SEC == secs + nanos / NANOS_PER_SEC
    ensures DurationNew(secs, nanos) % NANOS_PER_SEC == nanos % NANOS_PER_SEC
  {
    var q, r := nanos / NANOS_PER_SEC, nanos % NANOS_PER_SEC;
    assert DurationNew(secs, nanos) == (secs + q) * NANOS_PER_SEC + r;
  }

  /** Rust's `u32::overflowing_mul`: the product wrapped to 32 bits, and whether it wrapped. */
  function OverflowingMul(a: u32, b: u32): (r: (u32, bool))
    ensures r.1 <==> a * b >= U32_LIMIT
    ensures !r.1 ==> r.0 == a * b
    ensures (a * b - r.0) % U32_LIMIT == 0
  {
    ((a * b) % U32_LIMIT, a * b >= U32_LIMIT)
  }

  /**
   * The `(seconds, nanoseconds)` pair handed to `Duration::new` by
   * `duration_from_timestamp`. Nanosecond files use the fraction as it is;
   * microsecond files multiply it by 1000 in 32 bits and, when that wraps,
   * add exactly one second however often it wrapped. The seconds are widened
   * before the increment (see TimestampPartsAsWritten for the code as written).
   */
  function TimestampParts(unit: TimestampUnit, packet: PcapPacketRecord): (parts: (nat, u32))
    ensures unit == BeNanos ==> parts == (packet.tsSecs, packet.tsSecsFraction)
    ensures unit == LeMicros ==>
      (parts.0 == packet.tsSecs + 1 <==> packet.tsSecsFraction * NANOS_PER_MICRO >= U32_LIMIT)
    ensures unit == LeMicros ==>
      (parts.0 == packet.tsSecs <==> packet.tsSecsFraction * NANOS_PER_MICRO < U32_LIMIT)
    ensures unit == LeMicros ==>
      (packet.tsSecsFraction * NANOS_PER_MICRO - parts.1) % U32_LIMIT == 0
  {
    var (fraction, overflow) := match unit
      case LeMicros => OverflowingMul(packet.tsSecsFraction, NANOS_PER_MICRO)
      case BeNanos => (packet.tsSecsFraction, false);
    var seconds := if overflow then packet.tsSecs + 1 else packet.tsSecs;
    (seconds, fraction)
  }

  /** `duration_from_timestamp`: a packet's capture time in nanoseconds. */
  function DurationFromTimestamp(unit: TimestampUnit, packet: PcapPacketRecord): (d: nat)
    ensures unit == BeNanos ==>
      d == packet.tsSecs * NANOS_PER_SEC + packet.tsSecsFraction
    ensures unit == LeMicros ==>
      (d == packet.tsSecs * NANOS_PER_SEC + packet.tsSecsFraction * NANOS_PER_MICRO
       <==> packet.tsSecsFraction * NANOS_PER_MICRO < U32_LIMIT)
  {
    var (seconds, nanos) := TimestampParts(unit, packet);
    if unit == LeMicros && packet.tsSecsFraction * NANOS_PER_MICRO >= U32_LIMIT then
      MicrosOverflowIsInexact(packet.tsSecs, packet.tsSecsFraction * NANOS_PER_MICRO, nanos);
      DurationNew(seconds, nanos)
    else
      DurationNew(seconds, nanos)
  }

  /**
   * After a wrapped multiplication the carried second never makes up for the
   * 2^32 nanoseconds lost to the wrap, so the duration is never the true one.
   */
  lemma MicrosOverflowIsInexact(secs: nat, product: nat, wrapped: nat)
    requires product >= U32_LIMIT
    requires wrapped < U32_LIMIT && (product - wrapped) % U32_LIMIT == 0
    ensures DurationNew(secs + 1, wrapped) != secs * NANOS_PER_SEC + product
  {
    var k := (product - wrapped) / U32_LIMIT;
    assert product - wrapped == k * U32_LIMIT;
    assert k >= 1;
    assert k * U32_LIMIT >= U32_LIMIT;
  }

  /**
   * A well-formed microsecond fraction (below one million) never wraps, so
   * its duration is exact.
   */
  lemma MicrosInRangeIsExact(packet: PcapPacketRecord)
    requires packet.tsSecsFraction < 1_000_000
    ensures DurationFromTimestamp(LeMicros, packet)
         == packet.tsSecs * NANOS_PER_SEC + packet.tsSecsFraction * NANOS_PER_MICRO
  {
    assert packet.tsSecsFraction * NANOS_PER_MICRO < 1_000_000 * NANOS_PER_MICRO;
  }

  /** Rust's `Duration::saturating_sub`: `a - b`, or zero when that would be negative. */
  function SaturatingSub(a: nat, b: nat): (r: nat)
    ensures a <= b ==> r == 0
    ensures a > b ==> r + b == a
  {
    if a <= b then 0 else a - b
  }

  /**
   * The sleep before a send: the gap between the packet's timestamp and the
   * previous one, less the time the loop already spent since the last send,
   * floored at zero at both subtractions.
   */
  function SleepBefore(currentTs: nat, previousTs: nat, loopDuration: nat): (s: nat)
    ensures s == 0 <==> currentTs <= previousTs + loopDuration
    ensures s > 0 ==> previousTs + loopDuration + s == currentTs
    ensures currentTs <= previousTs ==> s == 0
    ensures loopDuration + s >= currentTs - previousTs
  {
    SaturatingSub(SaturatingSub(currentTs, previousTs), loopDuration)
  }

  // ---------------------------------------------------------------------
  // The seconds increment as written: `packet.ts_secs + 1` is evaluated in
  // u32 before the widening cast, so it wraps (release build) at u32::MAX.

  /** `duration_from_timestamp`'s seconds and nanoseconds with the increment in 32 bits. */
  function TimestampPartsAsWritten(unit: TimestampUnit, packet: PcapPacketRecord): (parts: (u32, u32))
    ensures parts.1 == TimestampParts(unit, packet).1
    ensures parts.0 == TimestampParts(unit, packet).0 % U32_LIMIT
    ensures packet.tsSecs < U32_LIMIT - 1 ==> parts.0 == TimestampParts(unit, packet).0
  {
    var (fraction, overflow) := match unit
      case LeMicros => OverflowingMul(packet.tsSecsFraction, NANOS_PER_MICRO)
      case BeNanos => (packet.tsSecsFraction, false);
    var seconds := if overflow then (packet.tsSecs + 1) % U32_LIMIT else packet.tsSecs;
    (seconds, fraction)
  }

  /**
   * `duration_from_timestamp` as written. It agrees with DurationFromTimestamp
   * everywhere except at the last u32 second, where only a wrapped
   * microsecond fraction tells them apart.
   */
  function DurationFromTimestampAsWritten(unit: TimestampUnit, packet: PcapPacketRecord): (d: nat)
    ensures packet.tsSecs < U32_LIMIT - 1 ==> d == DurationFromTimestamp(unit, packet)
    ensures unit == BeNanos ==> d == DurationFromTimestamp(unit, packet)
    ensures unit == LeMicros && packet.tsSecsFraction * NANOS_PER_MICRO < U32_LIMIT ==>
      d == DurationFromTimestamp(unit, packet)
  {
    var (seconds, nanos) := TimestampPartsAsWritten(unit, packet);
    DurationNew(seconds, nanos)
  }

  /**
   * At the last representable second a wrapped microsecond fraction sends the
   * as-written duration back to under a microsecond, earlier than the same
   * second with no fraction at all; the widened increment does not.
   */
  lemma SecondsIncrementWraps()
    ensures var late := PcapPacketRecord(U32_LIMIT - 1, 4_294_968, 0, 0, []);
            var onTheSecond := late.(tsSecsFraction := 0);
            && TimestampPartsAsWritten(LeMicros, late) == (0, 704)
            && DurationFromTimestampAsWritten(LeMicros, late)
               < DurationFromTimestampAsWritten(LeMicros, onTheSecond)
            && DurationFromTimestamp(LeMicros, late) > DurationFromTimestamp(LeMicros, onTheSecond)
  {
    var late := PcapPacketRecord(U32_LIMIT - 1, 4_294_968, 0, 0, []);
    assert 4_294_968 * NANOS_PER_MICRO == U32_LIMIT + 704;
    assert TimestampParts(LeMicros, late) == (U32_LIMIT, 704);
  }
}
