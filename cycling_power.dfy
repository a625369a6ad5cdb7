/**
 * The Cycling Power Measurement characteristic (0x2A63) as the client reads it:
 * a flag word, the instantaneous power, optional fields of fixed widths, and the
 * crank revolution data from which cadence is derived across notifications.
 * This module holds the reference definition of one read; the client's method
 * that walks the payload with a cursor is proved equal to it.
 */
module CyclingPower {
  import opened Wrappers
  import opened Bytes
  import opened Constants
  import IndoorBike

  /** Flag bits of the measurement that the reader looks at. */
  const PedalPowerBalancePresent := 0x0001
  const AccumulatedTorquePresent := 0x0004
  const WheelRevolutionDataPresent := 0x0010
  const CrankRevolutionDataPresent := 0x0020
  const ExtremeForceMagnitudesPresent := 0x0040
  const ExtremeTorqueMagnitudesPresent := 0x0080
  const ExtremeAnglesPresent := 0x0100
  const TopDeadSpotAnglePresent := 0x0200
  const BottomDeadSpotAnglePresent := 0x0400
  const AccumulatedEnergyPresent := 0x0800

  /** The crank counters and event times wrap at 16 bits. */
  const CounterModulus := 0x1_0000

  /** What one read returns: the power (when the header is there) and the cadence (when derivable). */
  datatype Reading = Reading(power: Option<int>, cadence: Option<real>)

  /** The crank revolution count and event time of the last crank sample read, if any. */
  datatype Crank = Crank(revs: Option<int>, eventTime: Option<int>)

  /** `(now - before) & 0xFFFF`: the forward distance between two 16-bit counter values. */
  function CounterDelta(now: int, before: int): (d: int)
    ensures 0 <= d < CounterModulus
    ensures (before + d - now) % CounterModulus == 0
  {
    (now - before) % CounterModulus
  }

  /**
   * Cadence from the previous and the current crank sample: revolutions per
   * minute over the elapsed 1/1024 s ticks; 0.0 for a repeated sample while
   * stopped (no revolutions, zero power); nothing for the first sample or a
   * zero interval otherwise.
   */
  function CrankCadence(last: Crank, revs: int, eventTime: int, power: int): (c: Option<real>)
    ensures c.Some? ==> last.revs.Some? && last.eventTime.Some? && c.value >= 0.0
    ensures c.Some? && CounterDelta(eventTime, last.eventTime.value) > 0 ==>
      c.value * CounterDelta(eventTime, last.eventTime.value) as real == CounterDelta(revs, last.revs.value) as real * 61440.0
  {
    if last.revs.Some? && last.eventTime.Some? then
      var deltaRevs := CounterDelta(revs, last.revs.value);
      var deltaTicks := CounterDelta(eventTime, last.eventTime.value);
      if deltaTicks > 0 then Some((deltaRevs as real * 60.0 * 1024.0) / deltaTicks as real)
      else if deltaRevs == 0 && power == 0 then Some(0.0)
      else None
    else None
  }

  /** Bytes of the optional fields before the crank data: pedal balance, torque, wheel data. */
  function PreCrankWidth(flags: int): nat {
    IndoorBike.FieldBytes(HasFlag(flags, PedalPowerBalancePresent), 1)
      + IndoorBike.FieldBytes(HasFlag(flags, AccumulatedTorquePresent), 2)
      + IndoorBike.FieldBytes(HasFlag(flags, WheelRevolutionDataPresent), 6)
  }

  /** Where the crank data starts. */
  function CrankOffset(payload: seq<byte>): nat
    requires |payload| >= 4
  {
    4 + PreCrankWidth(U16At(payload, 0))
  }

  /** The payload flags crank data and carries all four of its bytes. */
  predicate CrankRead(payload: seq<byte>) {
    |payload| >= 4 && HasFlag(U16At(payload, 0), CrankRevolutionDataPresent)
      && CrankOffset(payload) + 4 <= |payload|
  }

  /**
   * One read: under four bytes nothing; otherwise the power, and, when the
   * crank data was read in full, the cadence it gives against the previous
   * sample and that sample as the new crank state. Fields after the crank data
   * are checked for truncation but never change the result.
   */
  function Measurement(payload: seq<byte>, last: Crank): (Reading, Crank) {
    if |payload| < 4 then (Reading(None, None), last)
    else
      var power := S16At(payload, 2);
      if CrankRead(payload) then
        var at := CrankOffset(payload);
        var revs := U16At(payload, at);
        var eventTime := U16At(payload, at + 2);
        (Reading(Some(power), CrankCadence(last, revs, eventTime, power)), Crank(Some(revs), Some(eventTime)))
      else (Reading(Some(power), None), last)
  }

  /** Under four bytes: no power, no cadence, crank state untouched. */
  lemma ShortPayload(payload: seq<byte>, last: Crank)
    requires |payload| < 4
    ensures Measurement(payload, last) == (Reading(None, None), last)
  {
  }

  /**
   * From four bytes on the power is always returned; the cadence can only be
   * present and the crank state can only change when the crank data was read,
   * and then the state is the sample just read.
   */
  lemma PowerAndCrankState(payload: seq<byte>, last: Crank)
    requires |payload| >= 4
    ensures Measurement(payload, last).0.power == Some(S16At(payload, 2))
    ensures !CrankRead(payload) ==> Measurement(payload, last) == (Reading(Some(S16At(payload, 2)), None), last)
    ensures CrankRead(payload) ==>
      Measurement(payload, last).1 == Crank(Some(U16At(payload, CrankOffset(payload))), Some(U16At(payload, CrankOffset(payload) + 2)))
  {
  }

  /** Bytes after a fully read crank field (the later optional fields, whole or cut off) change nothing. */
  lemma TrailingBytesIgnored(payload: seq<byte>, extra: seq<byte>, last: Crank)
    requires CrankRead(payload)
    ensures CrankRead(payload + extra)
    ensures Measurement(payload + extra, last) == Measurement(payload, last)
  {
    var p := payload + extra;
    assert p[..4] == payload[..4];
    assert U16At(p, 0) == U16At(payload, 0) && S16At(p, 2) == S16At(payload, 2);
    var at := CrankOffset(payload);
    assert U16At(p, at) == U16At(payload, at) && U16At(p, at + 2) == U16At(payload, at + 2);
  }

  /** The first crank sample gives no cadence, whatever it holds. */
  lemma FirstSampleNoCadence(revs: int, eventTime: int, power: int)
    ensures CrankCadence(Crank(None, None), revs, eventTime, power) == None
  {
  }

  /**
   * When a cadence is given it is determined by the counter deltas: positive
   * ticks give revolutions per minute, zero ticks give 0.0 only for no
   * revolutions at zero power; and every other case gives none.
   */
  lemma CadenceCases(last: Crank, revs: int, eventTime: int, power: int)
    requires last.revs.Some? && last.eventTime.Some?
    ensures var dr := CounterDelta(revs, last.revs.value);
      var dt := CounterDelta(eventTime, last.eventTime.value);
      (CrankCadence(last, revs, eventTime, power).Some? <==> dt > 0 || (dr == 0 && power == 0)) &&
      (dt == 0 && dr == 0 && power == 0 ==> CrankCadence(last, revs, eventTime, power) == Some(0.0))
  {
  }

  /** Two revolutions in 1024 ticks (one second) is 120 rpm, also across a counter wrap. */
  lemma TwoRevolutionsPerSecond(lastRevs: int, lastTime: int, power: int)
    ensures CrankCadence(Crank(Some(lastRevs), Some(lastTime)), lastRevs + 2, lastTime + 1024, power) == Some(120.0)
    ensures CrankCadence(Crank(Some(0xFFFF), Some(0xFF00)), 1, 0x0300, power) == Some(120.0)
  {
    assert CounterDelta(lastRevs + 2, lastRevs) == 2;
    assert CounterDelta(lastTime + 1024, lastTime) == 1024;
    assert CounterDelta(1, 0xFFFF) == 2;
    assert CounterDelta(0x0300, 0xFF00) == 1024;
  }

  /** A payload with only crank data flagged (0x0020): power, revolutions and event time. */
  predicate CrankOnly(payload: seq<byte>, power: int, revs: int, eventTime: int) {
    |payload| == 8 && U16At(payload, 0) == CrankRevolutionDataPresent
      && S16At(payload, 2) == power && U16At(payload, 4) == revs && U16At(payload, 6) == eventTime
  }

  /** Such a payload is read in full: its crank data sits right after the power. */
  lemma CrankOnlyRead(payload: seq<byte>, last: Crank, power: int, revs: int, eventTime: int)
    requires CrankOnly(payload, power, revs, eventTime)
    ensures Measurement(payload, last) ==
      (Reading(Some(power), CrankCadence(last, revs, eventTime, power)), Crank(Some(revs), Some(eventTime)))
  {
    assert HasFlag(0x20, CrankRevolutionDataPresent);
    assert !HasFlag(0x20, PedalPowerBalancePresent) && !HasFlag(0x20, AccumulatedTorquePresent) && !HasFlag(0x20, WheelRevolutionDataPresent);
  }

  /**
   * The samples (180 W, 1000 revs, 20000) then (185 W, 1002, 21024) give no
   * cadence and then 120.0 rpm; a stopped repeat (0 W, 1002, 21024) then gives 0.0.
   */
  lemma CrankSampleSequence(p1: seq<byte>, p2: seq<byte>, p3: seq<byte>)
    requires CrankOnly(p1, 180, 1000, 20000)
    requires CrankOnly(p2, 185, 1002, 21024)
    requires CrankOnly(p3, 0, 1002, 21024)
    ensures var (r1, c1) := Measurement(p1, Crank(None, None));
      var (r2, c2) := Measurement(p2, c1);
      var (r3, c3) := Measurement(p3, c2);
      r1 == Reading(Some(180), None) && r2 == Reading(Some(185), Some(120.0)) && r3 == Reading(Some(0), Some(0.0))
  {
    CrankOnlyRead(p1, Crank(None, None), 180, 1000, 20000);
    CrankOnlyRead(p2, Crank(Some(1000), Some(20000)), 185, 1002, 21024);
    CrankOnlyRead(p3, Crank(Some(1002), Some(21024)), 0, 1002, 21024);
    TwoRevolutionsPerSecond(1000, 20000, 185);
  }

  /** No new revolutions while the time advances at zero power reads as 0.0 rpm. */
  lemma NoNewRevolutions(p1: seq<byte>, p2: seq<byte>)
    requires CrankOnly(p1, 180, 1000, 20000)
    requires CrankOnly(p2, 0, 1000, 21024)
    ensures Measurement(p2, Measurement(p1, Crank(None, None)).1).0 == Reading(Some(0), Some(0.0))
  {
    CrankOnlyRead(p1, Crank(None, None), 180, 1000, 20000);
    CrankOnlyRead(p2, Crank(Some(1000), Some(20000)), 0, 1000, 21024);
    assert CounterDelta(1000, 1000) == 0 && CounterDelta(21024, 20000) == 1024;
  }

  /** The bytes `struct.pack("<HhHH", 0x0020, 180, 1000, 20000)` form such a payload. */
  lemma CrankOnlyBytes()
    ensures CrankOnly([0x20, 0x00, 0xB4, 0x00, 0xE8, 0x03, 0x20, 0x4E], 180, 1000, 20000)
  {
  }
}
