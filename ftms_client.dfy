/**
 * The per-connection state of the trainer client and the operations that
 * change it: the two notification handlers and the merged reading they
 * publish, the cursor walk over a Cycling Power Measurement, service discovery
 * with the Supported Power Range cache, the ERG target write protocol,
 * disconnect, and the simulated trainer's target clamps.
 *
 * The radio is not modelled. What the transport would answer is given to each
 * method as a parameter: whether a device was reached, the bytes of the
 * Supported Power Range read (None when the read fails), whether a
 * notification could be enabled, and the Control Point replies.
 */
module FtmsClient {
  import opened Wrappers
  import opened Bytes
  import opened Constants
  import opened Rounding
  import opened IndoorBike
  import opened CyclingPower
  import opened PowerTarget
  import opened ControlPoint
  import opened Merge

  /** Why a client call fails. */
  datatype ClientError =
    | NotConnected
    | NoDeviceFound
    | NoMeasurementCharacteristic
    | TargetNotEncodable(watts: int)
    | WriteFailed(targetWatts: int)
    | Unsupported

  /**
   * The writes of one command sequence, from write number `start` on: each
   * command is written in turn, and the first rejected write ends the sequence.
   */
  method WriteSequence(sequence: seq<Command>, replies: seq<bool>, start: nat) returns (made: seq<Command>, ok: bool)
    ensures ok == AllAccepted(sequence, replies, start)
    ensures made == sequence[..WritesMade(sequence, replies, start, 0)]
    ensures ok ==> made == sequence
  {
    made := [];
    var i := 0;
    ok := true;
    while ok && i < |sequence|
      invariant 0 <= i <= |sequence|
      invariant made == sequence[..i]
      invariant ok ==> (forall m :: start <= m < start + i ==> Accepted(replies, m))
      invariant ok ==> WritesMade(sequence, replies, start, 0) == WritesMade(sequence, replies, start, i)
      invariant !ok ==> i >= 1 && !Accepted(replies, start + i - 1) && WritesMade(sequence, replies, start, 0) == i
    {
      var n := start + i;
      made := made + [sequence[i]];
      if !(n < |replies| && replies[n]) {
        ok := false;
      }
      i := i + 1;
      assert sequence[..i] == sequence[..i - 1] + [sequence[i - 1]];
    }
    if ok {
      assert sequence[..i] == sequence;
    }
  }

  /**
   * The writes of the command sequences, tried in order until one has every
   * write accepted. The n-th write of the call is accepted when `replies[n]`.
   */
  method WriteSequences(seqs: seq<seq<Command>>, replies: seq<bool>) returns (written: seq<Command>, succeeded: Option<nat>)
    ensures Outcome(written, succeeded) == Protocol(seqs, 0, replies, 0)
  {
    written := [];
    var k := 0;
    while k < |seqs|
      invariant 0 <= k <= |seqs|
      invariant var rest := Protocol(seqs, k, replies, |written|);
        Protocol(seqs, 0, replies, 0) == Outcome(written + rest.written, rest.succeeded)
    {
      var made, ok := WriteSequence(seqs[k], replies, |written|);
      if ok {
        written := written + made;
        succeeded := Some(k);
        return;
      }
      written := written + made;
      k := k + 1;
    }
    succeeded := None;
  }

  /** What discovery leaves in the range cache: a range read now and parsed replaces it. */
  function CachedRange(discoverNow: bool, rangeRead: Option<seq<byte>>, cached: Option<PowerRange>): (r: Option<PowerRange>)
    ensures !discoverNow || rangeRead.None? ==> r == cached
    ensures discoverNow && rangeRead.Some? ==>
      r == (if |rangeRead.value| >= 6 then ParseSupportedPowerRange(rangeRead.value) else cached)
  {
    if discoverNow && rangeRead.Some? && ParseSupportedPowerRange(rangeRead.value).Some? then ParseSupportedPowerRange(rangeRead.value)
    else cached
  }

  /** The clamp of the simulated resistance mode: into [1, 200]. */
  function ResistanceLevel(level: real): (n: real)
    ensures 1.0 <= n <= 200.0
    ensures 1.0 <= level <= 200.0 ==> n == level
    ensures level < 1.0 ==> n == 1.0
    ensures level > 200.0 ==> n == 200.0
  {
    MaxReal(1.0, MinReal(level, 200.0))
  }

  /** The clamp of the simulated slope mode: into [-10, 15] percent. */
  function SlopePercent(percent: real): (n: real)
    ensures -10.0 <= n <= 15.0
    ensures -10.0 <= percent <= 15.0 ==> n == percent
    ensures percent < -10.0 ==> n == -10.0
    ensures percent > 15.0 ==> n == 15.0
  {
    MaxReal(-10.0, MinReal(percent, 15.0))
  }

  class FTMSClient {
    /** The client drives the built-in simulated trainer instead of a real one. */
    const simulateHt: bool
    /** There is a client handle (a connection was made and not closed). */
    var hasClient: bool
    var servicesDiscovered: bool
    var hasMetricsCallback: bool
    /** The merged readings handed to the metrics callback, oldest first. */
    var published: seq<IndoorBikeData>
    var lastFtmsPower: Option<int>
    var lastFtmsCadence: Option<real>
    var lastFtmsSpeed: Option<real>
    var lastCyclingPower: Option<int>
    var lastCyclingCadence: Option<real>
    var lastCrankRevs: Option<int>
    var lastCrankEventTime: Option<int>
    var supportedPowerRange: Option<PowerRange>
    var controlPointIndicationsEnabled: bool
    var simConnected: bool
    var simTargetWatts: int
    /** The simulation task is running. */
    var simTask: bool

    /** A cached range always has a positive increment. */
    predicate Valid()
      reads this
    {
      supportedPowerRange.Some? ==> supportedPowerRange.value.incrementWatts >= 1
    }

    constructor(simulateHt: bool)
      ensures Valid()
      ensures this.simulateHt == simulateHt
      ensures !hasClient && !servicesDiscovered && !hasMetricsCallback && published == []
      ensures lastFtmsPower.None? && lastFtmsCadence.None? && lastFtmsSpeed.None?
      ensures lastCyclingPower.None? && lastCyclingCadence.None?
      ensures lastCrankRevs.None? && lastCrankEventTime.None?
      ensures supportedPowerRange.None? && !controlPointIndicationsEnabled
      ensures !simConnected && simTargetWatts == 120 && !simTask
    {
      this.simulateHt := simulateHt;
      hasClient := false;
      servicesDiscovered := false;
      hasMetricsCallback := false;
      published := [];
      lastFtmsPower := None;
      lastFtmsCadence := None;
      lastFtmsSpeed := None;
      lastCyclingPower := None;
      lastCyclingCadence := None;
      lastCrankRevs := None;
      lastCrankEventTime := None;
      supportedPowerRange := None;
      controlPointIndicationsEnabled := false;
      simConnected := false;
      simTargetWatts := 120;
      simTask := false;
    }

    /** Connected: the simulated flag, or a client handle whose link is up. */
    predicate IsConnected(linkUp: bool)
      reads this
    {
      if simulateHt then simConnected else hasClient && linkUp
    }

    /** The reading the client publishes from its current state. */
    function Current(): (m: IndoorBikeData)
      reads this
      ensures m.speedKmh == lastFtmsSpeed
      ensures lastFtmsPower.Some? ==> m.power == lastFtmsPower
      ensures lastFtmsPower.None? ==> m.power == lastCyclingPower
      ensures lastCyclingCadence.Some? ==> m.cadence == lastCyclingCadence
    {
      Merged(lastFtmsPower, lastFtmsCadence, lastFtmsSpeed, lastCyclingPower, lastCyclingCadence)
    }

    /**
     * Connect: the simulated trainer just becomes connected; a real one,
     * once reached, becomes the client handle and its services are discovered.
     */
    method Connect(reached: bool, rangeRead: Option<seq<byte>>) returns (r: Result<(), ClientError>)
      requires Valid()
      modifies this`simConnected, this`hasClient, this`servicesDiscovered, this`supportedPowerRange
      ensures Valid()
      ensures simulateHt ==> r.Ok? && simConnected && unchanged(this`hasClient, this`servicesDiscovered, this`supportedPowerRange)
      ensures !simulateHt && !reached ==> r == Err(NoDeviceFound) && unchanged(this)
      ensures !simulateHt && reached ==>
        r.Ok? && hasClient && servicesDiscovered && simConnected == old(simConnected)
        && supportedPowerRange == CachedRange(!old(servicesDiscovered), rangeRead, old(supportedPowerRange))
    {
      if simulateHt {
        simConnected := true;
        return Ok(());
      }
      if !reached {
        return Err(NoDeviceFound);
      }
      hasClient := true;
      EnsureServicesDiscovered(rangeRead);
      r := Ok(());
    }

    /**
     * Disconnect: the simulated trainer stops and its task is cancelled; a real
     * connection drops only the client handle and the discovery flag. The range
     * cache, the indications flag, the last metrics and the crank counters
     * survive.
     */
    method Disconnect()
      modifies this`simConnected, this`simTask, this`hasClient, this`servicesDiscovered
      ensures simulateHt ==> !simConnected && !simTask && unchanged(this`hasClient, this`servicesDiscovered)
      ensures !simulateHt ==> !hasClient && unchanged(this`simConnected, this`simTask)
      ensures !simulateHt && old(hasClient) ==> !servicesDiscovered
      ensures !simulateHt && !old(hasClient) ==> servicesDiscovered == old(servicesDiscovered)
      ensures supportedPowerRange == old(supportedPowerRange) && controlPointIndicationsEnabled == old(controlPointIndicationsEnabled)
      ensures lastCrankRevs == old(lastCrankRevs) && lastCrankEventTime == old(lastCrankEventTime)
      ensures Current() == old(Current())
    {
      if simulateHt {
        simConnected := false;
        simTask := false;
        return;
      }
      if hasClient {
        hasClient := false;
        servicesDiscovered := false;
      }
    }

    /**
     * Discovery, done once per connection: it marks the services discovered
     * and caches the Supported Power Range when it can be read and has six
     * bytes; a failed or short read leaves the cache as it was.
     */
    method EnsureServicesDiscovered(rangeRead: Option<seq<byte>>)
      requires Valid()
      modifies this`servicesDiscovered, this`supportedPowerRange
      ensures Valid()
      ensures servicesDiscovered == (old(servicesDiscovered) || (!simulateHt && hasClient))
      ensures supportedPowerRange ==
        CachedRange(!simulateHt && hasClient && !old(servicesDiscovered), rangeRead, old(supportedPowerRange))
    {
      if simulateHt || !hasClient || servicesDiscovered {
        return;
      }
      servicesDiscovered := true;
      if rangeRead.None? {
        return;
      }
      var raw := rangeRead.value;
      if |raw| < 6 {
        return;
      }
      supportedPowerRange := ParseSupportedPowerRange(raw);
    }

    /** Enabling Control Point indications, once; a refusal leaves them off without failing. */
    method EnsureControlPointIndications(rangeRead: Option<seq<byte>>, notifyOk: bool)
      requires Valid()
      modifies this`servicesDiscovered, this`supportedPowerRange, this`controlPointIndicationsEnabled
      ensures Valid()
      ensures servicesDiscovered == (old(servicesDiscovered) || (!simulateHt && hasClient))
      ensures supportedPowerRange ==
        CachedRange(!simulateHt && hasClient && !old(servicesDiscovered), rangeRead, old(supportedPowerRange))
      ensures controlPointIndicationsEnabled == (old(controlPointIndicationsEnabled) || (hasClient && notifyOk))
    {
      if !hasClient {
        return;
      }
      EnsureServicesDiscovered(rangeRead);
      if controlPointIndicationsEnabled {
        return;
      }
      if notifyOk {
        controlPointIndicationsEnabled := true;
      }
    }

    /**
     * The range targets are normalised into: the simulated trainer's fixed
     * range, else the cached one. Without a cache there is none: reading the
     * characteristic happens only during discovery.
     */
    function ReadSupportedPowerRange(): (r: Option<PowerRange>)
      reads this
      ensures simulateHt ==> r == Some(SimulatedRange)
      ensures !simulateHt ==> r == supportedPowerRange
    {
      if simulateHt then Some(SimulatedRange)
      else if supportedPowerRange.Some? then supportedPowerRange
      else None
    }

    /** A requested target, normalised into the supported range when one is known and left as is otherwise. */
    function NormalizeTargetPower(watts: int): (t: int)
      reads this
      ensures ReadSupportedPowerRange().None? ==> t == watts
      ensures ReadSupportedPowerRange().Some? ==>
        var r := ReadSupportedPowerRange().value;
        t <= r.maxWatts && (r.minWatts <= r.maxWatts ==> r.minWatts <= t)
    {
      match ReadSupportedPowerRange()
      case None => watts
      case Some(r) => NormalizePowerTarget(watts, r.minWatts, r.maxWatts, r.incrementWatts)
    }

    /**
     * The ERG target. The simulated trainer takes the target normalised into
     * 50..1200 W in 5 W steps. A real one needs a connection; after discovery
     * and the indications the normalised target is packed as a signed 16-bit
     * command and the three command sequences are written until one is
     * accepted, returning the target, or failing once all three fail.
     */
    method SetTargetPower(watts: int, rangeRead: Option<seq<byte>>, notifyOk: bool, replies: seq<bool>)
      returns (r: Result<int, ClientError>, written: seq<Command>)
      requires Valid()
      modifies this`simTargetWatts, this`servicesDiscovered, this`supportedPowerRange, this`controlPointIndicationsEnabled
      ensures Valid()
      ensures simulateHt ==>
        r == Ok(NormalizePowerTarget(watts, 50, 1200, 5)) && simTargetWatts == r.value && written == []
        && unchanged(this`servicesDiscovered, this`supportedPowerRange, this`controlPointIndicationsEnabled)
      ensures !simulateHt ==> simTargetWatts == old(simTargetWatts)
      ensures !simulateHt && !hasClient ==> r == Err(NotConnected) && written == [] && unchanged(this)
      ensures !simulateHt && hasClient ==>
        servicesDiscovered &&
        supportedPowerRange == CachedRange(!old(servicesDiscovered), rangeRead, old(supportedPowerRange)) &&
        controlPointIndicationsEnabled == (old(controlPointIndicationsEnabled) || notifyOk)
      ensures !simulateHt && hasClient ==>
        var target := NormalizeTargetPower(watts);
        (SetTargetPowerCommand(target).None? ==> r == Err(TargetNotEncodable(target)) && written == []) &&
        (SetTargetPowerCommand(target).Some? ==>
          var o := Protocol(ErgSequences(SetTargetPowerCommand(target).value), 0, replies, 0);
          written == o.written &&
          (o.succeeded.Some? ==> r == Ok(target)) &&
          (o.succeeded.None? ==> r == Err(WriteFailed(target))))
    {
      written := [];
      if simulateHt {
        var applied := NormalizePowerTarget(watts, SimulatedRange.minWatts, SimulatedRange.maxWatts, SimulatedRange.incrementWatts);
        simTargetWatts := applied;
        return Ok(applied), written;
      }
      if !hasClient {
        return Err(NotConnected), written;
      }
      EnsureServicesDiscovered(rangeRead);
      EnsureControlPointIndications(rangeRead, notifyOk);
      var target := NormalizeTargetPower(watts);
      var command := SetTargetPowerCommand(target);
      if command.None? {
        return Err(TargetNotEncodable(target)), written;
      }
      var succeeded;
      written, succeeded := WriteSequences(ErgSequences(command.value), replies);
      if succeeded.Some? {
        r := Ok(target);
      } else {
        r := Err(WriteFailed(target));
      }
    }

    /**
     * The simulated resistance mode: the level clamped into [1, 200] and the
     * simulated target set to 70 W plus 3 W per level; real trainers refuse it.
     */
    method SetTargetResistance(level: real) returns (r: Result<real, ClientError>)
      modifies this`simTargetWatts
      ensures simulateHt ==>
        r == Ok(ResistanceLevel(level))
        && simTargetWatts == RoundHalfEven(70.0 + ResistanceLevel(level) * 3.0) && 73 <= simTargetWatts <= 670
      ensures !simulateHt ==> r == Err(Unsupported) && simTargetWatts == old(simTargetWatts)
    {
      if simulateHt {
        var normalized := ResistanceLevel(level);
        simTargetWatts := RoundHalfEven(70.0 + normalized * 3.0);
        return Ok(normalized);
      }
      r := Err(Unsupported);
    }

    /**
     * The simulated slope mode: the grade clamped into [-10, 15] percent and the
     * simulated target set to 180 W plus 18 W per percent; real trainers refuse it.
     */
    method SetTargetSlope(percent: real) returns (r: Result<real, ClientError>)
      modifies this`simTargetWatts
      ensures simulateHt ==>
        r == Ok(SlopePercent(percent))
        && simTargetWatts == RoundHalfEven(180.0 + SlopePercent(percent) * 18.0) && 0 <= simTargetWatts <= 450
      ensures !simulateHt ==> r == Err(Unsupported) && simTargetWatts == old(simTargetWatts)
    {
      if simulateHt {
        var normalized := SlopePercent(percent);
        simTargetWatts := RoundHalfEven(180.0 + normalized * 18.0);
        return Ok(normalized);
      }
      r := Err(Unsupported);
    }

    /**
     * Subscribing to metrics. The simulated trainer must be connected and
     * starts its task when none runs. A real connection is discovered, the
     * callback installed, and then at least one of Indoor Bike Data and Cycling
     * Power Measurement must accept notifications; the callback stays installed
     * even when neither does.
     */
    method Subscribe(rangeRead: Option<seq<byte>>, indoorBikeOk: bool, cyclingPowerOk: bool) returns (r: Result<(), ClientError>)
      requires Valid()
      modifies this`hasMetricsCallback, this`simTask, this`servicesDiscovered, this`supportedPowerRange
      ensures Valid()
      ensures simulateHt && !simConnected ==> r == Err(NotConnected) && unchanged(this)
      ensures simulateHt && simConnected ==>
        r.Ok? && hasMetricsCallback && simTask
        && unchanged(this`servicesDiscovered, this`supportedPowerRange)
      ensures !simulateHt && !hasClient ==> r == Err(NotConnected) && unchanged(this)
      ensures !simulateHt && hasClient ==>
        hasMetricsCallback && simTask == old(simTask) && servicesDiscovered
        && supportedPowerRange == CachedRange(!old(servicesDiscovered), rangeRead, old(supportedPowerRange))
        && (r.Ok? <==> indoorBikeOk || cyclingPowerOk)
        && (r.Err? ==> r.error == NoMeasurementCharacteristic)
    {
      if simulateHt {
        if !simConnected {
          return Err(NotConnected);
        }
        hasMetricsCallback := true;
        if !simTask {
          simTask := true;
        }
        return Ok(());
      }
      if !hasClient {
        return Err(NotConnected);
      }
      EnsureServicesDiscovered(rangeRead);
      hasMetricsCallback := true;
      var subscribedAny := false;
      if indoorBikeOk {
        subscribedAny := true;
      }
      if cyclingPowerOk {
        subscribedAny := true;
      }
      if !subscribedAny {
        return Err(NoMeasurementCharacteristic);
      }
      r := Ok(());
    }

    /** Hands the current merged reading to the callback, when one is installed. */
    method PublishMergedMetrics()
      modifies this`published
      ensures published == old(published) + (if hasMetricsCallback then [Current()] else [])
    {
      if !hasMetricsCallback {
        return;
      }
      published := published + [Current()];
    }

    /**
     * An Indoor Bike Data notification: a payload that does not parse raises
     * before anything changes; otherwise its three metrics replace the last
     * ones and the merged reading is published.
     */
    method HandleIndoorBikeData(payload: seq<byte>) returns (r: Result<(), DecodeError>)
      modifies this`lastFtmsPower, this`lastFtmsCadence, this`lastFtmsSpeed, this`published
      ensures ParseSpec(payload).Err? ==> r == Err(ParseSpec(payload).error) && unchanged(this)
      ensures ParseSpec(payload).Ok? ==>
        r.Ok?
        && IndoorBikeData(lastFtmsPower, lastFtmsCadence, lastFtmsSpeed) == ParseSpec(payload).value
        && published == old(published) + (if hasMetricsCallback then [Current()] else [])
    {
      var parsed := ParseIndoorBikeData(payload);
      if parsed.Err? {
        return Err(parsed.error);
      }
      var metrics := parsed.value;
      lastFtmsPower := metrics.power;
      lastFtmsCadence := metrics.cadence;
      lastFtmsSpeed := metrics.speedKmh;
      PublishMergedMetrics();
      r := Ok(());
    }

    /**
     * A Cycling Power Measurement notification: its power replaces the last
     * one (also by none), its cadence only when there is one; then the merged
     * reading is published.
     */
    method HandleCyclingPowerMeasurement(payload: seq<byte>)
      modifies this`lastCyclingPower, this`lastCyclingCadence, this`lastCrankRevs, this`lastCrankEventTime, this`published
      ensures var (reading, crank) := Measurement(payload, Crank(old(lastCrankRevs), old(lastCrankEventTime)));
        lastCyclingPower == reading.power
        && lastCyclingCadence == (if reading.cadence.Some? then reading.cadence else old(lastCyclingCadence))
        && Crank(lastCrankRevs, lastCrankEventTime) == crank
      ensures old(lastCyclingCadence).Some? ==> lastCyclingCadence.Some?
      ensures published == old(published) + (if hasMetricsCallback then [Current()] else [])
    {
      var power, cadence := ParseCyclingPowerMeasurement(payload);
      lastCyclingPower := power;
      if cadence.Some? {
        lastCyclingCadence := cadence;
      }
      PublishMergedMetrics();
    }

    /**
     * One Cycling Power Measurement, read with a cursor: the flag word and
     * power, then each present optional field in order, giving up at the first
     * that does not fit. The crank field, when read in full, yields the cadence
     * against the last sample and becomes the new last sample.
     */
    method ParseCyclingPowerMeasurement(payload: seq<byte>) returns (power: Option<int>, cadence: Option<real>)
      modifies this`lastCrankRevs, this`lastCrankEventTime
      ensures var (reading, crank) := Measurement(payload, Crank(old(lastCrankRevs), old(lastCrankEventTime)));
        Reading(power, cadence) == reading && Crank(lastCrankRevs, lastCrankEventTime) == crank
    {
      if |payload| < 4 {
        return None, None;
      }
      var flags := U16At(payload, 0);
      power := Some(S16At(payload, 2));
      var cursor := 4;

      var pedalPowerBalancePresent := HasFlag(flags, PedalPowerBalancePresent);
      var accumulatedTorquePresent := HasFlag(flags, AccumulatedTorquePresent);
      var wheelRevolutionDataPresent := HasFlag(flags, WheelRevolutionDataPresent);
      var crankRevolutionDataPresent := HasFlag(flags, CrankRevolutionDataPresent);
      var extremeForceMagnitudesPresent := HasFlag(flags, ExtremeForceMagnitudesPresent);
      var extremeTorqueMagnitudesPresent := HasFlag(flags, ExtremeTorqueMagnitudesPresent);
      var extremeAnglesPresent := HasFlag(flags, ExtremeAnglesPresent);
      var topDeadSpotAnglePresent := HasFlag(flags, TopDeadSpotAnglePresent);
      var bottomDeadSpotAnglePresent := HasFlag(flags, BottomDeadSpotAnglePresent);
      var accumulatedEnergyPresent := HasFlag(flags, AccumulatedEnergyPresent);

      if pedalPowerBalancePresent {
        if cursor + 1 > |payload| {
          return power, None;
        }
        cursor := cursor + 1;
      }
      if accumulatedTorquePresent {
        if cursor + 2 > |payload| {
          return power, None;
        }
        cursor := cursor + 2;
      }
      if wheelRevolutionDataPresent {
        if cursor + 6 > |payload| {
          return power, None;
        }
        cursor := cursor + 6;
      }
      assert cursor == CrankOffset(payload);

      cadence := None;
      if crankRevolutionDataPresent {
        if cursor + 4 > |payload| {
          return power, None;
        }
        var crankRevs := U16At(payload, cursor);
        var crankEventTime := U16At(payload, cursor + 2);
        cursor := cursor + 4;
        cadence := CrankCadence(Crank(lastCrankRevs, lastCrankEventTime), crankRevs, crankEventTime, power.value);
        lastCrankRevs := Some(crankRevs);
        lastCrankEventTime := Some(crankEventTime);
      }

      if extremeForceMagnitudesPresent {
        if cursor + 4 > |payload| {
          return power, cadence;
        }
        cursor := cursor + 4;
      }
      if extremeTorqueMagnitudesPresent {
        if cursor + 4 > |payload| {
          return power, cadence;
        }
        cursor := cursor + 4;
      }
      if extremeAnglesPresent {
        if cursor + 3 > |payload| {
          return power, cadence;
        }
        cursor := cursor + 3;
      }
      if topDeadSpotAnglePresent {
        if cursor + 2 > |payload| {
          return power, cadence;
        }
        cursor := cursor + 2;
      }
      if bottomDeadSpotAnglePresent {
        if cursor + 2 > |payload| {
          return power, cadence;
        }
        cursor := cursor + 2;
      }
      if accumulatedEnergyPresent {
        if cursor + 2 > |payload| {
          return power, cadence;
        }
        cursor := cursor + 2;
      }
    }
  }
}
