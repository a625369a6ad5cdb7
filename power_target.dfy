/**
 * ERG power targets: fitting a requested wattage to the trainer's Supported
 * Power Range (section 4.15 of the Bluetooth Fitness Machine Service 1.0
 * specification), reading that range from its six-byte payload, and the Set
 * Target Power command of the Control Point (section 4.16).
 */
module PowerTarget {
  import opened Wrappers
  import opened Bytes
  import opened Rounding
  import opened Constants

  /** Minimum, maximum and increment of the power a trainer accepts, in watts. */
  datatype PowerRange = PowerRange(minWatts: int, maxWatts: int, incrementWatts: int)

  /** The range the simulated trainer reports. */
  const SimulatedRange := PowerRange(50, 1200, 5)

  /** The increment actually used: one watt when the given one is not positive. */
  function EffectiveIncrement(increment: int): (inc: int)
    ensures inc >= 1
    ensures increment > 0 ==> inc == increment
  {
    if increment <= 0 then 1 else increment
  }

  /** The number of increments from the minimum that the clamped request rounds to. */
  function Steps(requested: int, minWatts: int, maxWatts: int, increment: int): int {
    var clamped := MinInt(MaxInt(requested, minWatts), maxWatts);
    RoundHalfEven((clamped - minWatts) as real / EffectiveIncrement(increment) as real)
  }

  /**
   * `normalize_power_target`: clamp the request into [min, max], move it to the
   * nearest multiple of the increment above the minimum (ties to the even
   * multiple), and clamp again.
   */
  function NormalizePowerTarget(requested: int, minWatts: int, maxWatts: int, increment: int): (w: int)
    ensures w <= maxWatts
    ensures minWatts <= maxWatts ==> minWatts <= w
    ensures w == maxWatts ||
      w == minWatts + Steps(requested, minWatts, maxWatts, increment) * EffectiveIncrement(increment)
  {
    var inc := EffectiveIncrement(increment);
    var normalized := minWatts + Steps(requested, minWatts, maxWatts, increment) * inc;
    MinInt(MaxInt(normalized, minWatts), maxWatts)
  }

  /** The steps never fall below zero when the range is not empty. */
  lemma StepsNonNegative(requested: int, minWatts: int, maxWatts: int, increment: int)
    requires minWatts <= maxWatts
    ensures Steps(requested, minWatts, maxWatts, increment) >= 0
  {
    var clamped := MinInt(MaxInt(requested, minWatts), maxWatts);
    RoundMonotone(0.0, (clamped - minWatts) as real / EffectiveIncrement(increment) as real);
    RoundOfInteger(0);
  }

  /**
   * For a non-empty range the result is the maximum or lies on the increment
   * grid above the minimum; for an empty one (min > max) it is always the maximum.
   */
  lemma NormalizedOnGrid(requested: int, minWatts: int, maxWatts: int, increment: int)
    ensures var w := NormalizePowerTarget(requested, minWatts, maxWatts, increment);
      minWatts > maxWatts ==> w == maxWatts
    ensures var w := NormalizePowerTarget(requested, minWatts, maxWatts, increment);
      minWatts <= maxWatts && w != maxWatts ==>
        exists k: nat {:trigger k * EffectiveIncrement(increment)} :: w == minWatts + k * EffectiveIncrement(increment)
  {
    var w := NormalizePowerTarget(requested, minWatts, maxWatts, increment);
    if minWatts <= maxWatts && w != maxWatts {
      StepsNonNegative(requested, minWatts, maxWatts, increment);
      var k: nat := Steps(requested, minWatts, maxWatts, increment);
      assert w == minWatts + k * EffectiveIncrement(increment);
    }
  }

  /** A value on the grid inside the range is already normalized. */
  lemma NormalizeGridPoint(k: int, minWatts: int, maxWatts: int, increment: int)
    requires minWatts <= minWatts + k * EffectiveIncrement(increment) <= maxWatts
    ensures NormalizePowerTarget(minWatts + k * EffectiveIncrement(increment), minWatts, maxWatts, increment)
      == minWatts + k * EffectiveIncrement(increment)
  {
    var inc := EffectiveIncrement(increment);
    assert (k * inc) as real / inc as real == k as real;
    RoundOfInteger(k);
  }

  /** A target the rounding pushed past the maximum stays at the maximum when normalized again. */
  lemma MaximumStaysMaximum(requested: int, minWatts: int, maxWatts: int, increment: int)
    requires minWatts <= maxWatts
    requires minWatts + Steps(requested, minWatts, maxWatts, increment) * EffectiveIncrement(increment) > maxWatts
    ensures NormalizePowerTarget(maxWatts, minWatts, maxWatts, increment) == maxWatts
  {
    var inc := EffectiveIncrement(increment);
    var k := Steps(requested, minWatts, maxWatts, increment);
    var clamped := MinInt(MaxInt(requested, minWatts), maxWatts);
    var k' := Steps(maxWatts, minWatts, maxWatts, increment);
    assert clamped <= maxWatts;
    assert (clamped - minWatts) as real / inc as real <= (maxWatts - minWatts) as real / inc as real;
    RoundMonotone((clamped - minWatts) as real / inc as real, (maxWatts - minWatts) as real / inc as real);
    MulMonotone(k, k', inc);
  }

  /** Multiplying by a positive factor keeps the order. */
  lemma MulMonotone(a: int, b: int, c: int)
    requires a <= b && c >= 1
    ensures a * c <= b * c
  {
    assert b * c - a * c == (b - a) * c;
    MulNonNegative(b - a, c);
  }

  lemma MulNonNegative(a: int, c: int)
    requires a >= 0 && c >= 1
    ensures a * c >= 0
  {
  }

  /** Normalizing twice gives the same target as normalizing once. */
  lemma NormalizeIdempotent(requested: int, minWatts: int, maxWatts: int, increment: int)
    ensures var w := NormalizePowerTarget(requested, minWatts, maxWatts, increment);
      NormalizePowerTarget(w, minWatts, maxWatts, increment) == w
  {
    var inc := EffectiveIncrement(increment);
    var w := NormalizePowerTarget(requested, minWatts, maxWatts, increment);
    var k := Steps(requested, minWatts, maxWatts, increment);
    if minWatts > maxWatts {
      assert w == maxWatts;
    } else if w == minWatts + k * inc {
      NormalizeGridPoint(k, minWatts, maxWatts, increment);
    } else {
      StepsNonNegative(requested, minWatts, maxWatts, increment);
      assert k * inc >= 0;
      MaximumStaysMaximum(requested, minWatts, maxWatts, increment);
    }
  }

  /** Below and above the range the target clamps to its ends. */
  lemma NormalizeClampExamples()
    ensures NormalizePowerTarget(20, 30, 400, 5) == 30
    ensures NormalizePowerTarget(420, 30, 400, 5) == 400
  {
    assert Steps(20, 30, 400, 5) == 0 by {
      RoundOfInteger(0);
    }
    assert Steps(420, 30, 400, 5) == 74 by {
      assert (400 - 30) as real / 5 as real == 74 as real;
      RoundOfInteger(74);
    }
  }

  /** 33 W rounds up to 35 W and 32 W down to 30 W on a 5 W grid from 30 W. */
  lemma NormalizeAlignExamples()
    ensures NormalizePowerTarget(33, 30, 400, 5) == 35
    ensures NormalizePowerTarget(32, 30, 400, 5) == 30
  {
    assert Steps(33, 30, 400, 5) == 1 by {
      RoundHalfEvenUnique(0.6, 1);
    }
    assert Steps(32, 30, 400, 5) == 0 by {
      RoundHalfEvenUnique(0.4, 0);
    }
  }

  /** On a 2 W grid from 30 W, 31 W and 33 W are ties and go to the even multiples, 30 W and 34 W. */
  lemma NormalizeTieExamples()
    ensures NormalizePowerTarget(31, 30, 400, 2) == 30
    ensures NormalizePowerTarget(33, 30, 400, 2) == 34
  {
    assert Steps(31, 30, 400, 2) == 0 by {
      RoundHalfEvenUnique(0.5, 0);
    }
    assert Steps(33, 30, 400, 2) == 2 by {
      RoundHalfEvenUnique(1.5, 2);
    }
  }

  /** A zero increment is treated as 1 W: every target in range is kept. */
  lemma NormalizeZeroIncrementExample()
    ensures NormalizePowerTarget(33, 30, 400, 0) == 33
  {
    assert Steps(33, 30, 400, 0) == 3 by {
      assert (33 - 30) as real / 1 as real == 3 as real;
      RoundOfInteger(3);
    }
  }

  /** In simulation every applied target is a multiple of 5 W between 50 W and 1200 W. */
  lemma SimulatedTargetAligned(watts: int)
    ensures var w := NormalizePowerTarget(watts, SimulatedRange.minWatts, SimulatedRange.maxWatts, SimulatedRange.incrementWatts);
      50 <= w <= 1200 && w % 5 == 0
  {
    var w := NormalizePowerTarget(watts, 50, 1200, 5);
    if w != 1200 {
      StepsNonNegative(watts, 50, 1200, 5);
      var k := Steps(watts, 50, 1200, 5);
      assert w == 5 * (10 + k);
    }
  }

  /**
   * The Supported Power Range payload: signed 16-bit minimum and maximum, an
   * unsigned 16-bit increment (a zero increment is read as 1); fewer than six
   * bytes give no range.
   */
  function ParseSupportedPowerRange(raw: seq<byte>): (r: Option<PowerRange>)
    ensures r.Some? <==> |raw| >= 6
    ensures r.Some? ==> r.value.incrementWatts >= 1
  {
    if |raw| < 6 then None
    else
      var increment := U16At(raw, 4);
      Some(PowerRange(S16At(raw, 0), S16At(raw, 2), if increment <= 0 then 1 else increment))
  }

  /** A range whose fields fit the payload's integer widths. */
  predicate Encodable(r: PowerRange) {
    -0x8000 <= r.minWatts < 0x8000 && -0x8000 <= r.maxWatts < 0x8000 && 1 <= r.incrementWatts < 0x1_0000
  }

  /** `struct.pack("<hhH", ...)` of a range. */
  function EncodeSupportedPowerRange(r: PowerRange): (raw: seq<byte>)
    requires Encodable(r)
    ensures |raw| == 6
  {
    EncodeS16(r.minWatts) + EncodeS16(r.maxWatts) + EncodeU16(r.incrementWatts)
  }

  /** Reading an encoded range gives it back; extra bytes after the six are ignored. */
  lemma SupportedPowerRangeRoundTrip(r: PowerRange, extra: seq<byte>)
    requires Encodable(r)
    ensures ParseSupportedPowerRange(EncodeSupportedPowerRange(r) + extra) == Some(r)
  {
    var raw := EncodeSupportedPowerRange(r) + extra;
    var a, b, c := EncodeS16(r.minWatts), EncodeS16(r.maxWatts), EncodeU16(r.incrementWatts);
    assert raw[0..2] == a && raw[2..4] == b && raw[4..6] == c;
    assert U16At(raw, 0) == U16At(a, 0) && U16At(raw, 2) == U16At(b, 0) && U16At(raw, 4) == U16At(c, 0);
  }

  /** A zero increment on the wire is read as one watt. */
  lemma ZeroIncrementReadAsOne(lo: seq<byte>)
    requires |lo| == 4
    ensures ParseSupportedPowerRange(lo + [0, 0]).Some?
    ensures ParseSupportedPowerRange(lo + [0, 0]).value.incrementWatts == 1
  {
    assert U16At(lo + [0, 0], 4) == 0;
  }

  /**
   * `bytes([OP_SET_TARGET_POWER]) + struct.pack("<h", watts)`; `struct.pack`
   * raises for a target outside the signed 16-bit range.
   */
  function SetTargetPowerCommand(watts: int): (cmd: Option<seq<byte>>)
    ensures cmd.Some? <==> -0x8000 <= watts < 0x8000
    ensures cmd.Some? ==> |cmd.value| == 3 && cmd.value[0] == OpSetTargetPower && S16At(cmd.value, 1) == watts
  {
    if -0x8000 <= watts < 0x8000 then
      var le := EncodeS16(watts);
      assert ([OpSetTargetPower as byte] + le)[1..3] == le;
      Some([OpSetTargetPower as byte] + le)
    else None
  }

  /** The command of a 200 W target is `05 C8 00`, and of -10 W `05 F6 FF`. */
  lemma SetTargetPowerBytes()
    ensures SetTargetPowerCommand(200) == Some([0x05, 0xC8, 0x00])
    ensures SetTargetPowerCommand(-10) == Some([0x05, 0xF6, 0xFF])
  {
    var a, b := SetTargetPowerCommand(200).value, SetTargetPowerCommand(-10).value;
    assert a[1] == 0xC8 && a[2] == 0x00 by {
      assert a[1..3] == EncodeS16(200) == [0xC8, 0x00];
    }
    assert b[1] == 0xF6 && b[2] == 0xFF by {
      assert b[1..3] == EncodeS16(-10) == [0xF6, 0xFF];
    }
    var c200: seq<byte> := [0x05, 0xC8, 0x00];
    var c10: seq<byte> := [0x05, 0xF6, 0xFF];
    assert a == c200 && b == c10;
  }

  /** Decoding a command's operand gives the target; the operand bytes are the target's encoding. */
  lemma SetTargetPowerRoundTrip(cmd: seq<byte>)
    requires |cmd| == 3 && cmd[0] == OpSetTargetPower
    ensures SetTargetPowerCommand(S16At(cmd, 1)) == Some(cmd)
  {
    S16Encoding(cmd, 1);
    assert cmd == [cmd[0]] + cmd[1..3];
  }
}
