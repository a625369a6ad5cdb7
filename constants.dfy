/**
 * Fitness Machine Service constants: the Control Point opcodes and the flag word
 * that opens every Indoor Bike Data notification (section 4.9.1 of the Bluetooth
 * Fitness Machine Service 1.0 specification).
 */
module Constants {

  // Fitness Machine Control Point opcodes.
  const OpRequestControl: int := 0x00
  const OpReset: int := 0x01
  const OpSetTargetPower: int := 0x05
  const OpStartResume: int := 0x07

  // Indoor Bike Data flag bits, each `1 << k`.
  const FlagMoreData: int := 0x0001
  const FlagAverageSpeedPresent: int := 0x0002
  const FlagInstantaneousCadencePresent: int := 0x0004
  const FlagAverageCadencePresent: int := 0x0008
  const FlagTotalDistancePresent: int := 0x0010
  const FlagResistanceLevelPresent: int := 0x0020
  const FlagInstantaneousPowerPresent: int := 0x0040
  const FlagAveragePowerPresent: int := 0x0080
  const FlagExpendedEnergyPresent: int := 0x0100
  const FlagHeartRatePresent: int := 0x0200
  const FlagMetabolicEquivalentPresent: int := 0x0400
  const FlagElapsedTimePresent: int := 0x0800
  const FlagRemainingTimePresent: int := 0x1000

  datatype IndoorBikeDataFlags = IndoorBikeDataFlags(
    moreData: bool,
    averageSpeedPresent: bool,
    instantaneousCadencePresent: bool,
    averageCadencePresent: bool,
    totalDistancePresent: bool,
    resistanceLevelPresent: bool,
    instantaneousPowerPresent: bool,
    averagePowerPresent: bool,
    expendedEnergyPresent: bool,
    heartRatePresent: bool,
    metabolicEquivalentPresent: bool,
    elapsedTimePresent: bool,
    remainingTimePresent: bool)

  /** The flag word as read from a payload: an unsigned 16-bit value. */
  type RawFlags = x: int | 0 <= x < 0x1_0000

  /** `bool(raw & flag)` for a single-bit `flag`: the bit of `raw` that `flag` selects. */
  predicate HasFlag(raw: int, flag: int)
    requires flag > 0
  {
    (raw / flag) % 2 == 1
  }

  /** `parse_indoor_bike_flags`: one boolean per flag bit. */
  function ParseIndoorBikeFlags(raw: RawFlags): IndoorBikeDataFlags {
    IndoorBikeDataFlags(
      HasFlag(raw, FlagMoreData),
      HasFlag(raw, FlagAverageSpeedPresent),
      HasFlag(raw, FlagInstantaneousCadencePresent),
      HasFlag(raw, FlagAverageCadencePresent),
      HasFlag(raw, FlagTotalDistancePresent),
      HasFlag(raw, FlagResistanceLevelPresent),
      HasFlag(raw, FlagInstantaneousPowerPresent),
      HasFlag(raw, FlagAveragePowerPresent),
      HasFlag(raw, FlagExpendedEnergyPresent),
      HasFlag(raw, FlagHeartRatePresent),
      HasFlag(raw, FlagMetabolicEquivalentPresent),
      HasFlag(raw, FlagElapsedTimePresent),
      HasFlag(raw, FlagRemainingTimePresent))
  }

  /** `flag` when `present`, else no bit. */
  function Mask(present: bool, flag: int): (m: int)
    requires flag >= 0
    ensures 0 <= m <= flag
  {
    if present then flag else 0
  }

  /** The flag word that sets exactly the bits a flag record says are set. */
  function EncodeIndoorBikeFlags(f: IndoorBikeDataFlags): (raw: int)
    ensures 0 <= raw < 0x2000
  {
    Mask(f.moreData, FlagMoreData)
    + Mask(f.averageSpeedPresent, FlagAverageSpeedPresent)
    + Mask(f.instantaneousCadencePresent, FlagInstantaneousCadencePresent)
    + Mask(f.averageCadencePresent, FlagAverageCadencePresent)
    + Mask(f.totalDistancePresent, FlagTotalDistancePresent)
    + Mask(f.resistanceLevelPresent, FlagResistanceLevelPresent)
    + Mask(f.instantaneousPowerPresent, FlagInstantaneousPowerPresent)
    + Mask(f.averagePowerPresent, FlagAveragePowerPresent)
    + Mask(f.expendedEnergyPresent, FlagExpendedEnergyPresent)
    + Mask(f.heartRatePresent, FlagHeartRatePresent)
    + Mask(f.metabolicEquivalentPresent, FlagMetabolicEquivalentPresent)
    + Mask(f.elapsedTimePresent, FlagElapsedTimePresent)
    + Mask(f.remainingTimePresent, FlagRemainingTimePresent)
  }

  /** Euclidean remainders are unique. */
  lemma ModUnique(x: int, d: int, q: int, r: int)
    requires d > 0 && x == q * d + r && 0 <= r < d
    ensures x % d == r
  {
    var q', r' := x / d, x % d;
    assert (q' - q) * d == r - r';
    if q' - q >= 1 {
      MulAtLeast(q' - q, d);
    } else if q - q' >= 1 {
      MulAtLeast(q - q', d);
    }
  }

  lemma MulAtLeast(k: int, d: int)
    requires d > 0 && k >= 1
    ensures k * d >= d
  {
  }

  /** The remainder modulo `2p` is the remainder modulo `p` plus the bit `p` selects. */
  lemma ModDoubling(raw: int, p: int)
    requires p > 0
    ensures raw % (2 * p) == raw % p + Mask(HasFlag(raw, p), p)
  {
    var q := raw / p;
    var h := q / 2;
    assert raw == q * p + raw % p;
    assert q == 2 * h + q % 2;
    assert q * p == h * (2 * p) + (q % 2) * p;
    ModUnique(raw, 2 * p, h, (q % 2) * p + raw % p);
  }

  /** Decoding then re-encoding keeps exactly the low 13 bits: `raw & 0x1FFF`. */
  lemma FlagsRoundTrip(raw: RawFlags)
    ensures EncodeIndoorBikeFlags(ParseIndoorBikeFlags(raw)) == raw % 0x2000
  {
    assert raw % 1 == 0;
    ModDoubling(raw, 0x0001);
    ModDoubling(raw, 0x0002);
    ModDoubling(raw, 0x0004);
    ModDoubling(raw, 0x0008);
    ModDoubling(raw, 0x0010);
    ModDoubling(raw, 0x0020);
    ModDoubling(raw, 0x0040);
    ModDoubling(raw, 0x0080);
    ModDoubling(raw, 0x0100);
    ModDoubling(raw, 0x0200);
    ModDoubling(raw, 0x0400);
    ModDoubling(raw, 0x0800);
    ModDoubling(raw, 0x1000);
  }

  /** A bit below `2p * m` is the same in `raw` and in `raw % (2p * m)`. */
  lemma BitBelowModulus(raw: int, p: int, m: int, n: int)
    requires p > 0 && m > 0 && n == 2 * p * m
    ensures HasFlag(raw % n, p) == HasFlag(raw, p)
  {
    var low := raw % n;
    assert raw == (raw / n) * n + low;
    assert (raw / n) * n == ((raw / n) * m) * (2 * p);
    assert low == (low / (2 * p)) * (2 * p) + low % (2 * p);
    ModUnique(raw, 2 * p, (raw / n) * m + low / (2 * p), low % (2 * p));
    ModDoubling(raw, p);
    ModDoubling(low, p);
  }

  /** Bits 13 to 15 play no part in the decoded record. */
  lemma HighBitsIgnored(raw: RawFlags)
    ensures ParseIndoorBikeFlags(raw) == ParseIndoorBikeFlags(raw % 0x2000)
  {
    assert HasFlag(raw % 0x2000, 0x0001) == HasFlag(raw, 0x0001) by { BitBelowModulus(raw, 0x0001, 0x1000, 0x2000); }
    assert HasFlag(raw % 0x2000, 0x0002) == HasFlag(raw, 0x0002) by { BitBelowModulus(raw, 0x0002, 0x0800, 0x2000); }
    assert HasFlag(raw % 0x2000, 0x0004) == HasFlag(raw, 0x0004) by { BitBelowModulus(raw, 0x0004, 0x0400, 0x2000); }
    assert HasFlag(raw % 0x2000, 0x0008) == HasFlag(raw, 0x0008) by { BitBelowModulus(raw, 0x0008, 0x0200, 0x2000); }
    assert HasFlag(raw % 0x2000, 0x0010) == HasFlag(raw, 0x0010) by { BitBelowModulus(raw, 0x0010, 0x0100, 0x2000); }
    assert HasFlag(raw % 0x2000, 0x0020) == HasFlag(raw, 0x0020) by { BitBelowModulus(raw, 0x0020, 0x0080, 0x2000); }
    assert HasFlag(raw % 0x2000, 0x0040) == HasFlag(raw, 0x0040) by { BitBelowModulus(raw, 0x0040, 0x0040, 0x2000); }
    assert HasFlag(raw % 0x2000, 0x0080) == HasFlag(raw, 0x0080) by { BitBelowModulus(raw, 0x0080, 0x0020, 0x2000); }
    assert HasFlag(raw % 0x2000, 0x0100) == HasFlag(raw, 0x0100) by { BitBelowModulus(raw, 0x0100, 0x0010, 0x2000); }
    assert HasFlag(raw % 0x2000, 0x0200) == HasFlag(raw, 0x0200) by { BitBelowModulus(raw, 0x0200, 0x0008, 0x2000); }
    assert HasFlag(raw % 0x2000, 0x0400) == HasFlag(raw, 0x0400) by { BitBelowModulus(raw, 0x0400, 0x0004, 0x2000); }
    assert HasFlag(raw % 0x2000, 0x0800) == HasFlag(raw, 0x0800) by { BitBelowModulus(raw, 0x0800, 0x0002, 0x2000); }
    assert HasFlag(raw % 0x2000, 0x1000) == HasFlag(raw, 0x1000) by { BitBelowModulus(raw, 0x1000, 0x0001, 0x2000); }
  }

  /** Flag word 0x0044: cadence and power present, average speed absent, more-data clear. */
  lemma CadenceAndPowerFlags()
    ensures var f := ParseIndoorBikeFlags(0x0044);
      f.instantaneousCadencePresent && f.instantaneousPowerPresent
      && !f.averageSpeedPresent && !f.moreData
  {
  }
}
