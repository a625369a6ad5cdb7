/**
 * The Indoor Bike Data notification (characteristic 0x2AD2, section 4.9 of the
 * Bluetooth Fitness Machine Service 1.0 specification): a flag word followed by
 * the fields the flags select, in a fixed order and with fixed widths. The
 * trainer code decodes each payload twice, with and without the leading speed
 * field, and keeps the more plausible reading.
 */
module IndoorBike {
  import opened Wrappers
  import opened Bytes
  import opened Constants

  /** The three metrics the client keeps from a notification. */
  datatype IndoorBikeData = IndoorBikeData(
    power: Option<int>,
    cadence: Option<real>,
    speedKmh: Option<real>)

  /** The payload is under two bytes, or a present field of `size` bytes at `offset` overruns it. */
  datatype DecodeError = TooShort | Overrun(size: nat, offset: nat)

  /** One field position in the layout: whether it is present, and its width in bytes. */
  datatype Slot = Slot(present: bool, width: nat)

  /** Positions of the decoded fields within the layout. */
  const SpeedSlot: nat := 0
  const CadenceSlot: nat := 2
  const PowerSlot: nat := 6

  /**
   * The field layout after the flag word: instantaneous speed, average speed,
   * cadence, average cadence, total distance, resistance, power, average power,
   * expended energy, heart rate, metabolic equivalent, elapsed and remaining time.
   */
  function Layout(f: IndoorBikeDataFlags, speedPresent: bool): (s: seq<Slot>)
    ensures |s| == 13
    ensures s[0] == Slot(speedPresent, 2)
    ensures s[1] == Slot(f.averageSpeedPresent, 2)
    ensures s[2] == Slot(f.instantaneousCadencePresent, 2)
    ensures s[3] == Slot(f.averageCadencePresent, 2)
    ensures s[4] == Slot(f.totalDistancePresent, 3)
    ensures s[5] == Slot(f.resistanceLevelPresent, 2)
    ensures s[6] == Slot(f.instantaneousPowerPresent, 2)
    ensures s[7] == Slot(f.averagePowerPresent, 2)
    ensures s[8] == Slot(f.expendedEnergyPresent, 5)
    ensures s[9] == Slot(f.heartRatePresent, 1)
    ensures s[10] == Slot(f.metabolicEquivalentPresent, 1)
    ensures s[11] == Slot(f.elapsedTimePresent, 2)
    ensures s[12] == Slot(f.remainingTimePresent, 2)
  {
    [ Slot(speedPresent, 2),
      Slot(f.averageSpeedPresent, 2),
      Slot(f.instantaneousCadencePresent, 2),
      Slot(f.averageCadencePresent, 2),
      Slot(f.totalDistancePresent, 3),
      Slot(f.resistanceLevelPresent, 2),
      Slot(f.instantaneousPowerPresent, 2),
      Slot(f.averagePowerPresent, 2),
      Slot(f.expendedEnergyPresent, 5),
      Slot(f.heartRatePresent, 1),
      Slot(f.metabolicEquivalentPresent, 1),
      Slot(f.elapsedTimePresent, 2),
      Slot(f.remainingTimePresent, 2) ]
  }

  /** Bytes a slot occupies. */
  function Used(s: Slot): nat { if s.present then s.width else 0 }

  /** Bytes the present slots from `k` on occupy. */
  function WidthFrom(slots: seq<Slot>, k: nat): nat
    requires k <= |slots|
    decreases |slots| - k
  {
    if k == |slots| then 0 else Used(slots[k]) + WidthFrom(slots, k + 1)
  }

  /** Bytes the present slots before `k` occupy. */
  function WidthBefore(slots: seq<Slot>, k: nat): nat
    requires k <= |slots|
  {
    if k == 0 then 0 else WidthBefore(slots, k - 1) + Used(slots[k - 1])
  }

  /** Bytes all present slots occupy. */
  function Width(slots: seq<Slot>): nat {
    WidthFrom(slots, 0)
  }

  /** The slots before `k` and those from `k` on make up the whole width. */
  lemma {:induction false} WidthSplit(slots: seq<Slot>, k: nat)
    requires k <= |slots|
    ensures WidthBefore(slots, k) + WidthFrom(slots, k) == Width(slots)
  {
    if k > 0 {
      WidthSplit(slots, k - 1);
    }
  }

  /**
   * `_require_bytes` applied field by field from slot `k` at `cursor`: the first
   * present field that would overrun `len` bytes is the error, otherwise the
   * final cursor.
   */
  function Walk(slots: seq<Slot>, k: nat, len: nat, cursor: nat): Result<nat, DecodeError>
    requires k <= |slots|
    decreases |slots| - k
  {
    if k == |slots| then Ok(cursor)
    else if !slots[k].present then Walk(slots, k + 1, len, cursor)
    else if cursor + slots[k].width > len then Err(Overrun(slots[k].width, cursor))
    else Walk(slots, k + 1, len, cursor + slots[k].width)
  }

  /** The walk fails exactly when the present fields do not fit; on success it ends after them. */
  lemma {:induction false} WalkFits(slots: seq<Slot>, k: nat, len: nat, cursor: nat)
    requires k <= |slots| && cursor <= len
    decreases |slots| - k
    ensures Walk(slots, k, len, cursor).Ok? <==> cursor + WidthFrom(slots, k) <= len
    ensures Walk(slots, k, len, cursor).Ok? ==> Walk(slots, k, len, cursor).value == cursor + WidthFrom(slots, k)
    ensures Walk(slots, k, len, cursor).Err? ==>
      Walk(slots, k, len, cursor).error.Overrun? &&
      cursor <= Walk(slots, k, len, cursor).error.offset &&
      Walk(slots, k, len, cursor).error.offset + Walk(slots, k, len, cursor).error.size > len
  {
    if k < |slots| {
      if !slots[k].present {
        WalkFits(slots, k + 1, len, cursor);
      } else if cursor + slots[k].width <= len {
        WalkFits(slots, k + 1, len, cursor + slots[k].width);
      }
    }
  }

  /** The byte offset of slot `k`: after the flag word and the present slots before it. */
  function Offset(slots: seq<Slot>, k: nat): nat
    requires k <= |slots|
  {
    2 + WidthBefore(slots, k)
  }

  /** `width` bytes when `present`, else none. */
  function FieldBytes(present: bool, width: nat): nat { if present then width else 0 }

  /** The widths of the two slots before the cadence slot, spelled out from the flags. */
  lemma LayoutBeforeCadence(f: IndoorBikeDataFlags, speedPresent: bool)
    ensures WidthBefore(Layout(f, speedPresent), CadenceSlot) == FieldBytes(speedPresent, 2) + FieldBytes(f.averageSpeedPresent, 2)
  {
    var slots := Layout(f, speedPresent);
    assert WidthBefore(slots, 1) == FieldBytes(speedPresent, 2);
  }

  /** The widths of the six slots before the power slot, spelled out from the flags. */
  lemma LayoutBeforePower(f: IndoorBikeDataFlags, speedPresent: bool)
    ensures WidthBefore(Layout(f, speedPresent), PowerSlot) == FieldBytes(speedPresent, 2) + FieldBytes(f.averageSpeedPresent, 2) + FieldBytes(f.instantaneousCadencePresent, 2) + FieldBytes(f.averageCadencePresent, 2) + FieldBytes(f.totalDistancePresent, 3) + FieldBytes(f.resistanceLevelPresent, 2)
  {
    var slots := Layout(f, speedPresent);
    LayoutBeforeCadence(f, speedPresent);
    assert WidthBefore(slots, 3) == FieldBytes(speedPresent, 2) + FieldBytes(f.averageSpeedPresent, 2) + FieldBytes(f.instantaneousCadencePresent, 2);
    assert WidthBefore(slots, 4) == FieldBytes(speedPresent, 2) + FieldBytes(f.averageSpeedPresent, 2) + FieldBytes(f.instantaneousCadencePresent, 2) + FieldBytes(f.averageCadencePresent, 2);
    assert WidthBefore(slots, 5) == FieldBytes(speedPresent, 2) + FieldBytes(f.averageSpeedPresent, 2) + FieldBytes(f.instantaneousCadencePresent, 2) + FieldBytes(f.averageCadencePresent, 2) + FieldBytes(f.totalDistancePresent, 3);
  }

  /** The widths of the slots from the power slot on, spelled out from the flags. */
  lemma LayoutSuffix(f: IndoorBikeDataFlags, speedPresent: bool)
    ensures WidthFrom(Layout(f, speedPresent), PowerSlot) == FieldBytes(f.instantaneousPowerPresent, 2) + FieldBytes(f.averagePowerPresent, 2) + FieldBytes(f.expendedEnergyPresent, 5) + FieldBytes(f.heartRatePresent, 1) + FieldBytes(f.metabolicEquivalentPresent, 1) + FieldBytes(f.elapsedTimePresent, 2) + FieldBytes(f.remainingTimePresent, 2)
  {
    var slots := Layout(f, speedPresent);
    assert WidthFrom(slots, 12) == FieldBytes(f.remainingTimePresent, 2);
    assert WidthFrom(slots, 11) == FieldBytes(f.elapsedTimePresent, 2) + FieldBytes(f.remainingTimePresent, 2);
    assert WidthFrom(slots, 10) == FieldBytes(f.metabolicEquivalentPresent, 1) + FieldBytes(f.elapsedTimePresent, 2) + FieldBytes(f.remainingTimePresent, 2);
    assert WidthFrom(slots, 9) == FieldBytes(f.heartRatePresent, 1) + FieldBytes(f.metabolicEquivalentPresent, 1) + FieldBytes(f.elapsedTimePresent, 2) + FieldBytes(f.remainingTimePresent, 2);
    assert WidthFrom(slots, 8) == FieldBytes(f.expendedEnergyPresent, 5) + FieldBytes(f.heartRatePresent, 1) + FieldBytes(f.metabolicEquivalentPresent, 1) + FieldBytes(f.elapsedTimePresent, 2) + FieldBytes(f.remainingTimePresent, 2);
    assert WidthFrom(slots, 7) == FieldBytes(f.averagePowerPresent, 2) + FieldBytes(f.expendedEnergyPresent, 5) + FieldBytes(f.heartRatePresent, 1) + FieldBytes(f.metabolicEquivalentPresent, 1) + FieldBytes(f.elapsedTimePresent, 2) + FieldBytes(f.remainingTimePresent, 2);
  }

  /**
   * The layout's widths spelled out from the flags: the cadence field starts
   * after speed and average speed, the power field after the six fields before
   * it, and all present fields together take the sum of their widths.
   */
  lemma LayoutOffsets(f: IndoorBikeDataFlags, speedPresent: bool)
    ensures Offset(Layout(f, speedPresent), CadenceSlot) == 2 + FieldBytes(speedPresent, 2) + FieldBytes(f.averageSpeedPresent, 2)
    ensures Offset(Layout(f, speedPresent), PowerSlot) == 2 + FieldBytes(speedPresent, 2) + FieldBytes(f.averageSpeedPresent, 2) + FieldBytes(f.instantaneousCadencePresent, 2) + FieldBytes(f.averageCadencePresent, 2) + FieldBytes(f.totalDistancePresent, 3) + FieldBytes(f.resistanceLevelPresent, 2)
    ensures Width(Layout(f, speedPresent)) == FieldBytes(speedPresent, 2) + FieldBytes(f.averageSpeedPresent, 2) + FieldBytes(f.instantaneousCadencePresent, 2) + FieldBytes(f.averageCadencePresent, 2) + FieldBytes(f.totalDistancePresent, 3) + FieldBytes(f.resistanceLevelPresent, 2) + FieldBytes(f.instantaneousPowerPresent, 2) + FieldBytes(f.averagePowerPresent, 2) + FieldBytes(f.expendedEnergyPresent, 5) + FieldBytes(f.heartRatePresent, 1) + FieldBytes(f.metabolicEquivalentPresent, 1) + FieldBytes(f.elapsedTimePresent, 2) + FieldBytes(f.remainingTimePresent, 2)
  {
    LayoutBeforeCadence(f, speedPresent);
    LayoutBeforePower(f, speedPresent);
    LayoutSuffix(f, speedPresent);
    WidthSplit(Layout(f, speedPresent), PowerSlot);
  }

  /** The flags carried by the payload's first two bytes. */
  function FlagsOf(payload: seq<byte>): IndoorBikeDataFlags
    requires |payload| >= 2
  {
    ParseIndoorBikeFlags(U16At(payload, 0))
  }

  /** A layout of thirteen slots whose speed, cadence and power slots are two bytes wide. */
  predicate WellFormed(slots: seq<Slot>) {
    |slots| == 13 && slots[SpeedSlot].width == 2 && slots[CadenceSlot].width == 2 && slots[PowerSlot].width == 2
  }

  /** Slot `k`, if present, lies inside the payload. */
  predicate Inside(payload: seq<byte>, slots: seq<Slot>, k: nat)
    requires k < |slots|
  {
    slots[k].present ==> Offset(slots, k) + slots[k].width <= |payload|
  }

  /**
   * `_decode_indoor_bike_data` as a reference definition: the layout walk
   * decides success and the final cursor; speed is a u16 in 0.01 km/h, cadence a
   * u16 in 0.5 rpm and power an s16 in watts, each read at its slot's offset.
   */
  function DecodeSpec(payload: seq<byte>, speedPresent: bool): Result<(IndoorBikeData, nat), DecodeError>
    requires |payload| >= 2
  {
    FieldsSpec(payload, Layout(FlagsOf(payload), speedPresent))
  }

  /** The fields after the flag word, as `slots` lays them out. */
  function FieldsSpec(payload: seq<byte>, slots: seq<Slot>): Result<(IndoorBikeData, nat), DecodeError>
    requires |payload| >= 2 && WellFormed(slots)
  {
    match Walk(slots, 0, |payload|, 2)
    case Err(e) => Err(e)
    case Ok(cursor) =>
      WalkFits(slots, 0, |payload|, 2);
      FieldsInside(payload, slots);
      Ok((IndoorBikeData(PowerAt(payload, slots), CadenceAt(payload, slots), SpeedAt(payload, slots)), cursor))
  }

  /** The instantaneous speed in km/h: a u16 in units of 0.01 km/h right after the flag word. */
  function SpeedAt(payload: seq<byte>, slots: seq<Slot>): Option<real>
    requires WellFormed(slots) && Inside(payload, slots, SpeedSlot)
  {
    if slots[SpeedSlot].present then Some(U16At(payload, Offset(slots, SpeedSlot)) as real / 100.0) else None
  }

  /** The instantaneous cadence in rpm: a u16 in units of 0.5 rpm at the cadence slot's offset. */
  function CadenceAt(payload: seq<byte>, slots: seq<Slot>): Option<real>
    requires WellFormed(slots) && Inside(payload, slots, CadenceSlot)
  {
    if slots[CadenceSlot].present then Some(U16At(payload, Offset(slots, CadenceSlot)) as real / 2.0) else None
  }

  /** The instantaneous power in watts: an s16 at the power slot's offset. */
  function PowerAt(payload: seq<byte>, slots: seq<Slot>): Option<int>
    requires WellFormed(slots) && Inside(payload, slots, PowerSlot)
  {
    if slots[PowerSlot].present then Some(S16At(payload, Offset(slots, PowerSlot))) else None
  }

  /** Every present field of a layout that fits lies inside the payload. */
  lemma FieldsInside(payload: seq<byte>, slots: seq<Slot>)
    requires WellFormed(slots) && 2 + Width(slots) <= |payload|
    ensures Inside(payload, slots, SpeedSlot)
    ensures Inside(payload, slots, CadenceSlot)
    ensures Inside(payload, slots, PowerSlot)
  {
    WidthSplit(slots, SpeedSlot + 1);
    WidthSplit(slots, CadenceSlot + 1);
    WidthSplit(slots, PowerSlot + 1);
  }

  /** A walk that succeeds yields the values read at the slot offsets. */
  lemma FieldsSpecOk(payload: seq<byte>, slots: seq<Slot>, cursor: nat)
    requires |payload| >= 2 && WellFormed(slots)
    requires Walk(slots, 0, |payload|, 2) == Ok(cursor)
    ensures Inside(payload, slots, SpeedSlot)
    ensures Inside(payload, slots, CadenceSlot)
    ensures Inside(payload, slots, PowerSlot)
    ensures FieldsSpec(payload, slots) ==
      Ok((IndoorBikeData(PowerAt(payload, slots), CadenceAt(payload, slots), SpeedAt(payload, slots)), cursor))
  {
    WalkFits(slots, 0, |payload|, 2);
    FieldsInside(payload, slots);
  }

  /** Decoding fails exactly when the present fields overrun the payload; on success the cursor is just after them. */
  lemma DecodeFailsIffOverrun(payload: seq<byte>, speedPresent: bool)
    requires |payload| >= 2
    ensures var w := Width(Layout(FlagsOf(payload), speedPresent));
      (DecodeSpec(payload, speedPresent).Err? <==> 2 + w > |payload|) &&
      (DecodeSpec(payload, speedPresent).Ok? ==>
        DecodeSpec(payload, speedPresent).value.1 == 2 + w <= |payload|) &&
      (DecodeSpec(payload, speedPresent).Err? ==>
        var e := DecodeSpec(payload, speedPresent).error;
        e.Overrun? && e.offset + e.size > |payload|)
  {
    WalkFits(Layout(FlagsOf(payload), speedPresent), 0, |payload|, 2);
  }

  /** The decoder is tracking the reference walk: `cursor` is where slot `k` starts. */
  ghost predicate Tracks(slots: seq<Slot>, k: nat, len: nat, cursor: nat)
    requires k <= |slots|
  {
    cursor == Offset(slots, k) && Walk(slots, 0, len, 2) == Walk(slots, k, len, cursor)
  }

  /** Slot `k` is absent: the decoder moves on without reading. */
  lemma SkipAbsent(slots: seq<Slot>, k: nat, len: nat, cursor: nat)
    requires k < |slots| && Tracks(slots, k, len, cursor) && !slots[k].present
    ensures Tracks(slots, k + 1, len, cursor)
  {
  }

  /** Slot `k` is present and fits: the decoder reads it and moves past it. */
  lemma TakePresent(slots: seq<Slot>, k: nat, len: nat, cursor: nat)
    requires k < |slots| && Tracks(slots, k, len, cursor) && slots[k].present
    requires cursor + slots[k].width <= len
    ensures Tracks(slots, k + 1, len, cursor + slots[k].width)
  {
  }

  /** Slot `k` is present and overruns: the decode fails here. */
  lemma Overruns(slots: seq<Slot>, k: nat, len: nat, cursor: nat)
    requires k < |slots| && Tracks(slots, k, len, cursor) && slots[k].present
    requires cursor + slots[k].width > len
    ensures Walk(slots, 0, len, 2) == Err(Overrun(slots[k].width, cursor))
  {
  }

  /** `_require_bytes`: `size` bytes at `cursor` must lie inside the payload. */
  function RequireBytes(len: nat, cursor: nat, size: nat): (e: Option<DecodeError>)
    ensures e.None? <==> cursor + size <= len
    ensures e.Some? ==> e.value == Overrun(size, cursor)
  {
    if cursor + size > len then Some(Overrun(size, cursor)) else None
  }

  /** `_decode_indoor_bike_data`: reads the flag word, then the fields it selects. */
  method DecodeIndoorBikeData(payload: seq<byte>, speedPresent: bool)
    returns (r: Result<(IndoorBikeData, nat), DecodeError>)
    requires |payload| >= 2
    ensures r == DecodeSpec(payload, speedPresent)
  {
    var flags := ParseIndoorBikeFlags(U16At(payload, 0));
    r := DecodeFields(payload, Layout(flags, speedPresent));
  }

  /**
   * The body of `_decode_indoor_bike_data` after the flag word: the fields are
   * taken in layout order, each checked against the payload length before the
   * cursor moves past it; speed, cadence and power are read on the way.
   */
  method DecodeFields(payload: seq<byte>, slots: seq<Slot>)
    returns (r: Result<(IndoorBikeData, nat), DecodeError>)
    requires |payload| >= 2 && WellFormed(slots)
    ensures r == FieldsSpec(payload, slots)
  {
    var n := |payload|;
    var cursor: nat := 2;
    var speed: Option<real> := None;
    var cadence: Option<real> := None;
    var power: Option<int> := None;
    var k := 0;
    while k < |slots|
      invariant k <= |slots| && Tracks(slots, k, n, cursor)
      invariant k > SpeedSlot ==> Inside(payload, slots, SpeedSlot)
      invariant k > CadenceSlot ==> Inside(payload, slots, CadenceSlot)
      invariant k > PowerSlot ==> Inside(payload, slots, PowerSlot)
      invariant speed == if k > SpeedSlot then SpeedAt(payload, slots) else None
      invariant cadence == if k > CadenceSlot then CadenceAt(payload, slots) else None
      invariant power == if k > PowerSlot then PowerAt(payload, slots) else None
    {
      var slot := slots[k];
      if slot.present {
        if cursor + slot.width > n {
          Overruns(slots, k, n, cursor);
          return Err(Overrun(slot.width, cursor));
        }
        if k == SpeedSlot {
          speed := Some(U16At(payload, cursor) as real / 100.0);
        } else if k == CadenceSlot {
          cadence := Some(U16At(payload, cursor) as real / 2.0);
        } else if k == PowerSlot {
          power := Some(S16At(payload, cursor));
        }
        TakePresent(slots, k, n, cursor);
        cursor := cursor + slot.width;
      } else {
        SkipAbsent(slots, k, n, cursor);
      }
      k := k + 1;
    }
    FieldsSpecOk(payload, slots, cursor);
    return Ok((IndoorBikeData(power, cadence, speed), cursor));
  }

  /** Cadence in 0..220 rpm, power in -200..3000 W, speed in 0..130 km/h: the ranges a real rider produces. */
  predicate CadencePlausible(m: IndoorBikeData) { m.cadence.Some? ==> 0.0 <= m.cadence.value <= 220.0 }
  predicate PowerPlausible(m: IndoorBikeData) { m.power.Some? ==> -200 <= m.power.value <= 3000 }
  predicate SpeedPlausible(m: IndoorBikeData) { m.speedKmh.Some? ==> 0.0 <= m.speedKmh.value <= 130.0 }

  /** `_plausibility_score`: 1000 for each present metric outside its plausible range. */
  function PlausibilityScore(m: IndoorBikeData): (score: int)
    ensures score == 1000 * ((if CadencePlausible(m) then 0 else 1)
      + (if PowerPlausible(m) then 0 else 1) + (if SpeedPlausible(m) then 0 else 1))
  {
    var c := if m.cadence.Some? && (m.cadence.value < 0.0 || m.cadence.value > 220.0) then 1000 else 0;
    var p := if m.power.Some? && (m.power.value < -200 || m.power.value > 3000) then 1000 else 0;
    var v := if m.speedKmh.Some? && (m.speedKmh.value < 0.0 || m.speedKmh.value > 130.0) then 1000 else 0;
    c + p + v
  }

  /** A score of zero means every present metric is plausible, and the score never exceeds 3000. */
  lemma ScoreZeroIffPlausible(m: IndoorBikeData)
    ensures PlausibilityScore(m) == 0 <==> CadencePlausible(m) && PowerPlausible(m) && SpeedPlausible(m)
    ensures 0 <= PlausibilityScore(m) <= 3000 && PlausibilityScore(m) % 1000 == 0
  {
  }

  /** One successful decode: its score, the bytes it left unread, and its metrics. */
  datatype Candidate = Candidate(score: int, trailing: int, metrics: IndoorBikeData)

  /** The sort key `(score, trailing_bytes)`, compared lexicographically. */
  predicate KeyLe(a: Candidate, b: Candidate) {
    a.score < b.score || (a.score == b.score && a.trailing <= b.trailing)
  }

  /**
   * The candidate a stable sort by `(score, trailing)` puts first: one with the
   * least key, and of those the earliest.
   */
  function BestIndex(cs: seq<Candidate>): (i: nat)
    requires |cs| > 0
    ensures i < |cs|
    ensures forall j :: 0 <= j < |cs| ==> KeyLe(cs[i], cs[j])
    ensures forall j :: 0 <= j < i ==> !KeyLe(cs[j], cs[i])
  {
    if |cs| == 1 then 0
    else
      var b := BestIndex(cs[1..]);
      if KeyLe(cs[0], cs[1..][b]) then 0 else b + 1
  }

  /** A decode's outcome: the metrics and the final cursor, or the error it raised. */
  type Decoded = Result<(IndoorBikeData, nat), DecodeError>

  /** The candidate a successful decode of a `len`-byte payload contributes. */
  function CandidateFrom(len: nat, d: Decoded): Candidate
    requires d.Ok?
  {
    Candidate(PlausibilityScore(d.value.0), len - d.value.1, d.value.0)
  }

  /** The candidates the successful decodes contribute, in the order they were tried. */
  function Candidates(len: nat, ds: seq<Decoded>): (cs: seq<Candidate>)
    ensures |cs| <= |ds|
  {
    if |ds| == 0 then []
    else
      var last := ds[|ds| - 1];
      Candidates(len, ds[..|ds| - 1]) + (if last.Ok? then [CandidateFrom(len, last)] else [])
  }

  /** The errors the failed decodes raised, in the order they were tried. */
  function Errors(ds: seq<Decoded>): (es: seq<DecodeError>)
  {
    if |ds| == 0 then []
    else
      var last := ds[|ds| - 1];
      Errors(ds[..|ds| - 1]) + (if last.Err? then [last.error] else [])
  }

  /** Every decode either adds a candidate or an error. */
  lemma {:induction false} CandidatesAndErrors(len: nat, ds: seq<Decoded>)
    ensures |Candidates(len, ds)| + |Errors(ds)| == |ds|
  {
    if |ds| > 0 {
      CandidatesAndErrors(len, ds[..|ds| - 1]);
    }
  }

  /** The candidates and errors of two decodes, spelled out. */
  lemma PairOutcome(len: nat, x: Decoded, y: Decoded)
    ensures Candidates(len, [x, y]) ==
      (if x.Ok? then [CandidateFrom(len, x)] else []) + (if y.Ok? then [CandidateFrom(len, y)] else [])
    ensures x.Err? ==> |Errors([x, y])| > 0 && Errors([x, y])[0] == x.error
  {
    assert [x, y][..1] == [x];
    assert [x][..0] == [];
    assert Errors([x, y]) == Errors([x]) + (if y.Err? then [y.error] else []);
    assert Errors([x]) == Errors([]) + (if x.Err? then [x.error] else []);
  }

  /** The alignment the flags claim: speed present exactly when `more_data` is clear. */
  function PreferredSpeedPresent(payload: seq<byte>): bool
    requires |payload| >= 2
  {
    !FlagsOf(payload).moreData
  }

  /** The two decodes, preferred alignment first. */
  function Attempts(payload: seq<byte>): (ds: seq<Decoded>)
    requires |payload| >= 2
    ensures |ds| == 2
  {
    var pref := PreferredSpeedPresent(payload);
    [DecodeSpec(payload, pref), DecodeSpec(payload, !pref)]
  }

  /** `parse_indoor_bike_data` as a reference definition. */
  function ParseSpec(payload: seq<byte>): Result<IndoorBikeData, DecodeError> {
    if |payload| < 2 then Err(TooShort)
    else
      var ds := Attempts(payload);
      var cs := Candidates(|payload|, ds);
      CandidatesAndErrors(|payload|, ds);
      if |cs| == 0 then Err(Errors(ds)[0]) else Ok(cs[BestIndex(cs)].metrics)
  }

  /**
   * `parse_indoor_bike_data`: decodes with the preferred alignment and then the
   * other, keeps the successful decodes as candidates, and returns the one a
   * stable sort by `(score, trailing_bytes)` puts first; when both decodes raise,
   * the first error is raised.
   */
  method ParseIndoorBikeData(payload: seq<byte>) returns (r: Result<IndoorBikeData, DecodeError>)
    ensures r == ParseSpec(payload)
  {
    if |payload| < 2 {
      return Err(TooShort);
    }
    var flags := ParseIndoorBikeFlags(U16At(payload, 0));
    var preferredSpeedPresent := !flags.moreData;
    var order := [preferredSpeedPresent, !preferredSpeedPresent];
    ghost var ds := Attempts(payload);
    var candidates: seq<Candidate> := [];
    var errors: seq<DecodeError> := [];
    var i := 0;
    while i < |order|
      invariant i <= |order|
      invariant candidates == Candidates(|payload|, ds[..i])
      invariant errors == Errors(ds[..i])
    {
      assert ds[..i + 1][..i] == ds[..i];
      var decoded := DecodeIndoorBikeData(payload, order[i]);
      assert decoded == ds[i];
      match decoded {
        case Ok((metrics, cursor)) =>
          candidates := candidates + [Candidate(PlausibilityScore(metrics), |payload| - cursor, metrics)];
        case Err(e) =>
          errors := errors + [e];
      }
      i := i + 1;
    }
    assert ds[..2] == ds;
    if |candidates| == 0 {
      CandidatesAndErrors(|payload|, ds);
      return Err(errors[0]);
    }
    var best := BestIndex(candidates);
    return Ok(candidates[best].metrics);
  }

  /** Payloads under two bytes are rejected as too short, and only those. */
  lemma TooShortIffUnderTwoBytes(payload: seq<byte>)
    ensures ParseSpec(payload) == Err(TooShort) <==> |payload| < 2
  {
    if |payload| >= 2 {
      var pref := PreferredSpeedPresent(payload);
      var ds := Attempts(payload);
      PairOutcome(|payload|, ds[0], ds[1]);
      assert ds == [ds[0], ds[1]];
      DecodeFailsIffOverrun(payload, pref);
    }
  }

  /** The candidate a decode with `speedPresent` contributes, when it succeeds. */
  function CandidateOf(payload: seq<byte>, speedPresent: bool): Candidate
    requires |payload| >= 2 && DecodeSpec(payload, speedPresent).Ok?
  {
    CandidateFrom(|payload|, DecodeSpec(payload, speedPresent))
  }

  /**
   * A successful parse returns the preferred decode's metrics exactly when that
   * decode succeeds and its `(score, trailing)` key is no greater than the other
   * decode's (if that one succeeds too); otherwise it returns the other decode's.
   */
  lemma ParseChoosesLeastKey(payload: seq<byte>)
    requires |payload| >= 2
    ensures var pref := PreferredSpeedPresent(payload);
      var a := DecodeSpec(payload, pref);
      var b := DecodeSpec(payload, !pref);
      if a.Ok? && (b.Ok? ==> KeyLe(CandidateOf(payload, pref), CandidateOf(payload, !pref)))
      then ParseSpec(payload) == Ok(a.value.0)
      else b.Ok? ==> ParseSpec(payload) == Ok(b.value.0)
  {
    var ds := Attempts(payload);
    PairOutcome(|payload|, ds[0], ds[1]);
    assert ds == [ds[0], ds[1]];
  }

  /** When both decodes raise, the error raised is the preferred decode's. */
  lemma BothFailRaisesPreferred(payload: seq<byte>)
    requires |payload| >= 2
    requires DecodeSpec(payload, true).Err? && DecodeSpec(payload, false).Err?
    ensures ParseSpec(payload) == Err(DecodeSpec(payload, PreferredSpeedPresent(payload)).error)
  {
    var ds := Attempts(payload);
    PairOutcome(|payload|, ds[0], ds[1]);
    assert ds == [ds[0], ds[1]];
  }

  /**
   * With the speed field assumed present the decode needs two more bytes: it
   * succeeds only if the speed-absent decode does, and then leaves exactly two
   * fewer trailing bytes.
   */
  lemma SpeedPresentIsTighter(payload: seq<byte>)
    requires |payload| >= 2
    ensures DecodeSpec(payload, true).Ok? ==>
      DecodeSpec(payload, false).Ok? &&
      DecodeSpec(payload, true).value.1 == DecodeSpec(payload, false).value.1 + 2
  {
    var f := FlagsOf(payload);
    var with := Layout(f, true);
    var without := Layout(f, false);
    assert WidthFrom(with, 1) == WidthFrom(without, 1) by {
      SameTail(with, without, 1);
    }
    DecodeFailsIffOverrun(payload, true);
    DecodeFailsIffOverrun(payload, false);
  }

  /** Layouts that agree from slot `k` on have the same width from `k` on. */
  lemma {:induction false} SameTail(a: seq<Slot>, b: seq<Slot>, k: nat)
    requires |a| == |b| && k <= |a| && a[k..] == b[k..]
    decreases |a| - k
    ensures WidthFrom(a, k) == WidthFrom(b, k)
  {
    if k < |a| {
      assert a[k] == a[k..][0] == b[k..][0] == b[k];
      assert a[k + 1..] == a[k..][1..];
      assert b[k + 1..] == b[k..][1..];
      SameTail(a, b, k + 1);
    }
  }

  /**
   * When both alignments decode and score the same, the speed-present reading is
   * returned, whatever the `more_data` bit claims.
   */
  lemma EqualScoresPreferSpeed(payload: seq<byte>)
    requires |payload| >= 2
    requires DecodeSpec(payload, true).Ok? && DecodeSpec(payload, false).Ok?
    requires CandidateOf(payload, true).score == CandidateOf(payload, false).score
    ensures ParseSpec(payload) == Ok(DecodeSpec(payload, true).value.0)
  {
    SpeedPresentIsTighter(payload);
    ParseChoosesLeastKey(payload);
  }
}

/** Worked payloads for the Indoor Bike Data parser. */
module IndoorBikeExamples {
  import opened Wrappers
  import opened Bytes
  import opened Constants
  import opened IndoorBike

  /**
   * Flags 0x0044 (cadence and power present, `more_data` clear) followed by the
   * words 3000, 176 and 182, as `struct.pack("<HHHh", ...)` writes them.
   */
  predicate CadenceAndPower(p: seq<byte>) {
    |p| == 8 && U16At(p, 0) == 0x44 && U16At(p, 2) == 3000 && U16At(p, 4) == 176 && S16At(p, 6) == 182
  }

  /** The bytes of that payload. */
  lemma CadenceAndPowerBytes()
    ensures CadenceAndPower([0x44, 0x00, 0xB8, 0x0B, 0xB0, 0x00, 0xB6, 0x00])
  {
  }

  /** The layouts the flags 0x0044 give, with and without the speed field. */
  lemma CadenceAndPowerLayouts()
    ensures var f := ParseIndoorBikeFlags(0x44);
      !f.moreData && f.instantaneousCadencePresent && f.instantaneousPowerPresent &&
      Width(Layout(f, true)) == 6 && Width(Layout(f, false)) == 4 &&
      Offset(Layout(f, true), CadenceSlot) == 4 && Offset(Layout(f, true), PowerSlot) == 6 &&
      Offset(Layout(f, false), CadenceSlot) == 2 && Offset(Layout(f, false), PowerSlot) == 4
  {
    var f := ParseIndoorBikeFlags(0x44);
    assert f == IndoorBikeDataFlags(false, false, true, false, false, false, true, false, false, false, false, false, false);
    LayoutOffsets(f, true);
    LayoutOffsets(f, false);
  }

  /** The speed-present layout of flags 0x44 fits the eight bytes and ends at byte 8. */
  lemma CadenceAndPowerWithSpeedWalk()
    ensures var with := Layout(ParseIndoorBikeFlags(0x44), true);
      WellFormed(with) && Walk(with, 0, 8, 2) == Ok(8)
  {
    var with := Layout(ParseIndoorBikeFlags(0x44), true);
    CadenceAndPowerLayouts();
    WalkFits(with, 0, 8, 2);
  }

  /** The values the speed-present layout of flags 0x44 reads from the payload. */
  lemma CadenceAndPowerWithSpeedReads(p: seq<byte>)
    requires CadenceAndPower(p)
    requires var with := Layout(ParseIndoorBikeFlags(0x44), true);
      WellFormed(with) && Inside(p, with, SpeedSlot) && Inside(p, with, CadenceSlot) && Inside(p, with, PowerSlot)
    ensures var with := Layout(ParseIndoorBikeFlags(0x44), true);
      SpeedAt(p, with) == Some(30.0) && CadenceAt(p, with) == Some(88.0) && PowerAt(p, with) == Some(182)
  {
    var with := Layout(ParseIndoorBikeFlags(0x44), true);
    assert SpeedAt(p, with) == Some(30.0) by {
      assert Offset(with, SpeedSlot) == 2 && with[SpeedSlot].present;
      assert U16At(p, 2) as real / 100.0 == 30.0;
    }
    assert CadenceAt(p, with) == Some(88.0) by {
      CadenceAndPowerLayouts();
    }
    assert PowerAt(p, with) == Some(182) by {
      CadenceAndPowerLayouts();
    }
  }

  /** Read with the speed field: 30.0 km/h, 88.0 rpm and 182 W, every byte used. */
  lemma CadenceAndPowerWithSpeed(p: seq<byte>)
    requires CadenceAndPower(p)
    ensures DecodeSpec(p, true) == Ok((IndoorBikeData(Some(182), Some(88.0), Some(30.0)), 8))
  {
    var with := Layout(ParseIndoorBikeFlags(0x44), true);
    CadenceAndPowerWithSpeedWalk();
    FieldsSpecOk(p, with, 8);
    CadenceAndPowerWithSpeedReads(p);
    assert FlagsOf(p) == ParseIndoorBikeFlags(0x44);
  }

  /** The speed-absent layout of flags 0x44 fits the eight bytes and ends at byte 6. */
  lemma CadenceAndPowerWithoutSpeedWalk()
    ensures var without := Layout(ParseIndoorBikeFlags(0x44), false);
      WellFormed(without) && Walk(without, 0, 8, 2) == Ok(6)
  {
    var without := Layout(ParseIndoorBikeFlags(0x44), false);
    CadenceAndPowerLayouts();
    WalkFits(without, 0, 8, 2);
  }

  /** The values the speed-absent layout of flags 0x44 reads from the payload. */
  lemma CadenceAndPowerWithoutSpeedReads(p: seq<byte>)
    requires CadenceAndPower(p)
    requires var without := Layout(ParseIndoorBikeFlags(0x44), false);
      WellFormed(without) && Inside(p, without, SpeedSlot) && Inside(p, without, CadenceSlot) && Inside(p, without, PowerSlot)
    ensures var without := Layout(ParseIndoorBikeFlags(0x44), false);
      SpeedAt(p, without) == None && CadenceAt(p, without) == Some(1500.0) && PowerAt(p, without) == Some(176)
  {
    var without := Layout(ParseIndoorBikeFlags(0x44), false);
    assert SpeedAt(p, without) == None by {
      assert !without[SpeedSlot].present;
    }
    assert CadenceAt(p, without) == Some(1500.0) by {
      CadenceAndPowerLayouts();
    }
    assert PowerAt(p, without) == Some(176) by {
      CadenceAndPowerLayouts();
    }
  }

  /** Read without the speed field: 176 W and an implausible 1500.0 rpm, with two bytes left over. */
  lemma CadenceAndPowerWithoutSpeed(p: seq<byte>)
    requires CadenceAndPower(p)
    ensures DecodeSpec(p, false) == Ok((IndoorBikeData(Some(176), Some(1500.0), None), 6))
  {
    var without := Layout(ParseIndoorBikeFlags(0x44), false);
    CadenceAndPowerWithoutSpeedWalk();
    FieldsSpecOk(p, without, 6);
    CadenceAndPowerWithoutSpeedReads(p);
    assert FlagsOf(p) == ParseIndoorBikeFlags(0x44);
  }

  /** The parser returns the speed-present reading: 30.0 km/h, 88.0 rpm, 182 W. */
  lemma CadenceAndPowerPayload(p: seq<byte>)
    requires CadenceAndPower(p)
    ensures ParseSpec(p) == Ok(IndoorBikeData(Some(182), Some(88.0), Some(30.0)))
  {
    assert PreferredSpeedPresent(p) by {
      CadenceAndPowerLayouts();
    }
    assert DecodeSpec(p, true).Ok? && DecodeSpec(p, false).Ok? &&
      KeyLe(CandidateOf(p, true), CandidateOf(p, false)) &&
      DecodeSpec(p, true).value.0 == IndoorBikeData(Some(182), Some(88.0), Some(30.0)) by {
      CadenceAndPowerWithSpeed(p);
      CadenceAndPowerWithoutSpeed(p);
    }
    ParseChoosesLeastKey(p);
  }


  /** Flags 0x0041 (`more_data` and power present) followed by the power word -10. */
  predicate NegativePower(p: seq<byte>) {
    |p| == 4 && U16At(p, 0) == 0x41 && S16At(p, 2) == -10
  }

  /** The bytes of that payload. */
  lemma NegativePowerBytes()
    ensures NegativePower([0x41, 0x00, 0xF6, 0xFF])
  {
  }

  /** The layouts the flags 0x0041 give, with and without the speed field. */
  lemma NegativePowerLayouts()
    ensures var f := ParseIndoorBikeFlags(0x41);
      f.moreData && !f.instantaneousCadencePresent && f.instantaneousPowerPresent &&
      Width(Layout(f, true)) == 4 && Width(Layout(f, false)) == 2 &&
      Offset(Layout(f, false), PowerSlot) == 2
  {
    var f := ParseIndoorBikeFlags(0x41);
    assert f == IndoorBikeDataFlags(true, false, false, false, false, false, true, false, false, false, false, false, false);
    LayoutOffsets(f, true);
    LayoutOffsets(f, false);
  }

  /** The parser returns power -10 W and no cadence: only the speed-absent decode fits. */
  lemma NegativePowerPayload(p: seq<byte>)
    requires NegativePower(p)
    ensures ParseSpec(p) == Ok(IndoorBikeData(Some(-10), None, None))
  {
    var without := Layout(ParseIndoorBikeFlags(0x41), false);
    var with := Layout(ParseIndoorBikeFlags(0x41), true);
    assert !PreferredSpeedPresent(p) by {
      NegativePowerLayouts();
    }
    assert WellFormed(without) && Walk(without, 0, 4, 2) == Ok(4) && Walk(with, 0, 4, 2).Err? by {
      NegativePowerLayouts();
      WalkFits(without, 0, 4, 2);
      WalkFits(with, 0, 4, 2);
    }
    FieldsSpecOk(p, without, 4);
    assert SpeedAt(p, without) == None by {
      assert !without[SpeedSlot].present;
    }
    assert CadenceAt(p, without) == None by {
      NegativePowerLayouts();
    }
    assert PowerAt(p, without) == Some(-10) by {
      NegativePowerLayouts();
    }
    ParseChoosesLeastKey(p);
  }

  /**
   * Flags 0x0045 (`more_data`, cadence and power) from a trainer that still sends
   * the speed field: the words 2500, 170 and 260.
   */
  predicate SpeedDespiteMoreData(p: seq<byte>) {
    |p| == 8 && U16At(p, 0) == 0x45 && U16At(p, 2) == 2500 && U16At(p, 4) == 170 && S16At(p, 6) == 260
  }

  /** The bytes of that payload. */
  lemma SpeedDespiteMoreDataBytes()
    ensures SpeedDespiteMoreData([0x45, 0x00, 0xC4, 0x09, 0xAA, 0x00, 0x04, 0x01])
  {
  }

  /** The layouts the flags 0x0045 give, with and without the speed field. */
  lemma SpeedDespiteMoreDataLayouts()
    ensures var f := ParseIndoorBikeFlags(0x45);
      f.moreData && f.instantaneousCadencePresent && f.instantaneousPowerPresent &&
      Width(Layout(f, true)) == 6 && Width(Layout(f, false)) == 4 &&
      Offset(Layout(f, true), CadenceSlot) == 4 && Offset(Layout(f, true), PowerSlot) == 6 &&
      Offset(Layout(f, false), CadenceSlot) == 2 && Offset(Layout(f, false), PowerSlot) == 4
  {
    var f := ParseIndoorBikeFlags(0x45);
    assert f == IndoorBikeDataFlags(true, false, true, false, false, false, true, false, false, false, false, false, false);
    LayoutOffsets(f, true);
    LayoutOffsets(f, false);
  }

  /** The speed-present layout of flags 0x45 fits the eight bytes and ends at byte 8. */
  lemma SpeedDespiteMoreDataWithSpeedWalk()
    ensures var with := Layout(ParseIndoorBikeFlags(0x45), true);
      WellFormed(with) && Walk(with, 0, 8, 2) == Ok(8)
  {
    var with := Layout(ParseIndoorBikeFlags(0x45), true);
    SpeedDespiteMoreDataLayouts();
    WalkFits(with, 0, 8, 2);
  }

  /** The values the speed-present layout of flags 0x45 reads from the payload. */
  lemma SpeedDespiteMoreDataWithSpeedReads(p: seq<byte>)
    requires SpeedDespiteMoreData(p)
    requires var with := Layout(ParseIndoorBikeFlags(0x45), true);
      WellFormed(with) && Inside(p, with, SpeedSlot) && Inside(p, with, CadenceSlot) && Inside(p, with, PowerSlot)
    ensures var with := Layout(ParseIndoorBikeFlags(0x45), true);
      SpeedAt(p, with) == Some(25.0) && CadenceAt(p, with) == Some(85.0) && PowerAt(p, with) == Some(260)
  {
    var with := Layout(ParseIndoorBikeFlags(0x45), true);
    assert SpeedAt(p, with) == Some(25.0) by {
      assert Offset(with, SpeedSlot) == 2 && with[SpeedSlot].present;
      assert U16At(p, 2) as real / 100.0 == 25.0;
    }
    assert CadenceAt(p, with) == Some(85.0) by {
      SpeedDespiteMoreDataLayouts();
    }
    assert PowerAt(p, with) == Some(260) by {
      SpeedDespiteMoreDataLayouts();
    }
  }

  /** The speed-present reading: 25.0 km/h, 85.0 rpm and 260 W, every byte used. */
  lemma SpeedDespiteMoreDataWithSpeed(p: seq<byte>)
    requires SpeedDespiteMoreData(p)
    ensures DecodeSpec(p, true) == Ok((IndoorBikeData(Some(260), Some(85.0), Some(25.0)), 8))
  {
    var with := Layout(ParseIndoorBikeFlags(0x45), true);
    SpeedDespiteMoreDataWithSpeedWalk();
    FieldsSpecOk(p, with, 8);
    SpeedDespiteMoreDataWithSpeedReads(p);
    assert FlagsOf(p) == ParseIndoorBikeFlags(0x45);
  }

  /** The speed-absent layout of flags 0x45 fits the eight bytes and ends at byte 6. */
  lemma SpeedDespiteMoreDataWithoutSpeedWalk()
    ensures var without := Layout(ParseIndoorBikeFlags(0x45), false);
      WellFormed(without) && Walk(without, 0, 8, 2) == Ok(6)
  {
    var without := Layout(ParseIndoorBikeFlags(0x45), false);
    SpeedDespiteMoreDataLayouts();
    WalkFits(without, 0, 8, 2);
  }

  /** The values the speed-absent layout of flags 0x45 reads from the payload. */
  lemma SpeedDespiteMoreDataWithoutSpeedReads(p: seq<byte>)
    requires SpeedDespiteMoreData(p)
    requires var without := Layout(ParseIndoorBikeFlags(0x45), false);
      WellFormed(without) && Inside(p, without, SpeedSlot) && Inside(p, without, CadenceSlot) && Inside(p, without, PowerSlot)
    ensures var without := Layout(ParseIndoorBikeFlags(0x45), false);
      SpeedAt(p, without) == None && CadenceAt(p, without) == Some(1250.0) && PowerAt(p, without) == Some(170)
  {
    var without := Layout(ParseIndoorBikeFlags(0x45), false);
    assert SpeedAt(p, without) == None by {
      assert !without[SpeedSlot].present;
    }
    assert CadenceAt(p, without) == Some(1250.0) by {
      SpeedDespiteMoreDataLayouts();
    }
    assert PowerAt(p, without) == Some(170) by {
      SpeedDespiteMoreDataLayouts();
    }
  }

  /** The speed-absent reading the flags suggest: 170 W and an implausible 1250.0 rpm. */
  lemma SpeedDespiteMoreDataWithoutSpeed(p: seq<byte>)
    requires SpeedDespiteMoreData(p)
    ensures DecodeSpec(p, false) == Ok((IndoorBikeData(Some(170), Some(1250.0), None), 6))
  {
    var without := Layout(ParseIndoorBikeFlags(0x45), false);
    SpeedDespiteMoreDataWithoutSpeedWalk();
    FieldsSpecOk(p, without, 6);
    SpeedDespiteMoreDataWithoutSpeedReads(p);
    assert FlagsOf(p) == ParseIndoorBikeFlags(0x45);
  }

  /** Although `more_data` is set, the parser returns the plausible speed-present reading. */
  lemma SpeedDespiteMoreDataPayload(p: seq<byte>)
    requires SpeedDespiteMoreData(p)
    ensures ParseSpec(p) == Ok(IndoorBikeData(Some(260), Some(85.0), Some(25.0)))
  {
    assert !PreferredSpeedPresent(p) by {
      SpeedDespiteMoreDataLayouts();
    }
    assert DecodeSpec(p, true).Ok? && DecodeSpec(p, false).Ok? &&
      !KeyLe(CandidateOf(p, false), CandidateOf(p, true)) &&
      DecodeSpec(p, true).value.0 == IndoorBikeData(Some(260), Some(85.0), Some(25.0)) by {
      SpeedDespiteMoreDataWithSpeed(p);
      SpeedDespiteMoreDataWithoutSpeed(p);
    }
    ParseChoosesLeastKey(p);
  }
}
