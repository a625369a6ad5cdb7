/**
 * The coaching hint shown during a ride: a priority classifier over the
 * live power and cadence against the expected bands, and a stabiliser that
 * keeps the shown hint from flickering when the values oscillate around a
 * threshold.
 */
module Coaching {
  import opened Wrappers

  /** The hint: a key the stabiliser compares, the text shown, its colour and its severity. */
  datatype CoachingSignal = CoachingSignal(key: string, text: string, color: string, severity: string)

  const Green := "#22c55e"
  const Amber := "#f59e0b"
  const Red := "#ef4444"

  /** The colour each severity is shown in. */
  function ColorOf(severity: string): string
  {
    if severity == "bad" then Red else if severity == "warn" then Amber else Green
  }

  /** Which of the four deviations hold. */
  datatype Deviations = Deviations(powerLow: bool, powerHigh: bool, cadenceLow: bool, cadenceHigh: bool)
  {
    predicate PowerOff() { powerLow || powerHigh }
    predicate CadenceOff() { cadenceLow || cadenceHigh }
    predicate Any() { PowerOff() || CadenceOff() }
  }

  /**
   * The deviations of a reading against its bounds. A missing reading or a
   * missing bound never deviates. Power is an integer in watts; cadence is a
   * real number of rpm compared with integer bounds.
   */
  function DeviationsOf(
    power: Option<int>, cadence: Option<real>,
    expectedPowerMin: Option<int>, expectedPowerMax: Option<int>,
    expectedCadenceMin: Option<int>, expectedCadenceMax: Option<int>): Deviations
  {
    Deviations(
      power.Some? && expectedPowerMin.Some? && power.value < expectedPowerMin.value,
      power.Some? && expectedPowerMax.Some? && power.value > expectedPowerMax.value,
      cadence.Some? && expectedCadenceMin.Some? && cadence.value < expectedCadenceMin.value as real,
      cadence.Some? && expectedCadenceMax.Some? && cadence.value > expectedCadenceMax.value as real)
  }

  /** The part of a dual key naming the power deviation: low wins over high. */
  function PowerTag(d: Deviations): string { if d.powerLow then "pl" else "ph" }

  /** The part of a dual key naming the cadence deviation: low wins over high. */
  function CadenceTag(d: Deviations): string { if d.cadenceLow then "cl" else "ch" }

  /**
   * The signal for a set of deviations: a combined hint when both power and
   * cadence are off, otherwise the first single deviation in the order power
   * low, power high, cadence low, cadence high, and "ok" when none holds.
   */
  function SignalFor(d: Deviations): (r: CoachingSignal)
    ensures r.severity == "ok" <==> !d.Any()
    ensures r.key == "ok" <==> !d.Any()
    ensures r.severity in {"ok", "warn", "bad"}
    ensures r.color == ColorOf(r.severity)
  {
    if d.PowerOff() && d.CadenceOff() then
      var powerHint := if d.powerLow then "↑ puissance" else "↓ puissance";
      var cadenceHint := if d.cadenceLow then "↑ cadence" else "↓ cadence";
      var severity := if d.powerHigh || d.cadenceHigh then "bad" else "warn";
      var color := if severity == "bad" then Red else Amber;
      CoachingSignal("dual_" + PowerTag(d) + "_" + CadenceTag(d), "Action: " + powerHint + " + " + cadenceHint, color, severity)
    else if d.powerLow then
      CoachingSignal("power_low", "Action: ↑ Accelere (puissance trop basse)", Amber, "warn")
    else if d.powerHigh then
      CoachingSignal("power_high", "Action: ↓ Reduis l'effort (puissance trop haute)", Red, "bad")
    else if d.cadenceLow then
      CoachingSignal("cadence_low", "Action: ↑ Augmente la cadence", Amber, "warn")
    else if d.cadenceHigh then
      CoachingSignal("cadence_high", "Action: ↓ Baisse la cadence", Red, "bad")
    else
      CoachingSignal("ok", "Action: Maintenir la zone", Green, "ok")
  }

  /** `compute_coaching_signal`. */
  function ComputeCoachingSignal(
    power: Option<int>, cadence: Option<real>,
    expectedPowerMin: Option<int>, expectedPowerMax: Option<int>,
    expectedCadenceMin: Option<int>, expectedCadenceMax: Option<int>): CoachingSignal
  {
    SignalFor(DeviationsOf(power, cadence, expectedPowerMin, expectedPowerMax, expectedCadenceMin, expectedCadenceMax))
  }

  /**
   * When power and cadence are both off the key is `dual_` followed by the
   * power tag and the cadence tag, and the hint is "bad" exactly when one of
   * the two is too high.
   */
  lemma DualSignal(d: Deviations)
    requires d.PowerOff() && d.CadenceOff()
    ensures SignalFor(d).key == "dual_" + PowerTag(d) + "_" + CadenceTag(d)
    ensures SignalFor(d).severity == "bad" <==> d.powerHigh || d.cadenceHigh
    ensures SignalFor(d).severity == "warn" <==> !d.powerHigh && !d.cadenceHigh
    ensures SignalFor(d).color == (if d.powerHigh || d.cadenceHigh then Red else Amber)
  {
  }

  /** Dual keys are told apart by their tags: low is chosen over high in each. */
  lemma DualTags(d: Deviations)
    requires d.PowerOff() && d.CadenceOff()
    ensures SignalFor(d).key[5..7] == (if d.powerLow then "pl" else "ph")
    ensures SignalFor(d).key[8..] == (if d.cadenceLow then "cl" else "ch")
    ensures |SignalFor(d).key| == 10
  {
    var k := SignalFor(d).key;
    assert k == "dual_" + PowerTag(d) + "_" + CadenceTag(d);
    assert k[5..7] == PowerTag(d);
    assert k[8..] == CadenceTag(d);
  }

  /**
   * The single-deviation keys, each exactly when its deviation is the first
   * one holding in the order power low, power high, cadence low, cadence
   * high, and the other quantity is in its band.
   */
  lemma SinglePriority(d: Deviations)
    ensures SignalFor(d).key == "power_low" <==> d.powerLow && !d.CadenceOff()
    ensures SignalFor(d).key == "power_high" <==> d.powerHigh && !d.powerLow && !d.CadenceOff()
    ensures SignalFor(d).key == "cadence_low" <==> d.cadenceLow && !d.PowerOff()
    ensures SignalFor(d).key == "cadence_high" <==> d.cadenceHigh && !d.cadenceLow && !d.PowerOff()
  {
    if d.PowerOff() && d.CadenceOff() {
      var k := SignalFor(d).key;
      assert k[0] == 'd';
    }
  }

  /** A single deviation is "warn" when it is low and "bad" when it is high. */
  lemma SingleSeverity(d: Deviations)
    requires !(d.PowerOff() && d.CadenceOff())
    ensures d.Any() ==> (SignalFor(d).severity == "warn" <==> (if d.PowerOff() then d.powerLow else d.cadenceLow))
  {
  }

  /** With ordered bounds a reading is never both below and above its band. */
  lemma OrderedBoundsExclusive(
    power: Option<int>, cadence: Option<real>,
    pmin: Option<int>, pmax: Option<int>, cmin: Option<int>, cmax: Option<int>)
    requires pmin.Some? && pmax.Some? ==> pmin.value <= pmax.value
    requires cmin.Some? && cmax.Some? ==> cmin.value <= cmax.value
    ensures Exclusive(DeviationsOf(power, cadence, pmin, pmax, cmin, cmax))
  {
  }

  /** Neither quantity is both too low and too high. */
  predicate Exclusive(d: Deviations)
  {
    !(d.powerLow && d.powerHigh) && !(d.cadenceLow && d.cadenceHigh)
  }

  /**
   * Two signals the classifier produces with the same key are the same
   * signal, provided neither quantity is both too low and too high (with an
   * inverted band a dual key hides a high power or cadence that raises the
   * severity).
   */
  lemma KeyDeterminesSignal(d: Deviations, e: Deviations)
    requires Exclusive(d) && Exclusive(e)
    requires SignalFor(d).key == SignalFor(e).key
    ensures SignalFor(d) == SignalFor(e)
  {
    DualKeyStart(d);
    DualKeyStart(e);
    if d.PowerOff() && d.CadenceOff() {
      DualTags(d);
      DualTags(e);
    } else {
      SinglePriority(d);
      SinglePriority(e);
    }
  }

  /** Exactly the dual keys start with 'd'. */
  lemma DualKeyStart(d: Deviations)
    ensures |SignalFor(d).key| > 0
    ensures SignalFor(d).key[0] == 'd' <==> d.PowerOff() && d.CadenceOff()
  {
    if d.PowerOff() && d.CadenceOff() {
      assert SignalFor(d).key[0] == 'd';
    }
  }

  /**
   * A missing power reading and missing power bounds are the same thing to
   * the classifier, and neither yields a power hint; likewise for cadence.
   */
  lemma NoneNeverDeviates(
    power: Option<int>, cadence: Option<real>,
    pmin: Option<int>, pmax: Option<int>, cmin: Option<int>, cmax: Option<int>)
    ensures ComputeCoachingSignal(None, cadence, pmin, pmax, cmin, cmax)
         == ComputeCoachingSignal(power, cadence, None, None, cmin, cmax)
    ensures ComputeCoachingSignal(power, None, pmin, pmax, cmin, cmax)
         == ComputeCoachingSignal(power, cadence, pmin, pmax, None, None)
    ensures !DeviationsOf(None, cadence, pmin, pmax, cmin, cmax).PowerOff()
    ensures !DeviationsOf(power, None, pmin, pmax, cmin, cmax).CadenceOff()
    ensures ComputeCoachingSignal(None, None, pmin, pmax, cmin, cmax).key == "ok"
  {
  }

  /** Power below its band is "power_low", above it "power_high", with cadence inside its band. */
  lemma PriorityExamples()
    ensures ComputeCoachingSignal(Some(150), Some(90.0), Some(180), Some(200), Some(85), Some(95)).key == "power_low"
    ensures ComputeCoachingSignal(Some(210), Some(90.0), Some(180), Some(200), Some(85), Some(95)).key == "power_high"
  {
  }

  /** Cadence below its band with power inside is a cadence hint; both inside is "ok". */
  lemma CadenceExamples()
    ensures ComputeCoachingSignal(Some(190), Some(70.0), Some(180), Some(200), Some(85), Some(95)).key == "cadence_low"
    ensures ComputeCoachingSignal(Some(190), Some(90.0), Some(180), Some(200), Some(85), Some(95)).key == "ok"
  {
  }

  /** What one stabiliser update leaves: the three fields, the signal shown and whether it changed. */
  datatype Outcome = Outcome(
    current: Option<CoachingSignal>,
    pending: Option<CoachingSignal>,
    pendingSince: Option<real>,
    shown: CoachingSignal,
    changed: bool)

  /** A pending signal has a timestamp and a key different from the shown one. */
  predicate Consistent(current: Option<CoachingSignal>, pending: Option<CoachingSignal>, pendingSince: Option<real>)
  {
    (pending.Some? <==> pendingSince.Some?)
    && (pending.Some? ==> current.Some? && pending.value.key != current.value.key)
  }

  /** One `update` of the stabiliser, on its state before the call. */
  function StabilizerStep(
    current: Option<CoachingSignal>, pending: Option<CoachingSignal>, pendingSince: Option<real>,
    minSwitchSec: real, candidate: CoachingSignal, nowTs: real): (r: Outcome)
    requires Consistent(current, pending, pendingSince)
    ensures Consistent(r.current, r.pending, r.pendingSince)
    ensures r.current == Some(r.shown)
    ensures current.Some? && !r.changed ==> r.current == current
    ensures r.pending.Some? ==> r.pending.value.key == candidate.key
  {
    if current.None? then
      Outcome(Some(candidate), None, None, candidate, true)
    else if candidate.key == current.value.key then
      Outcome(current, None, None, current.value, false)
    else if pending.None? || pending.value.key != candidate.key then
      Outcome(current, Some(candidate), Some(nowTs), current.value, false)
    else if nowTs - pendingSince.value >= minSwitchSec then
      Outcome(pending, None, None, pending.value, true)
    else
      Outcome(current, pending, pendingSince, current.value, false)
  }

  /** The first update adopts the candidate and reports a change. */
  lemma FirstUpdateAdopts(minSwitchSec: real, candidate: CoachingSignal, nowTs: real)
    ensures StabilizerStep(None, None, None, minSwitchSec, candidate, nowTs)
         == Outcome(Some(candidate), None, None, candidate, true)
  {
  }

  /** A candidate with the shown key keeps the shown signal and drops whatever was pending. */
  lemma SameKeyHolds(
    current: CoachingSignal, pending: Option<CoachingSignal>, pendingSince: Option<real>,
    minSwitchSec: real, candidate: CoachingSignal, nowTs: real)
    requires Consistent(Some(current), pending, pendingSince)
    requires candidate.key == current.key
    ensures StabilizerStep(Some(current), pending, pendingSince, minSwitchSec, candidate, nowTs)
         == Outcome(Some(current), None, None, current, false)
  {
  }

  /** A new key, or a key different from the pending one, starts the timer and shows nothing new. */
  lemma NewKeyStartsTimer(
    current: CoachingSignal, pending: Option<CoachingSignal>, pendingSince: Option<real>,
    minSwitchSec: real, candidate: CoachingSignal, nowTs: real)
    requires Consistent(Some(current), pending, pendingSince)
    requires candidate.key != current.key
    requires pending.None? || pending.value.key != candidate.key
    ensures StabilizerStep(Some(current), pending, pendingSince, minSwitchSec, candidate, nowTs)
         == Outcome(Some(current), Some(candidate), Some(nowTs), current, false)
  {
  }

  /**
   * Once something is shown, the shown key changes exactly when the
   * candidate's key has been pending for at least `minSwitchSec`; the signal
   * then shown is the one that started the timer.
   */
  lemma SwitchNeedsDwell(
    current: CoachingSignal, pending: Option<CoachingSignal>, pendingSince: Option<real>,
    minSwitchSec: real, candidate: CoachingSignal, nowTs: real)
    requires Consistent(Some(current), pending, pendingSince)
    ensures var r := StabilizerStep(Some(current), pending, pendingSince, minSwitchSec, candidate, nowTs);
      r.changed <==> (pending.Some? && pending.value.key == candidate.key
                      && nowTs - pendingSince.value >= minSwitchSec)
    ensures var r := StabilizerStep(Some(current), pending, pendingSince, minSwitchSec, candidate, nowTs);
      r.changed ==> r.shown == pending.value && r.pending.None? && r.shown.key == candidate.key
    ensures var r := StabilizerStep(Some(current), pending, pendingSince, minSwitchSec, candidate, nowTs);
      r.changed <==> r.shown.key != current.key
  {
  }

  /**
   * Offering the same new key twice switches to it on the second offer
   * exactly when at least `minSwitchSec` separates the two offers.
   */
  lemma DwellTwoOffers(
    current: CoachingSignal, pending: Option<CoachingSignal>, pendingSince: Option<real>,
    minSwitchSec: real, first: CoachingSignal, t0: real, second: CoachingSignal, t1: real)
    requires Consistent(Some(current), pending, pendingSince)
    requires first.key == second.key && first.key != current.key
    requires pending.None? || pending.value.key != first.key
    ensures var r0 := StabilizerStep(Some(current), pending, pendingSince, minSwitchSec, first, t0);
      var r1 := StabilizerStep(r0.current, r0.pending, r0.pendingSince, minSwitchSec, second, t1);
      !r0.changed && (r1.changed <==> t1 - t0 >= minSwitchSec) && (r1.changed ==> r1.shown == first)
  {
    NewKeyStartsTimer(current, pending, pendingSince, minSwitchSec, first, t0);
  }

  /**
   * The anti-flicker test: with a two-second threshold, "ok" at 0.0 is
   * adopted, "power_low" at 0.3 and 1.8 is held back, and at 2.4 it is shown.
   */
  lemma AntiFlickerExample(ok: CoachingSignal, low: CoachingSignal)
    requires ok.key == "ok" && low.key == "power_low"
    ensures StabilizerStep(None, None, None, 2.0, ok, 0.0) == Outcome(Some(ok), None, None, ok, true)
    ensures ok.key != low.key
    ensures StabilizerStep(Some(ok), None, None, 2.0, low, 0.3) == Outcome(Some(ok), Some(low), Some(0.3), ok, false)
    ensures StabilizerStep(Some(ok), Some(low), Some(0.3), 2.0, low, 1.8) == Outcome(Some(ok), Some(low), Some(0.3), ok, false)
    ensures StabilizerStep(Some(ok), Some(low), Some(0.3), 2.0, low, 2.4) == Outcome(Some(low), None, None, low, true)
  {
    assert ok.key != low.key by { assert ok.key[0] != low.key[0]; }
  }

  /** `ActionStabilizer`: the signal shown, and a candidate waiting to replace it. */
  class ActionStabilizer {
    const minSwitchSec: real
    var current: Option<CoachingSignal>
    var pending: Option<CoachingSignal>
    var pendingSince: Option<real>

    ghost predicate Valid()
      reads this
    {
      Consistent(current, pending, pendingSince)
    }

    constructor(minSwitchSec: real)
      ensures Valid()
      ensures this.minSwitchSec == minSwitchSec
      ensures current.None? && pending.None? && pendingSince.None?
    {
      this.minSwitchSec := minSwitchSec;
      current := None;
      pending := None;
      pendingSince := None;
    }

    /** Forgets the shown signal and anything pending. */
    method Reset()
      modifies this
      ensures Valid()
      ensures current.None? && pending.None? && pendingSince.None?
    {
      current := None;
      pending := None;
      pendingSince := None;
    }

    /** Offers a candidate at time `nowTs`; returns the signal to show and whether it changed. */
    method Update(candidate: CoachingSignal, nowTs: real) returns (shown: CoachingSignal, changed: bool)
      requires Valid()
      modifies this
      ensures Valid()
      ensures var r := StabilizerStep(old(current), old(pending), old(pendingSince), minSwitchSec, candidate, nowTs);
        current == r.current && pending == r.pending && pendingSince == r.pendingSince
        && shown == r.shown && changed == r.changed
    {
      if current.None? {
        current := Some(candidate);
        pending := None;
        pendingSince := None;
        return candidate, true;
      }
      if candidate.key == current.value.key {
        pending := None;
        pendingSince := None;
        return current.value, false;
      }
      if pending.None? || pending.value.key != candidate.key {
        pending := Some(candidate);
        pendingSince := Some(nowTs);
        return current.value, false;
      }
      if nowTs - pendingSince.value >= minSwitchSec {
        current := pending;
        pending := None;
        pendingSince := None;
        return current.value, true;
      }
      return current.value, false;
    }
  }
}
