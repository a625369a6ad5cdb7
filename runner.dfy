/**
 * Running a workout plan against the trainer: each step's target is applied
 * (up to three attempts), then the step counts down one record per second,
 * and the run reports once at the end whether it completed.
 *
 * Time is the sequence of records; the trainer is an oracle saying what each
 * attempt to apply a target returns (None when it raises); the stop request
 * made by `stop` from another task is an oracle saying from which stop check
 * on the run sees the flag set.
 */
module Runner {
  import opened Wrappers
  import opened Rounding
  import opened Text
  import opened WorkoutModel

  datatype TargetMode = Erg | Resistance | Slope

  /** The record the run hands to the progress callback once per second. */
  datatype WorkoutProgress = WorkoutProgress(
    stepIndex: int,
    stepTotal: int,
    stepLabel: string,
    targetWatts: int,
    targetMode: TargetMode,
    targetDisplayValue: real,
    targetDisplayUnit: string,
    expectedPowerMinWatts: Option<int>,
    expectedPowerMaxWatts: Option<int>,
    expectedCadenceMinRpm: Option<int>,
    expectedCadenceMaxRpm: Option<int>,
    stepDurationSec: int,
    stepElapsedSec: int,
    remainingSec: int,
    elapsedTotalSec: int,
    totalDurationSec: int,
    totalRemainingSec: int)

  /** What the runner asks the trainer client for. */
  datatype TargetRequest = PowerRequest(watts: int) | ResistanceRequest(level: real) | SlopeRequest(percent: real)

  datatype RunError = AlreadyRunning | ApplyFailed(mode: TargetMode)

  /**
   * The trainer's answer to attempt `attempt` (from 0) at applying `request`
   * for the step numbered `stepIndex` (from 1): the applied value, or None when
   * the client raises.
   */
  type Trainer = (nat, nat, TargetRequest) -> Option<real>

  /** The FTP used for conversions: at least 100 W. */
  function SafeFtp(ftpWatts: int): (f: int)
    ensures f >= 100 && f >= ftpWatts
  {
    MaxInt(100, ftpWatts)
  }

  /** The resistance level for a power target: percent of FTP, clamped into [1, 200]. */
  function WattsToResistance(targetWatts: int, ftpWatts: int): (level: real)
    ensures 1.0 <= level <= 200.0
    ensures var raw := (targetWatts as real / SafeFtp(ftpWatts) as real) * 100.0;
      (1.0 <= raw <= 200.0 ==> level == raw) && (raw < 1.0 ==> level == 1.0) && (raw > 200.0 ==> level == 200.0)
  {
    MaxReal(1.0, MinReal(200.0, (targetWatts as real / SafeFtp(ftpWatts) as real) * 100.0))
  }

  /** The slope for a power target: one percent per 20 W above FTP, clamped into [-10, 15]. */
  function WattsToSlope(targetWatts: int, ftpWatts: int): (percent: real)
    ensures -10.0 <= percent <= 15.0
    ensures var raw := (targetWatts - SafeFtp(ftpWatts)) as real / 20.0;
      (-10.0 <= raw <= 15.0 ==> percent == raw) && (raw < -10.0 ==> percent == -10.0) && (raw > 15.0 ==> percent == 15.0)
  {
    MaxReal(-10.0, MinReal(15.0, (targetWatts - SafeFtp(ftpWatts)) as real / 20.0))
  }

  /** The low edge of the expected power band: 95 % of the target, rounded, at least 1 W. */
  function ExpectedPowerMin(targetWatts: int): (w: int)
    ensures w >= 1
    ensures w as real >= targetWatts as real * 0.95 - 0.5
    ensures targetWatts as real * 0.95 >= 0.5 ==> w as real <= targetWatts as real * 0.95 + 0.5
  {
    MaxInt(1, RoundHalfEven(targetWatts as real * 0.95))
  }

  /** The high edge of the expected power band: 105 % of the target, rounded, at least 1 W. */
  function ExpectedPowerMax(targetWatts: int): (w: int)
    ensures w >= 1
    ensures w as real >= targetWatts as real * 1.05 - 0.5
    ensures targetWatts as real * 1.05 >= 0.5 ==> w as real <= targetWatts as real * 1.05 + 0.5
  {
    MaxInt(1, RoundHalfEven(targetWatts as real * 1.05))
  }

  /** For a target of at least 1 W the band is positive and holds the target. */
  lemma ExpectedBand(targetWatts: int)
    requires targetWatts >= 1
    ensures 1 <= ExpectedPowerMin(targetWatts) <= targetWatts <= ExpectedPowerMax(targetWatts)
  {
    RoundOfInteger(targetWatts);
    RoundMonotone(targetWatts as real * 0.95, targetWatts as real);
    RoundMonotone(targetWatts as real, targetWatts as real * 1.05);
  }

  /** The request a step's target makes in each mode. */
  function Request(step: WorkoutStep, mode: TargetMode, ftpWatts: int): TargetRequest {
    match mode
    case Erg => PowerRequest(step.targetWatts)
    case Resistance => ResistanceRequest(WattsToResistance(step.targetWatts, ftpWatts))
    case Slope => SlopeRequest(WattsToSlope(step.targetWatts, ftpWatts))
  }

  /** The unit the applied value is shown in: watts in ERG mode, percent otherwise. */
  function Unit(mode: TargetMode): string {
    if mode == Erg then "W" else "%"
  }

  /** The value of the first of the attempts `attempt`..2 that the trainer accepts. */
  function FirstSuccess(trainer: Trainer, stepIndex: nat, request: TargetRequest, attempt: nat): Option<real>
    decreases 3 - attempt
  {
    if attempt >= 3 then None
    else if trainer(stepIndex, attempt, request).Some? then trainer(stepIndex, attempt, request)
    else FirstSuccess(trainer, stepIndex, request, attempt + 1)
  }

  /**
   * The first success is the answer of the earliest accepted attempt, and there
   * is none exactly when all remaining attempts fail.
   */
  lemma {:induction false} FirstSuccessIsEarliest(trainer: Trainer, stepIndex: nat, request: TargetRequest, attempt: nat)
    decreases 3 - attempt
    ensures var v := FirstSuccess(trainer, stepIndex, request, attempt);
      (v.Some? ==>
        exists a :: attempt <= a < 3 && trainer(stepIndex, a, request) == v &&
          forall b :: attempt <= b < a ==> trainer(stepIndex, b, request).None?) &&
      (v.None? <==> forall a :: attempt <= a < 3 ==> trainer(stepIndex, a, request).None?)
  {
    if attempt < 3 && trainer(stepIndex, attempt, request).None? {
      FirstSuccessIsEarliest(trainer, stepIndex, request, attempt + 1);
    }
  }

  /** The label shown for a step: its own when set and not empty, else `Step i`. */
  function StepLabel(step: WorkoutStep, stepIndex: nat): (s: string)
    ensures step.stepLabel.Some? && step.stepLabel.value != "" ==> s == step.stepLabel.value
    ensures step.stepLabel.None? || step.stepLabel.value == "" ==> s == "Step " + NatToDecimal(stepIndex)
  {
    if step.stepLabel.Some? && step.stepLabel.value != "" then step.stepLabel.value
    else "Step " + NatToDecimal(stepIndex)
  }

  /** A progress record of a step, with the counters given. */
  function Record(step: WorkoutStep, stepIndex: nat, stepTotal: int, stepLabel: string, mode: TargetMode, value: real,
                  unit: string, stepElapsed: int, remaining: int, elapsedTotal: int, total: int): WorkoutProgress
  {
    WorkoutProgress(stepIndex, stepTotal, stepLabel, step.targetWatts, mode, value, unit,
      Some(ExpectedPowerMin(step.targetWatts)), Some(ExpectedPowerMax(step.targetWatts)),
      step.cadenceMinRpm, step.cadenceMaxRpm, step.durationSec, stepElapsed, remaining, elapsedTotal, total,
      MaxInt(0, total - elapsedTotal))
  }

  /** The record of the tick with `remaining` seconds left in the step. */
  function Tick(step: WorkoutStep, stepIndex: nat, stepTotal: int, offset: int, total: int,
                mode: TargetMode, value: real, unit: string, remaining: int): WorkoutProgress
  {
    var stepElapsed := (step.durationSec - remaining) + 1;
    Record(step, stepIndex, stepTotal, StepLabel(step, stepIndex), mode, value, unit,
      stepElapsed, remaining, offset + stepElapsed, total)
  }

  /**
   * The records of a step run to its end: one per second with `remaining`
   * counting down from the duration to 1, so the k-th has k + 1 seconds of
   * the step and `offset + k + 1` of the plan behind it.
   */
  function StepRecords(step: WorkoutStep, stepIndex: nat, stepTotal: int, offset: int, total: int,
                       mode: TargetMode, value: real, unit: string): (recs: seq<WorkoutProgress>)
    ensures |recs| == MaxInt(0, step.durationSec)
  {
    seq(MaxInt(0, step.durationSec), k requires 0 <= k < MaxInt(0, step.durationSec) =>
      Tick(step, stepIndex, stepTotal, offset, total, mode, value, unit, step.durationSec - k))
  }

  /** The k-th record of a step is its tick with `duration - k` seconds left. */
  lemma StepRecordAt(step: WorkoutStep, stepIndex: nat, stepTotal: int, offset: int, total: int,
                     mode: TargetMode, value: real, unit: string, k: nat)
    requires k < MaxInt(0, step.durationSec)
    ensures StepRecords(step, stepIndex, stepTotal, offset, total, mode, value, unit)[k] ==
      Tick(step, stepIndex, stepTotal, offset, total, mode, value, unit, step.durationSec - k)
  {
  }

  /** The counters of every record of a step. */
  lemma StepRecordFields(step: WorkoutStep, stepIndex: nat, stepTotal: int, offset: int, total: int,
                         mode: TargetMode, value: real, unit: string)
    ensures var recs := StepRecords(step, stepIndex, stepTotal, offset, total, mode, value, unit);
      forall k :: 0 <= k < |recs| ==>
        recs[k].remainingSec == step.durationSec - k && recs[k].stepElapsedSec == k + 1 &&
        recs[k].elapsedTotalSec == offset + k + 1 && recs[k].stepIndex == stepIndex &&
        recs[k].totalRemainingSec == MaxInt(0, total - (offset + k + 1)) &&
        recs[k].stepLabel == StepLabel(step, stepIndex) && recs[k].targetDisplayValue == value
  {
    var recs := StepRecords(step, stepIndex, stepTotal, offset, total, mode, value, unit);
    forall k | 0 <= k < |recs|
      ensures recs[k] == Tick(step, stepIndex, stepTotal, offset, total, mode, value, unit, step.durationSec - k)
    {
    }
  }

  /** What applying the target of step `k` (from 0) returns, when it succeeds. */
  function Applied(plan: WorkoutPlan, mode: TargetMode, ftpWatts: int, trainer: Trainer, k: nat): Option<real>
    requires k < |plan.steps|
  {
    FirstSuccess(trainer, k + 1, Request(plan.steps[k], mode, ftpWatts), 0)
  }

  /** Every step from `k` on gets its target applied. */
  predicate AllApplied(plan: WorkoutPlan, mode: TargetMode, ftpWatts: int, trainer: Trainer, k: nat) {
    forall j :: k <= j < |plan.steps| ==> Applied(plan, mode, ftpWatts, trainer, j).Some?
  }

  /**
   * The records of a run that is never stopped, from step `k` on with `offset`
   * seconds already behind: each step's records in turn, ending before the first
   * step whose target cannot be applied.
   */
  function Schedule(plan: WorkoutPlan, mode: TargetMode, ftpWatts: int, trainer: Trainer, k: nat, offset: int): seq<WorkoutProgress>
    requires k <= |plan.steps|
    decreases |plan.steps| - k
  {
    if k == |plan.steps| then []
    else
      var applied := Applied(plan, mode, ftpWatts, trainer, k);
      if applied.None? then []
      else
        var step := plan.steps[k];
        StepRecords(step, k + 1, |plan.steps|, offset, TotalDurationSec(plan), mode, applied.value, Unit(mode))
          + Schedule(plan, mode, ftpWatts, trainer, k + 1, offset + step.durationSec)
  }

  /** `a` is a prefix of `b`. */
  predicate IsPrefix<T(==)>(a: seq<T>, b: seq<T>) {
    |a| <= |b| && b[..|a|] == a
  }

  lemma AppendAssoc<T>(a: seq<T>, b: seq<T>, c: seq<T>)
    ensures (a + b) + c == a + (b + c)
  {
  }

  /** The two parts of a concatenation can be cut back out of it. */
  lemma AppendParts<T>(a: seq<T>, b: seq<T>)
    ensures |a| <= |a + b| && (a + b)[..|a|] == a && (a + b)[|a|..] == b
  {
  }

  /** A prefix of the first part is a prefix of the whole. */
  lemma PrefixOfConcat<T>(e: seq<T>, a: seq<T>, b: seq<T>)
    requires IsPrefix(e, a)
    ensures IsPrefix(e, a + b)
  {
    assert (a + b)[..|e|] == a[..|e|];
  }

  /**
   * The records emitted so far, then a prefix of the rest of the schedule: still
   * a prefix of the schedule, and when that prefix runs up to `rest` the whole
   * schedule is what was emitted followed by `rest`.
   */
  lemma RunExtend<T>(full: seq<T>, em: seq<T>, emitted: seq<T>, tail: seq<T>, rest: seq<T>, whole: bool)
    requires full == em + tail
    requires IsPrefix(emitted, tail)
    requires whole ==> tail == emitted + rest
    ensures IsPrefix(em + emitted, full)
    ensures whole ==> full == (em + emitted) + rest
  {
    assert (em + tail)[..|em + emitted|] == em + tail[..|emitted|];
  }

  /** Every step before `k` gets its target applied. */
  predicate AppliedBefore(plan: WorkoutPlan, mode: TargetMode, ftpWatts: int, trainer: Trainer, k: nat)
    requires k <= |plan.steps|
  {
    forall j :: 0 <= j < k ==> Applied(plan, mode, ftpWatts, trainer, j).Some?
  }

  /** One more applied step extends the applied steps by one. */
  lemma AppliedBeforeNext(plan: WorkoutPlan, mode: TargetMode, ftpWatts: int, trainer: Trainer, k: nat, ok: bool)
    requires k < |plan.steps|
    requires ok ==> AppliedBefore(plan, mode, ftpWatts, trainer, k) && Applied(plan, mode, ftpWatts, trainer, k).Some?
    ensures ok ==> AppliedBefore(plan, mode, ftpWatts, trainer, k + 1)
  {
  }

  /** A step whose target is applied contributes its records ahead of the rest of the schedule. */
  lemma ScheduleUnfold(plan: WorkoutPlan, mode: TargetMode, ftpWatts: int, trainer: Trainer, k: nat, offset: int)
    requires k < |plan.steps| && Applied(plan, mode, ftpWatts, trainer, k).Some?
    ensures Schedule(plan, mode, ftpWatts, trainer, k, offset) ==
      StepRecords(plan.steps[k], k + 1, |plan.steps|, offset, TotalDurationSec(plan), mode,
        Applied(plan, mode, ftpWatts, trainer, k).value, Unit(mode))
      + Schedule(plan, mode, ftpWatts, trainer, k + 1, offset + plan.steps[k].durationSec)
  {
  }

  /** With non-negative durations and every target applied, the records number the remaining total duration. */
  lemma {:induction false} ScheduleLength(plan: WorkoutPlan, mode: TargetMode, ftpWatts: int, trainer: Trainer, k: nat, offset: int)
    requires k <= |plan.steps|
    requires forall j :: k <= j < |plan.steps| ==> plan.steps[j].durationSec >= 0
    requires AllApplied(plan, mode, ftpWatts, trainer, k)
    decreases |plan.steps| - k
    ensures |Schedule(plan, mode, ftpWatts, trainer, k, offset)| == TotalDuration(plan.steps[k..])
  {
    if k == |plan.steps| {
      assert plan.steps[k..] == [];
    } else {
      ScheduleLength(plan, mode, ftpWatts, trainer, k + 1, offset + plan.steps[k].durationSec);
      assert plan.steps[k..][1..] == plan.steps[k + 1..];
    }
  }

  /** With non-negative durations the j-th record has `offset + j + 1` seconds of the plan behind it. */
  lemma {:induction false} ScheduleElapsed(plan: WorkoutPlan, mode: TargetMode, ftpWatts: int, trainer: Trainer, k: nat, offset: int)
    requires k <= |plan.steps|
    requires forall j :: k <= j < |plan.steps| ==> plan.steps[j].durationSec >= 0
    decreases |plan.steps| - k
    ensures ElapsedFrom(Schedule(plan, mode, ftpWatts, trainer, k, offset), offset)
  {
    if k < |plan.steps| && Applied(plan, mode, ftpWatts, trainer, k).Some? {
      var d := plan.steps[k].durationSec;
      var value := Applied(plan, mode, ftpWatts, trainer, k).value;
      assert d >= 0;
      ScheduleElapsed(plan, mode, ftpWatts, trainer, k + 1, offset + d);
      ScheduleUnfold(plan, mode, ftpWatts, trainer, k, offset);
      StepRecordsShape(plan.steps[k], k + 1, |plan.steps|, offset, TotalDurationSec(plan), mode, value, Unit(mode));
      ghost var recs := StepRecords(plan.steps[k], k + 1, |plan.steps|, offset, TotalDurationSec(plan), mode, value, Unit(mode));
      assert |recs| == d;
      ConcatElapsed(recs, Schedule(plan, mode, ftpWatts, trainer, k + 1, offset + d), offset);
    }
  }

  /** The j-th record of `s` has `offset + j + 1` seconds of the plan behind it. */
  predicate ElapsedFrom(s: seq<WorkoutProgress>, offset: int) {
    forall j :: 0 <= j < |s| ==> s[j].elapsedTotalSec == offset + j + 1
  }

  /** Consecutive elapsed counts are kept by putting records one after the other. */
  lemma ConcatElapsed(a: seq<WorkoutProgress>, b: seq<WorkoutProgress>, offset: int)
    requires ElapsedFrom(a, offset) && ElapsedFrom(b, offset + |a|)
    ensures ElapsedFrom(a + b, offset)
  {
    var s := a + b;
    forall j | 0 <= j < |s|
      ensures s[j].elapsedTotalSec == offset + j + 1
    {
      if j < |a| {
        assert s[j] == a[j];
      } else {
        assert s[j] == b[j - |a|];
      }
    }
  }

  /** Every record of `s` is of a step numbered in [lo, hi]. */
  predicate StepIndicesIn(s: seq<WorkoutProgress>, lo: int, hi: int) {
    forall j :: 0 <= j < |s| ==> lo <= s[j].stepIndex <= hi
  }

  /** The step numbers of `s` never decrease. */
  predicate StepOrdered(s: seq<WorkoutProgress>) {
    forall i, j :: 0 <= i <= j < |s| ==> s[i].stepIndex <= s[j].stepIndex
  }

  /** Every record's remaining total is the total less its elapsed seconds, but not below 0. */
  predicate RemainingTotals(s: seq<WorkoutProgress>, total: int) {
    forall j :: 0 <= j < |s| ==> s[j].totalRemainingSec == MaxInt(0, total - s[j].elapsedTotalSec)
  }

  /** One step's records ahead of later steps' ordered records are ordered. */
  lemma ConcatStepOrder(a: seq<WorkoutProgress>, b: seq<WorkoutProgress>, i: int, hi: int)
    requires i <= hi
    requires StepIndicesIn(a, i, i) && StepIndicesIn(b, i + 1, hi) && StepOrdered(b)
    ensures StepIndicesIn(a + b, i, hi) && StepOrdered(a + b)
  {
    var s := a + b;
    forall j | 0 <= j < |s|
      ensures i <= s[j].stepIndex <= hi
    {
      if j < |a| {
        assert s[j] == a[j];
      } else {
        assert s[j] == b[j - |a|];
      }
    }
    forall m, j | 0 <= m <= j < |s|
      ensures s[m].stepIndex <= s[j].stepIndex
    {
      if j < |a| {
        assert s[m] == a[m] && s[j] == a[j];
      } else if m < |a| {
        assert s[m] == a[m] && s[j] == b[j - |a|];
      } else {
        assert s[m] == b[m - |a|] && s[j] == b[j - |a|];
      }
    }
  }

  /** Remaining totals are kept by putting records one after the other. */
  lemma ConcatRemainingTotals(a: seq<WorkoutProgress>, b: seq<WorkoutProgress>, total: int)
    requires RemainingTotals(a, total) && RemainingTotals(b, total)
    ensures RemainingTotals(a + b, total)
  {
    var s := a + b;
    forall j | 0 <= j < |s|
      ensures s[j].totalRemainingSec == MaxInt(0, total - s[j].elapsedTotalSec)
    {
      if j < |a| {
        assert s[j] == a[j];
      } else {
        assert s[j] == b[j - |a|];
      }
    }
  }

  /** A step's records all carry its number and the remaining total. */
  lemma StepRecordsShape(step: WorkoutStep, stepIndex: nat, stepTotal: int, offset: int, total: int,
                         mode: TargetMode, value: real, unit: string)
    ensures var recs := StepRecords(step, stepIndex, stepTotal, offset, total, mode, value, unit);
      StepIndicesIn(recs, stepIndex, stepIndex) && RemainingTotals(recs, total) && ElapsedFrom(recs, offset)
  {
    var recs := StepRecords(step, stepIndex, stepTotal, offset, total, mode, value, unit);
    forall k | 0 <= k < |recs|
      ensures recs[k].stepIndex == stepIndex && recs[k].totalRemainingSec == MaxInt(0, total - recs[k].elapsedTotalSec)
      ensures recs[k].elapsedTotalSec == offset + k + 1
    {
      assert recs[k] == Tick(step, stepIndex, stepTotal, offset, total, mode, value, unit, step.durationSec - k);
    }
  }

  /** Records come in step order: step numbers from `k + 1` on, never decreasing. */
  lemma {:induction false} ScheduleStepOrder(plan: WorkoutPlan, mode: TargetMode, ftpWatts: int, trainer: Trainer, k: nat, offset: int)
    requires k <= |plan.steps|
    decreases |plan.steps| - k
    ensures var s := Schedule(plan, mode, ftpWatts, trainer, k, offset);
      StepIndicesIn(s, k + 1, |plan.steps|) && StepOrdered(s)
  {
    if k < |plan.steps| && Applied(plan, mode, ftpWatts, trainer, k).Some? {
      var d := plan.steps[k].durationSec;
      var value := Applied(plan, mode, ftpWatts, trainer, k).value;
      ScheduleStepOrder(plan, mode, ftpWatts, trainer, k + 1, offset + d);
      ScheduleUnfold(plan, mode, ftpWatts, trainer, k, offset);
      StepRecordsShape(plan.steps[k], k + 1, |plan.steps|, offset, TotalDurationSec(plan), mode, value, Unit(mode));
      ConcatStepOrder(StepRecords(plan.steps[k], k + 1, |plan.steps|, offset, TotalDurationSec(plan), mode, value, Unit(mode)),
        Schedule(plan, mode, ftpWatts, trainer, k + 1, offset + d), k + 1, |plan.steps|);
    }
  }

  /** Every record carries the remaining total implied by the plan's total. */
  lemma {:induction false} ScheduleTotals(plan: WorkoutPlan, mode: TargetMode, ftpWatts: int, trainer: Trainer, k: nat, offset: int)
    requires k <= |plan.steps|
    decreases |plan.steps| - k
    ensures RemainingTotals(Schedule(plan, mode, ftpWatts, trainer, k, offset), TotalDurationSec(plan))
  {
    if k < |plan.steps| && Applied(plan, mode, ftpWatts, trainer, k).Some? {
      var d := plan.steps[k].durationSec;
      var value := Applied(plan, mode, ftpWatts, trainer, k).value;
      ScheduleTotals(plan, mode, ftpWatts, trainer, k + 1, offset + d);
      ScheduleUnfold(plan, mode, ftpWatts, trainer, k, offset);
      StepRecordsShape(plan.steps[k], k + 1, |plan.steps|, offset, TotalDurationSec(plan), mode, value, Unit(mode));
      ConcatRemainingTotals(StepRecords(plan.steps[k], k + 1, |plan.steps|, offset, TotalDurationSec(plan), mode, value, Unit(mode)),
        Schedule(plan, mode, ftpWatts, trainer, k + 1, offset + d), TotalDurationSec(plan));
    }
  }

  /**
   * A run that is never stopped and applies every target, over steps of
   * non-negative duration, emits exactly the plan's total duration of records,
   * numbered 1, 2, ... in plan seconds, with the remaining total counting down
   * to 0, in step order.
   */
  lemma UninterruptedRun(plan: WorkoutPlan, mode: TargetMode, ftpWatts: int, trainer: Trainer)
    requires forall j :: 0 <= j < |plan.steps| ==> plan.steps[j].durationSec >= 0
    requires AllApplied(plan, mode, ftpWatts, trainer, 0)
    ensures var s := Schedule(plan, mode, ftpWatts, trainer, 0, 0);
      |s| == TotalDurationSec(plan) && StepOrdered(s) &&
      forall j :: 0 <= j < |s| ==>
        s[j].elapsedTotalSec == j + 1 && s[j].totalRemainingSec == TotalDurationSec(plan) - (j + 1)
  {
    ScheduleLength(plan, mode, ftpWatts, trainer, 0, 0);
    ScheduleElapsed(plan, mode, ftpWatts, trainer, 0, 0);
    ScheduleTotals(plan, mode, ftpWatts, trainer, 0, 0);
    ScheduleStepOrder(plan, mode, ftpWatts, trainer, 0, 0);
    assert plan.steps[0..] == plan.steps;
  }

  /** The stop flag is visible at stop check number `c` (from 0). */
  predicate Stopped(stopAt: Option<nat>, c: nat) {
    stopAt.Some? && c >= stopAt.value
  }

  datatype TaskState = NoTask | Running | Finished

  /** How one pass of the step loop ended. */
  datatype StepStatus = StepRan | StepStopped | StepFailed(error: RunError)

  class WorkoutRunner {
    var task: TaskState
    /** The stop event of the current run. */
    var stopSet: bool
    /** Stop checks made by the current run. */
    var checks: nat
    /** Records handed to the progress callback, oldest first. */
    var progress: seq<WorkoutProgress>
    /** The `completed` values handed to the finish callback, oldest first. */
    var finishes: seq<bool>
    /** Target requests made to the trainer client, oldest first. */
    var requests: seq<TargetRequest>

    constructor()
      ensures task == NoTask && !stopSet && checks == 0
      ensures progress == [] && finishes == [] && requests == []
    {
      task := NoTask;
      stopSet := false;
      checks := 0;
      progress := [];
      finishes := [];
      requests := [];
    }

    predicate IsRunning()
      reads this
    {
      task == Running
    }

    /** Starting refuses while a run is active; otherwise a fresh stop flag and a new run. */
    method Start() returns (r: Result<(), RunError>)
      modifies this`task, this`stopSet, this`checks
      ensures old(IsRunning()) ==> r == Err(AlreadyRunning) && unchanged(this)
      ensures !old(IsRunning()) ==> r.Ok? && IsRunning() && !stopSet && checks == 0
    {
      if IsRunning() {
        return Err(AlreadyRunning);
      }
      stopSet := false;
      checks := 0;
      task := Running;
      r := Ok(());
    }

    /**
     * Stopping does nothing without an active run; otherwise it sets the flag,
     * which the run sees at its next check and ends on, and drops the running task.
     */
    method Stop()
      modifies this`stopSet, this`task
      ensures !old(IsRunning()) ==> unchanged(this)
      ensures old(IsRunning()) ==> stopSet && task == NoTask
    {
      if !IsRunning() {
        return;
      }
      stopSet := true;
      task := NoTask;
    }

    /** One look at the stop flag; once seen set it stays set. */
    method StopRequested(stopAt: Option<nat>) returns (b: bool)
      modifies this`stopSet, this`checks
      ensures b == (old(stopSet) || Stopped(stopAt, old(checks)))
      ensures stopSet == b && checks == old(checks) + 1
    {
      b := stopSet || Stopped(stopAt, checks);
      stopSet := b;
      checks := checks + 1;
    }

    /**
     * Applying a step's target: up to three attempts while the run is not
     * stopped, returning the first applied value and its unit; it raises once
     * the attempts are used up or the run is stopped first.
     */
    method ApplyStepTarget(step: WorkoutStep, mode: TargetMode, ftpWatts: int, stepIndex: nat, trainer: Trainer, stopAt: Option<nat>)
      returns (r: Result<(real, string), RunError>, attempts: nat)
      modifies this`requests, this`stopSet, this`checks
      ensures attempts <= 3 && requests == old(requests) + seq(attempts, _ => Request(step, mode, ftpWatts))
      ensures r.Ok? ==>
        attempts >= 1 && stopSet == old(stopSet)
        && FirstSuccess(trainer, stepIndex, Request(step, mode, ftpWatts), 0) == Some(r.value.0)
        && r.value.1 == Unit(mode)
      ensures r.Err? ==> r.error == ApplyFailed(mode) && (stopSet || attempts == 3)
      ensures r.Err? && !stopSet ==> FirstSuccess(trainer, stepIndex, Request(step, mode, ftpWatts), 0).None?
      ensures old(stopSet) ==> stopSet
      ensures stopAt.None? ==> stopSet == old(stopSet)
    {
      var request := Request(step, mode, ftpWatts);
      attempts := 0;
      while attempts < 3
        invariant 0 <= attempts <= 3
        invariant requests == old(requests) + seq(attempts, _ => request)
        invariant FirstSuccess(trainer, stepIndex, request, 0) == FirstSuccess(trainer, stepIndex, request, attempts)
        invariant stopSet == old(stopSet)
      {
        var stop := StopRequested(stopAt);
        if stop {
          return Err(ApplyFailed(mode)), attempts;
        }
        requests := requests + [request];
        var answer := trainer(stepIndex, attempts, request);
        attempts := attempts + 1;
        if answer.Some? {
          return Ok((answer.value, Unit(mode))), attempts;
        }
      }
      r := Err(ApplyFailed(mode));
    }

    /**
     * A step's countdown: one record per second, checking the stop flag before
     * each and returning early when it is set.
     */
    method CountdownStep(step: WorkoutStep, mode: TargetMode, value: real, unit: string, stepIndex: nat, stepTotal: int,
                         offset: int, total: int, stopAt: Option<nat>) returns (emitted: seq<WorkoutProgress>)
      modifies this`progress, this`stopSet, this`checks
      ensures progress == old(progress) + emitted
      ensures IsPrefix(emitted, StepRecords(step, stepIndex, stepTotal, offset, total, mode, value, unit))
      ensures emitted != StepRecords(step, stepIndex, stepTotal, offset, total, mode, value, unit) ==> stopSet
      ensures old(stopSet) ==> stopSet
      ensures stopAt.None? ==> stopSet == old(stopSet)
    {
      var stepLabel := StepLabel(step, stepIndex);
      ghost var recs := StepRecords(step, stepIndex, stepTotal, offset, total, mode, value, unit);
      emitted := [];
      var remaining := step.durationSec;
      while remaining > 0
        invariant remaining <= step.durationSec
        invariant step.durationSec > 0 ==> remaining >= 0
        invariant |emitted| == (if step.durationSec > 0 then step.durationSec - remaining else 0)
        invariant emitted == recs[..|emitted|]
        invariant progress == old(progress) + emitted
        invariant stopSet == old(stopSet)
        decreases remaining
      {
        var stop := StopRequested(stopAt);
        if stop {
          return;
        }
        var stepElapsed := (step.durationSec - remaining) + 1;
        var elapsedTotal := offset + stepElapsed;
        var record := Record(step, stepIndex, stepTotal, stepLabel, mode, value, unit, stepElapsed, remaining, elapsedTotal, total);
        StepRecordAt(step, stepIndex, stepTotal, offset, total, mode, value, unit, |emitted|);
        assert step.durationSec - |emitted| == remaining;
        assert record == Tick(step, stepIndex, stepTotal, offset, total, mode, value, unit, remaining);
        assert recs[..|emitted| + 1] == recs[..|emitted|] + [record];
        progress := progress + [record];
        emitted := emitted + [record];
        remaining := remaining - 1;
      }
      assert emitted == recs;
    }

    /**
     * One pass of the run's step loop: a stop check, then the step's target,
     * then its countdown. What it emits starts the schedule from this step;
     * a step run to its end without the flag set is followed by the schedule
     * of the next step.
     */
    method RunStep(plan: WorkoutPlan, mode: TargetMode, ftpWatts: int, trainer: Trainer, stopAt: Option<nat>,
                   k: nat, offset: int) returns (status: StepStatus, emitted: seq<WorkoutProgress>)
      requires k < |plan.steps|
      modifies this`progress, this`requests, this`stopSet, this`checks
      ensures progress == old(progress) + emitted
      ensures IsPrefix(emitted, Schedule(plan, mode, ftpWatts, trainer, k, offset))
      ensures old(stopSet) ==> status == StepStopped
      ensures status == StepStopped ==> stopSet && emitted == []
      ensures status.StepFailed? ==>
        emitted == [] && status.error == ApplyFailed(mode) &&
        (!stopSet ==> Applied(plan, mode, ftpWatts, trainer, k).None?)
      ensures status == StepRan && !stopSet ==>
        Applied(plan, mode, ftpWatts, trainer, k).Some? &&
        Schedule(plan, mode, ftpWatts, trainer, k, offset) ==
          emitted + Schedule(plan, mode, ftpWatts, trainer, k + 1, offset + plan.steps[k].durationSec)
      ensures old(stopSet) ==> stopSet
      ensures stopAt.None? ==> stopSet == old(stopSet)
    {
      var stop := StopRequested(stopAt);
      if stop {
        return StepStopped, [];
      }
      var step := plan.steps[k];
      var applied, _ := ApplyStepTarget(step, mode, ftpWatts, k + 1, trainer, stopAt);
      if applied.Err? {
        return StepFailed(applied.error), [];
      }
      ScheduleUnfold(plan, mode, ftpWatts, trainer, k, offset);
      ghost var recs := StepRecords(step, k + 1, |plan.steps|, offset, TotalDurationSec(plan), mode,
        applied.value.0, applied.value.1);
      ghost var rest := Schedule(plan, mode, ftpWatts, trainer, k + 1, offset + step.durationSec);
      emitted := CountdownStep(step, mode, applied.value.0, applied.value.1, k + 1, |plan.steps|,
        offset, TotalDurationSec(plan), stopAt);
      PrefixOfConcat(emitted, recs, rest);
      status := StepRan;
    }

    /**
     * The run's step loop: each step in turn until the flag is seen set or a
     * target cannot be applied. What it emits is a prefix of the never-stopped
     * schedule, and all of it when the flag was never seen set.
     */
    method RunSteps(plan: WorkoutPlan, mode: TargetMode, ftpWatts: int, trainer: Trainer, stopAt: Option<nat>)
      returns (failed: Option<RunError>, ghost em: seq<WorkoutProgress>)
      modifies this`progress, this`requests, this`stopSet, this`checks
      ensures progress == old(progress) + em
      ensures IsPrefix(em, Schedule(plan, mode, ftpWatts, trainer, 0, 0))
      ensures !stopSet ==> em == Schedule(plan, mode, ftpWatts, trainer, 0, 0)
      ensures !stopSet ==> (failed.None? <==> AllApplied(plan, mode, ftpWatts, trainer, 0))
      ensures failed.Some? ==> failed.value == ApplyFailed(mode)
      ensures old(stopSet) ==> stopSet
      ensures stopAt.None? ==> stopSet == old(stopSet)
    {
      ghost var full := Schedule(plan, mode, ftpWatts, trainer, 0, 0);
      em := [];
      ghost var tail := full;
      ghost var before := progress;
      assert before + em == before;
      var elapsedOffset := 0;
      var k := 0;
      while k < |plan.steps|
        invariant 0 <= k <= |plan.steps|
        invariant before == old(progress) && progress == before + em
        invariant tail == Schedule(plan, mode, ftpWatts, trainer, k, elapsedOffset)
        invariant !stopSet ==> full == em + tail
        invariant !stopSet ==> AppliedBefore(plan, mode, ftpWatts, trainer, k)
        invariant IsPrefix(em, full)
        invariant old(stopSet) ==> stopSet
        invariant stopAt.None? ==> stopSet == old(stopSet)
      {
        var status, emitted := RunStep(plan, mode, ftpWatts, trainer, stopAt, k, elapsedOffset);
        if status == StepStopped {
          return None, em;
        }
        if status.StepFailed? {
          return Some(status.error), em;
        }
        ghost var rest := Schedule(plan, mode, ftpWatts, trainer, k + 1, elapsedOffset + plan.steps[k].durationSec);
        RunExtend(full, em, emitted, tail, rest, !stopSet);
        AppliedBeforeNext(plan, mode, ftpWatts, trainer, k, !stopSet);
        assert progress == before + (em + emitted) by {
          AppendAssoc(before, em, emitted);
        }
        em := em + emitted;
        tail := rest;
        elapsedOffset := elapsedOffset + plan.steps[k].durationSec;
        k := k + 1;
      }
      failed := None;
    }

    /**
     * A run: the step loop, then a last stop check decides `completed`, and the
     * finish callback gets it exactly once, also when applying a target raises.
     *
     * What it emits is always a prefix of the never-stopped schedule, and the
     * whole of it when the flag was never seen set; it completes exactly when
     * no target failed and the flag was not set.
     */
    method Run(plan: WorkoutPlan, mode: TargetMode, ftpWatts: int, trainer: Trainer, stopAt: Option<nat>)
      returns (r: Result<(), RunError>, completed: bool)
      requires IsRunning()
      modifies this`progress, this`finishes, this`requests, this`stopSet, this`checks, this`task
      ensures task == Finished
      ensures finishes == old(finishes) + [completed]
      ensures |old(progress)| <= |progress| && progress[..|old(progress)|] == old(progress)
      ensures IsPrefix(progress[|old(progress)|..], Schedule(plan, mode, ftpWatts, trainer, 0, 0))
      ensures !stopSet ==> progress[|old(progress)|..] == Schedule(plan, mode, ftpWatts, trainer, 0, 0)
      ensures !stopSet ==> (r.Ok? <==> AllApplied(plan, mode, ftpWatts, trainer, 0))
      ensures r.Err? ==> r.error == ApplyFailed(mode)
      ensures completed <==> r.Ok? && !stopSet
      ensures old(stopSet) ==> stopSet
      ensures stopAt.None? ==> stopSet == old(stopSet)
    {
      var failed, em := RunSteps(plan, mode, ftpWatts, trainer, stopAt);
      AppendParts(old(progress), em);
      if failed.Some? {
        finishes := finishes + [false];
        task := Finished;
        return Err(failed.value), false;
      }
      var stop := StopRequested(stopAt);
      completed := !stop;
      finishes := finishes + [completed];
      task := Finished;
      r := Ok(());
    }
  }
}
