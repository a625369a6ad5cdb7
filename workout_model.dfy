/** Workout steps and plans, and a plan's total duration. */
module WorkoutModel {
  import opened Wrappers

  /** One step: how long, at what power, with an optional label and cadence bounds. */
  datatype WorkoutStep = WorkoutStep(
    durationSec: int,
    targetWatts: int,
    stepLabel: Option<string>,
    cadenceMinRpm: Option<int>,
    cadenceMaxRpm: Option<int>)

  datatype WorkoutPlan = WorkoutPlan(name: string, steps: seq<WorkoutStep>)

  /** The sum of the step durations. */
  function TotalDuration(steps: seq<WorkoutStep>): int
  {
    if steps == [] then 0 else steps[0].durationSec + TotalDuration(steps[1..])
  }

  /** `total_duration_sec` of a plan. */
  function TotalDurationSec(plan: WorkoutPlan): int
  {
    TotalDuration(plan.steps)
  }

  /** With positive durations the total is at least one second per step. */
  lemma {:induction false} TotalDurationBound(steps: seq<WorkoutStep>)
    ensures (forall i :: 0 <= i < |steps| ==> steps[i].durationSec > 0) ==> TotalDuration(steps) >= |steps|
  {
    if steps != [] {
      TotalDurationBound(steps[1..]);
      assert forall i :: 0 <= i < |steps| - 1 ==> steps[1..][i] == steps[i + 1];
    }
  }

  /** The total of two step sequences put one after the other is the sum of their totals. */
  lemma {:induction false} TotalDurationAppend(a: seq<WorkoutStep>, b: seq<WorkoutStep>)
    ensures TotalDuration(a + b) == TotalDuration(a) + TotalDuration(b)
  {
    if a == [] {
      assert a + b == b;
    } else {
      assert (a + b)[1..] == a[1..] + b;
      TotalDurationAppend(a[1..], b);
    }
  }

  /** The prefix of `k` steps and the step at `k` make the prefix of `k + 1` steps. */
  lemma TotalDurationPrefix(steps: seq<WorkoutStep>, k: nat)
    requires k < |steps|
    ensures TotalDuration(steps[..k + 1]) == TotalDuration(steps[..k]) + steps[k].durationSec
  {
    assert steps[..k + 1] == steps[..k] + [steps[k]];
    TotalDurationAppend(steps[..k], [steps[k]]);
  }

  /** A plan without steps lasts 0 s; steps of 60 s and 30 s last 90 s; steps of 60 s and 120 s last 180 s. */
  lemma TotalDurationExamples(w: Option<string>, lo: Option<int>, hi: Option<int>)
    ensures TotalDurationSec(WorkoutPlan("e", [])) == 0
    ensures TotalDurationSec(WorkoutPlan("p", [WorkoutStep(60, 200, w, lo, hi), WorkoutStep(30, 150, None, None, None)])) == 90
    ensures TotalDurationSec(WorkoutPlan("q", [WorkoutStep(60, 200, w, lo, hi), WorkoutStep(120, 250, None, None, None)])) == 180
  {
    var s1 := [WorkoutStep(60, 200, w, lo, hi), WorkoutStep(30, 150, None, None, None)];
    var s2 := [WorkoutStep(60, 200, w, lo, hi), WorkoutStep(120, 250, None, None, None)];
    assert s1[1..] == [s1[1]] && s2[1..] == [s2[1]];
    assert TotalDuration([s1[1]]) == 30 && TotalDuration([s2[1]]) == 120 by {
      assert [s1[1]][1..] == [] && [s2[1]][1..] == [];
    }
  }
}
