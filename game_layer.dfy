/**
 * The game layer: a sequence of goals, each held for a number of seconds,
 * that award points and coins when completed.
 */
module GameLayer {
  import opened Wrappers

  datatype GoalKind = Power | Cadence | Both

  datatype GoalDefinition = GoalDefinition(key: string, title: string, kind: GoalKind, targetSec: real, points: int)

  /** A goal with the seconds held so far and whether it is completed. */
  datatype GoalProgress = GoalProgress(definition: GoalDefinition, progressSec: real, completed: bool)

  const PowerHold := GoalDefinition("power_hold", "Hold power zone", Power, 20.0, 100)
  const CadenceHold := GoalDefinition("cadence_hold", "Hold cadence zone", Cadence, 20.0, 120)
  const ComboHold := GoalDefinition("combo_hold", "Hold both zones", Both, 25.0, 180)

  /** `DEFAULT_GAME_GOALS`: hold power, then cadence, then both. */
  const DefaultGameGoals: seq<GoalDefinition> := [PowerHold, CadenceHold, ComboHold]

  /** The default goals: their kinds, targets and points, in order. */
  lemma DefaultGoals()
    ensures |DefaultGameGoals| == 3
    ensures DefaultGameGoals[0].kind == Power && DefaultGameGoals[0].targetSec == 20.0 && DefaultGameGoals[0].points == 100
    ensures DefaultGameGoals[1].kind == Cadence && DefaultGameGoals[1].targetSec == 20.0 && DefaultGameGoals[1].points == 120
    ensures DefaultGameGoals[2].kind == Both && DefaultGameGoals[2].targetSec == 25.0 && DefaultGameGoals[2].points == 180
    ensures forall i :: 0 <= i < |DefaultGameGoals| ==> DefaultGameGoals[i].points >= 0
  {
  }

  /**
   * Whether the current second counts towards a goal of the given kind: only
   * an explicit "in zone" counts, and an unknown zone state is a miss.
   */
  function GoalCondition(kind: GoalKind, powerInZone: Option<bool>, cadenceInZone: Option<bool>): (r: bool)
    ensures r <==> (kind != Cadence ==> powerInZone == Some(true)) && (kind != Power ==> cadenceInZone == Some(true))
  {
    match kind
    case Power => powerInZone == Some(true)
    case Cadence => cadenceInZone == Some(true)
    case Both => powerInZone == Some(true) && cadenceInZone == Some(true)
  }

  /** The goals of a fresh tracker: every base goal with no progress and not completed. */
  function FreshGoals(base: seq<GoalDefinition>): seq<GoalProgress>
  {
    seq(|base|, i requires 0 <= i < |base| => GoalProgress(base[i], 0.0, false))
  }

  /** `current_goal`: the goal at the current index, or nothing once every goal is done. */
  function CurrentGoalOf(goals: seq<GoalProgress>, currentIndex: nat): (r: Option<GoalProgress>)
    ensures r.None? <==> currentIndex >= |goals|
    ensures r.Some? ==> currentIndex < |goals| && r.value == goals[currentIndex]
  {
    if currentIndex >= |goals| then None else Some(goals[currentIndex])
  }

  /** The tracker's fields. */
  datatype TrackerState = TrackerState(goals: seq<GoalProgress>, currentIndex: nat, score: int, coins: int, streak: int)

  /** The coins a completed goal awards: a twentieth of its points, rounded down, and at least one. */
  function CoinsFor(points: int): (r: int)
    ensures r >= 1
    ensures points >= 20 ==> 20 * r <= points < 20 * r + 20
  {
    MaxInt(1, points / 20)
  }

  /** `update`. */
  function Step(s: TrackerState, powerInZone: Option<bool>, cadenceInZone: Option<bool>, dtSec: real): TrackerState
  {
    var current := CurrentGoalOf(s.goals, s.currentIndex);
    if current.None? || dtSec <= 0.0 then s
    else
      var goal := current.value;
      var hit := GoalCondition(goal.definition.kind, powerInZone, cadenceInZone);
      var progress := if hit then goal.progressSec + dtSec else MaxReal(0.0, goal.progressSec - dtSec * 0.5);
      var streak := if hit then s.streak + 1 else 0;
      if progress >= goal.definition.targetSec then
        TrackerState(
          s.goals[s.currentIndex := GoalProgress(goal.definition, progress, true)],
          s.currentIndex + 1, s.score + goal.definition.points, s.coins + CoinsFor(goal.definition.points), streak)
      else
        TrackerState(
          s.goals[s.currentIndex := GoalProgress(goal.definition, progress, goal.completed)],
          s.currentIndex, s.score, s.coins, streak)
  }

  /** The points of a sequence of goals. */
  function SumPoints(ds: seq<GoalDefinition>): int
  {
    if ds == [] then 0 else SumPoints(ds[..|ds| - 1]) + ds[|ds| - 1].points
  }

  /** The coins of a sequence of goals. */
  function SumCoins(ds: seq<GoalDefinition>): int
  {
    if ds == [] then 0 else SumCoins(ds[..|ds| - 1]) + CoinsFor(ds[|ds| - 1].points)
  }

  /**
   * What a tracker over `base` always satisfies: one entry per base goal, the
   * goals before the current index completed and the others not, progress
   * never negative, none on the goals not yet reached, and score and coins
   * the awards of the completed goals.
   */
  ghost predicate Inv(base: seq<GoalDefinition>, s: TrackerState)
  {
    |s.goals| == |base|
    && s.currentIndex <= |base|
    && s.streak >= 0
    && (forall i :: 0 <= i < |base| ==> s.goals[i].definition == base[i])
    && (forall i :: 0 <= i < |base| ==> s.goals[i].progressSec >= 0.0)
    && (forall i :: 0 <= i < |base| ==> (s.goals[i].completed <==> i < s.currentIndex))
    && (forall i :: s.currentIndex < i < |base| ==> s.goals[i].progressSec == 0.0)
    && s.score == SumPoints(base[..s.currentIndex])
    && s.coins == SumCoins(base[..s.currentIndex])
  }

  /** The state `reset` leaves. */
  function Initial(base: seq<GoalDefinition>): TrackerState
  {
    TrackerState(FreshGoals(base), 0, 0, 0, 0)
  }

  /** A reset tracker satisfies the invariant and has its first goal current, if any. */
  lemma InitialInv(base: seq<GoalDefinition>)
    ensures Inv(base, Initial(base))
    ensures CurrentGoalOf(Initial(base).goals, 0) == (if base == [] then None else Some(GoalProgress(base[0], 0.0, false)))
  {
    assert base[..0] == [];
  }

  /** Awards of a prefix extended by one goal. */
  lemma SumsPrefix(base: seq<GoalDefinition>, k: nat)
    requires k < |base|
    ensures SumPoints(base[..k + 1]) == SumPoints(base[..k]) + base[k].points
    ensures SumCoins(base[..k + 1]) == SumCoins(base[..k]) + CoinsFor(base[k].points)
  {
    assert base[..k + 1][..k] == base[..k];
  }

  /** `update` preserves the invariant. */
  lemma StepInv(base: seq<GoalDefinition>, s: TrackerState, powerInZone: Option<bool>, cadenceInZone: Option<bool>, dtSec: real)
    requires Inv(base, s)
    ensures Inv(base, Step(s, powerInZone, cadenceInZone, dtSec))
  {
    if s.currentIndex < |s.goals| && dtSec > 0.0 {
      SumsPrefix(base, s.currentIndex);
    }
  }

  /** With no current goal, or no time elapsed, `update` changes nothing. */
  lemma NoGoalOrNoTime(s: TrackerState, powerInZone: Option<bool>, cadenceInZone: Option<bool>, dtSec: real)
    requires s.currentIndex >= |s.goals| || dtSec <= 0.0
    ensures Step(s, powerInZone, cadenceInZone, dtSec) == s
  {
  }

  /**
   * A hit adds the elapsed time to the current goal and extends the streak;
   * a miss takes off half the elapsed time, never going below zero, and
   * breaks the streak. Nothing but the current goal's entry changes on the
   * goals, and the goal is completed exactly when its progress reaches the
   * target.
   */
  lemma StepProgress(s: TrackerState, powerInZone: Option<bool>, cadenceInZone: Option<bool>, dtSec: real)
    requires s.currentIndex < |s.goals| && dtSec > 0.0
    ensures var g := s.goals[s.currentIndex];
      var t := Step(s, powerInZone, cadenceInZone, dtSec);
      var hit := GoalCondition(g.definition.kind, powerInZone, cadenceInZone);
      var progress := t.goals[s.currentIndex].progressSec;
      |t.goals| == |s.goals|
      && (forall i :: 0 <= i < |s.goals| && i != s.currentIndex ==> t.goals[i] == s.goals[i])
      && t.goals[s.currentIndex].definition == g.definition
      && (hit ==> progress == g.progressSec + dtSec && t.streak == s.streak + 1)
      && (!hit ==> progress == (if g.progressSec - dtSec / 2.0 > 0.0 then g.progressSec - dtSec / 2.0 else 0.0) && t.streak == 0)
      && (progress >= g.definition.targetSec <==> t.currentIndex == s.currentIndex + 1)
  {
  }

  /**
   * Completion: the goal reaching its target is marked completed, its points
   * are added to the score, its coins to the coins, and the next goal becomes
   * current; short of the target, score, coins and index stay.
   */
  lemma StepCompletion(s: TrackerState, powerInZone: Option<bool>, cadenceInZone: Option<bool>, dtSec: real)
    requires s.currentIndex < |s.goals| && dtSec > 0.0
    ensures var g := s.goals[s.currentIndex];
      var t := Step(s, powerInZone, cadenceInZone, dtSec);
      if t.goals[s.currentIndex].progressSec >= g.definition.targetSec then
        t.goals[s.currentIndex].completed
        && t.score == s.score + g.definition.points
        && t.coins == s.coins + CoinsFor(g.definition.points)
        && t.currentIndex == s.currentIndex + 1
      else
        t.goals[s.currentIndex].completed == g.completed
        && t.score == s.score && t.coins == s.coins && t.currentIndex == s.currentIndex
  {
  }

  /**
   * At most one goal completes per update, and with goals worth no negative
   * points the index, the score and the coins never decrease.
   */
  lemma StepMonotone(base: seq<GoalDefinition>, s: TrackerState, powerInZone: Option<bool>, cadenceInZone: Option<bool>, dtSec: real)
    requires Inv(base, s)
    requires forall i :: 0 <= i < |base| ==> base[i].points >= 0
    ensures var t := Step(s, powerInZone, cadenceInZone, dtSec);
      (t.currentIndex == s.currentIndex || t.currentIndex == s.currentIndex + 1)
      && t.score >= s.score && t.coins >= s.coins
      && (t.currentIndex == s.currentIndex + 1 ==> t.coins >= s.coins + 1)
  {
  }

  /** `update` applied `n` times with the same readings. */
  function Steps(s: TrackerState, n: nat, powerInZone: Option<bool>, cadenceInZone: Option<bool>, dtSec: real): TrackerState
  {
    if n == 0 then s else Step(Steps(s, n - 1, powerInZone, cadenceInZone, dtSec), powerInZone, cadenceInZone, dtSec)
  }

  /** The default tracker after `k` seconds of power in zone, short of the first target. */
  function HoldingPower(k: nat): TrackerState
  {
    TrackerState(Initial(DefaultGameGoals).goals[0 := GoalProgress(PowerHold, k as real, false)], 0, 0, 0, k)
  }

  /** Up to 19 one-second hits on the power goal only accumulate progress and streak. */
  lemma {:induction false} PowerHoldProgress(k: nat)
    requires k <= 19
    ensures Steps(Initial(DefaultGameGoals), k, Some(true), Some(false), 1.0) == HoldingPower(k)
  {
    if k == 0 {
      assert Initial(DefaultGameGoals).goals[0] == GoalProgress(PowerHold, 0.0, false);
      assert Initial(DefaultGameGoals).goals[0 := GoalProgress(PowerHold, 0.0, false)] == Initial(DefaultGameGoals).goals;
    } else {
      PowerHoldProgress(k - 1);
      var s := HoldingPower(k - 1);
      assert CurrentGoalOf(s.goals, 0) == Some(GoalProgress(PowerHold, (k - 1) as real, false));
      assert s.goals[0 := GoalProgress(PowerHold, k as real, false)] == HoldingPower(k).goals;
    }
  }

  /**
   * Twenty one-second hits on the default goals complete the power goal: the
   * score is 100, five coins are awarded, and the cadence goal is current.
   */
  lemma PowerHoldCompletes()
    ensures var t := Steps(Initial(DefaultGameGoals), 20, Some(true), Some(false), 1.0);
      t.score == 100 && t.coins == 5 && t.currentIndex == 1
      && CurrentGoalOf(t.goals, t.currentIndex).Some?
      && CurrentGoalOf(t.goals, t.currentIndex).value.definition.kind == Cadence
  {
    PowerHoldProgress(19);
    var s := HoldingPower(19);
    assert CurrentGoalOf(s.goals, 0) == Some(GoalProgress(PowerHold, 19.0, false));
    assert Step(s, Some(true), Some(false), 1.0).goals[1] == GoalProgress(CadenceHold, 0.0, false);
  }

  /** Six seconds in zone leave progress; two seconds out of zone take one second off. */
  lemma DecayExample()
    ensures var t1 := Step(Initial(DefaultGameGoals), Some(true), Some(false), 6.0);
      var t2 := Step(t1, Some(false), Some(false), 2.0);
      t1.currentIndex == 0 && t1.goals[0].progressSec == 6.0
      && t2.currentIndex == 0 && t2.goals[0].progressSec == 5.0
  {
    assert Initial(DefaultGameGoals).goals[0] == GoalProgress(PowerHold, 0.0, false);
  }

  /** `GoalTracker`. */
  class GoalTracker {
    const baseGoals: seq<GoalDefinition>
    var goals: seq<GoalProgress>
    var currentIndex: nat
    var score: int
    var coins: int
    var streak: int

    ghost function State(): TrackerState
      reads this
    {
      TrackerState(goals, currentIndex, score, coins, streak)
    }

    ghost predicate Valid()
      reads this
    {
      Inv(baseGoals, State())
    }

    constructor(goals: seq<GoalDefinition>)
      ensures Valid()
      ensures baseGoals == goals
      ensures State() == Initial(goals)
    {
      baseGoals := goals;
      new;
      Reset();
    }

    /** Rebuilds the goals from the base goals and zeroes the counters. */
    method Reset()
      modifies this
      ensures Valid()
      ensures State() == Initial(baseGoals)
    {
      goals := FreshGoals(baseGoals);
      currentIndex := 0;
      score := 0;
      coins := 0;
      streak := 0;
      InitialInv(baseGoals);
    }

    function CurrentGoal(): Option<GoalProgress>
      reads this
    {
      CurrentGoalOf(goals, currentIndex)
    }

    /** Accounts for `dtSec` seconds with the given zone states. */
    method Update(powerInZone: Option<bool>, cadenceInZone: Option<bool>, dtSec: real)
      requires Valid()
      modifies this
      ensures Valid()
      ensures State() == Step(old(State()), powerInZone, cadenceInZone, dtSec)
    {
      ghost var before := State();
      var current := CurrentGoal();
      if current.Some? && dtSec > 0.0 {
        var goal := current.value;
        if GoalCondition(goal.definition.kind, powerInZone, cadenceInZone) {
          goal := goal.(progressSec := goal.progressSec + dtSec);
          streak := streak + 1;
        } else {
          goal := goal.(progressSec := MaxReal(0.0, goal.progressSec - dtSec * 0.5));
          streak := 0;
        }
        goals := goals[currentIndex := goal];
        if goal.progressSec >= goal.definition.targetSec {
          goals := goals[currentIndex := goal.(completed := true)];
          score := score + goal.definition.points;
          coins := coins + CoinsFor(goal.definition.points);
          currentIndex := currentIndex + 1;
        }
      }
      assert State() == Step(before, powerInZone, cadenceInZone, dtSec);
      StepInv(baseGoals, before, powerInZone, cadenceInZone, dtSec);
    }
  }
}
