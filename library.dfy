/**
 * The built-in workout templates and how a template becomes a plan for a
 * rider's FTP: every step's intensity scales the FTP into a target, and a
 * step without its own cadence zone gets one inferred from its intensity.
 *
 * Intensities are exact reals here; the binary floating point of the
 * products `ftp * intensity` is not modelled, only half-to-even rounding.
 */
module Library {
  import opened Wrappers
  import opened Rounding
  import opened Text
  import opened WorkoutModel

  /** A template step: duration, a fraction of FTP, a label and optional cadence bounds. */
  datatype TemplateStep = TemplateStep(
    durationSec: int,
    intensity: real,
    stepLabel: string,
    cadenceMinRpm: Option<int>,
    cadenceMaxRpm: Option<int>)

  datatype Template = Template(key: string, name: string, category: string, steps: seq<TemplateStep>)

  datatype LibraryError = NonPositiveFtp | UnknownTemplate(key: string)

  /** A template step without its own cadence zone. */
  function Plain(durationSec: int, intensity: real, stepLabel: string): TemplateStep {
    TemplateStep(durationSec, intensity, stepLabel, None, None)
  }

  /** A template step with its own cadence zone. */
  function Zoned(durationSec: int, intensity: real, stepLabel: string, lo: int, hi: int): TemplateStep {
    TemplateStep(durationSec, intensity, stepLabel, Some(lo), Some(hi))
  }

  const WakeUp20: Template :=
    Template("wake_up_20", "Wake Up 20", "Reveil", [
      Plain(300, 0.50, "Warmup"),
      Zoned(180, 0.60, "Cadence Prep", 90, 100),
      Zoned(60, 0.80, "Activation", 95, 105),
      Plain(120, 0.55, "Recover"),
      Zoned(60, 0.90, "Openers", 100, 110),
      Plain(180, 0.50, "Cool-down")])

  const Tempo30: Template :=
    Template("tempo_30", "Tempo 30", "Tempo", [
      Plain(420, 0.55, "Warmup"),
      Zoned(720, 0.78, "Tempo Main", 88, 96),
      Plain(240, 0.50, "Cool-down")])

  const SweetSpot45: Template :=
    Template("sweetspot_45", "Sweet Spot 45", "FTP", [
      Plain(600, 0.55, "Warmup"),
      Zoned(900, 0.88, "Sweet Spot Block", 88, 96),
      Plain(300, 0.60, "Recover"),
      Zoned(600, 0.90, "Sweet Spot Finish", 88, 96),
      Plain(300, 0.50, "Cool-down")])

  const Endurance60: Template :=
    Template("endurance_60", "Endurance 60", "Endurance", [
      Plain(600, 0.55, "Warmup"),
      Zoned(2400, 0.70, "Endurance Cruise", 85, 95),
      Zoned(600, 0.60, "Tempo Finish", 88, 96)])

  const FtpBuilder2x8: Template :=
    Template("ftp_2x8", "FTP Builder 2x8", "FTP", [
      Plain(480, 0.55, "Warmup"),
      Zoned(480, 0.95, "Block 1", 85, 95),
      Plain(240, 0.60, "Recover"),
      Zoned(480, 1.00, "Block 2", 85, 95),
      Plain(360, 0.50, "Cool-down")])

  const SweetSpot3x10: Template :=
    Template("sweetspot_3x10", "Sweet Spot 3x10", "FTP", [
      Plain(600, 0.55, "Warmup"),
      Zoned(600, 0.88, "Sweet Spot 1", 88, 96),
      Plain(240, 0.60, "Recover"),
      Zoned(600, 0.90, "Sweet Spot 2", 88, 96),
      Plain(240, 0.60, "Recover"),
      Zoned(600, 0.92, "Sweet Spot 3", 88, 96),
      Plain(300, 0.50, "Cool-down")])

  const Power30x30: Template :=
    Template("vo2_30_30", "Power 30/30", "Power", [
      Plain(480, 0.55, "Warmup"),
      Zoned(30, 1.20, "ON 1", 100, 115),
      Zoned(30, 0.50, "OFF 1", 80, 95),
      Zoned(30, 1.20, "ON 2", 100, 115),
      Zoned(30, 0.50, "OFF 2", 80, 95),
      Zoned(30, 1.20, "ON 3", 100, 115),
      Zoned(30, 0.50, "OFF 3", 80, 95),
      Zoned(30, 1.20, "ON 4", 100, 115),
      Zoned(30, 0.50, "OFF 4", 80, 95),
      Zoned(30, 1.20, "ON 5", 100, 115),
      Zoned(30, 0.50, "OFF 5", 80, 95),
      Zoned(30, 1.20, "ON 6", 100, 115),
      Zoned(30, 0.50, "OFF 6", 80, 95),
      Plain(420, 0.50, "Cool-down")])

  const Vo2max5x3: Template :=
    Template("vo2max_5x3", "VO2max 5x3", "VO2max", [
      Plain(600, 0.55, "Warmup"),
      Zoned(180, 1.12, "VO2 #1", 95, 108),
      Zoned(180, 0.55, "Recover #1", 82, 92),
      Zoned(180, 1.12, "VO2 #2", 95, 108),
      Zoned(180, 0.55, "Recover #2", 82, 92),
      Zoned(180, 1.12, "VO2 #3", 95, 108),
      Zoned(180, 0.55, "Recover #3", 82, 92),
      Zoned(180, 1.12, "VO2 #4", 95, 108),
      Zoned(180, 0.55, "Recover #4", 82, 92),
      Zoned(180, 1.12, "VO2 #5", 95, 108),
      Plain(420, 0.50, "Cool-down")])

  const Threshold4x6: Template :=
    Template("threshold_4x6", "Threshold 4x6", "FTP", [
      Plain(600, 0.55, "Warmup"),
      Zoned(360, 1.02, "Threshold 1", 82, 92),
      Plain(180, 0.60, "Recover"),
      Zoned(360, 1.03, "Threshold 2", 82, 92),
      Plain(180, 0.60, "Recover"),
      Zoned(360, 1.04, "Threshold 3", 82, 92),
      Plain(180, 0.60, "Recover"),
      Zoned(360, 1.05, "Threshold 4", 82, 92),
      Plain(420, 0.50, "Cool-down")])

  /** The built-in templates, in their listed order. */
  const Templates: seq<Template> := [
    WakeUp20, Tempo30, SweetSpot45, Endurance60, FtpBuilder2x8,
    SweetSpot3x10, Power30x30, Vo2max5x3, Threshold4x6]

  /** A step lasts a positive time, and its cadence bounds come as an ordered pair or not at all. */
  predicate TemplateStepOk(s: TemplateStep) {
    s.durationSec > 0 && s.intensity > 0.0 &&
    (s.cadenceMinRpm.Some? <==> s.cadenceMaxRpm.Some?) &&
    (s.cadenceMinRpm.Some? ==> 0 < s.cadenceMinRpm.value <= s.cadenceMaxRpm.value)
  }

  predicate TemplateOk(t: Template) {
    |t.steps| > 0 && forall k :: 0 <= k < |t.steps| ==> TemplateStepOk(t.steps[k])
  }

  /** Every template is well formed and no two share a key. */
  predicate TableOk(ts: seq<Template>) {
    (forall i, j :: 0 <= i < j < |ts| ==> ts[i].key != ts[j].key) &&
    (forall i :: 0 <= i < |ts| ==> TemplateOk(ts[i]))
  }

  /** The keys of the built-in templates are distinct. */
  lemma TemplateKeysDistinct()
    ensures forall i, j :: 0 <= i < j < |Templates| ==> Templates[i].key != Templates[j].key
  {
    var keys := seq(|Templates|, i requires 0 <= i < |Templates| => Templates[i].key);
    assert keys == ["wake_up_20", "tempo_30", "sweetspot_45", "endurance_60", "ftp_2x8",
      "sweetspot_3x10", "vo2_30_30", "vo2max_5x3", "threshold_4x6"];
    forall i, j | 0 <= i < j < |Templates|
      ensures Templates[i].key != Templates[j].key
    {
      assert keys[i] == Templates[i].key && keys[j] == Templates[j].key;
      assert |keys[i]| != |keys[j]| || keys[i][0] != keys[j][0];
    }
  }

  /** The first three templates are well formed. */
  lemma TemplatesOkA()
    ensures TemplateOk(WakeUp20) && TemplateOk(Tempo30) && TemplateOk(SweetSpot45)
  {
    assert TemplateOk(WakeUp20);
    assert TemplateOk(Tempo30);
  }

  /** The middle three templates are well formed. */
  lemma TemplatesOkB()
    ensures TemplateOk(Endurance60) && TemplateOk(FtpBuilder2x8) && TemplateOk(SweetSpot3x10)
  {
    assert TemplateOk(Endurance60);
    assert TemplateOk(FtpBuilder2x8);
  }

  /** The last three templates are well formed. */
  lemma TemplatesOkC()
    ensures TemplateOk(Power30x30) && TemplateOk(Vo2max5x3) && TemplateOk(Threshold4x6)
  {
    assert TemplateOk(Power30x30);
    assert TemplateOk(Vo2max5x3);
  }

  /** Every built-in template is well formed. */
  lemma TemplatesOk()
    ensures forall i :: 0 <= i < |Templates| ==> TemplateOk(Templates[i])
  {
    TemplatesOkA();
    TemplatesOkB();
    TemplatesOkC();
  }

  /** `list_templates`: the table, well formed and with distinct keys. */
  function ListTemplates(): (ts: seq<Template>)
    ensures TableOk(ts) && |ts| == 9
  {
    TemplateKeysDistinct();
    TemplatesOk();
    Templates
  }

  /** The cadence zone for an intensity, by threshold: always a proper interval within 80..110 rpm. */
  function InferCadenceRange(intensity: real): (zone: (int, int))
    ensures 80 <= zone.0 < zone.1 <= 110
    ensures intensity <= 0.60 ==> zone == (80, 92)
    ensures 0.60 < intensity <= 0.78 ==> zone == (85, 95)
    ensures 0.78 < intensity <= 0.95 ==> zone == (88, 98)
    ensures 0.95 < intensity <= 1.05 ==> zone == (82, 92)
    ensures 1.05 < intensity ==> zone == (95, 110)
  {
    if intensity <= 0.60 then (80, 92)
    else if intensity <= 0.78 then (85, 95)
    else if intensity <= 0.95 then (88, 98)
    else if intensity <= 1.05 then (82, 92)
    else (95, 110)
  }

  /** The target for a fraction of FTP: the product rounded half to even, at least 1 W. */
  function TargetWatts(ftpWatts: int, intensity: real): (w: int)
    ensures w >= 1
    ensures w as real >= ftpWatts as real * intensity - 0.5
    ensures ftpWatts as real * intensity >= 0.5 ==> w as real <= ftpWatts as real * intensity + 0.5
  {
    MaxInt(1, RoundHalfEven(ftpWatts as real * intensity))
  }

  /**
   * The first template with the key, if any: found exactly when some template
   * has it, and then no earlier one does.
   */
  function FindTemplate(ts: seq<Template>, key: string): (t: Option<Template>)
    ensures t.None? <==> forall i :: 0 <= i < |ts| ==> ts[i].key != key
    ensures t.Some? ==>
      t.value.key == key && exists i :: 0 <= i < |ts| && ts[i] == t.value && (forall j :: 0 <= j < i ==> ts[j].key != key)
  {
    if ts == [] then None
    else if ts[0].key == key then Some(ts[0])
    else
      var rest := FindTemplate(ts[1..], key);
      assert forall i :: 1 <= i < |ts| ==> ts[i] == ts[1..][i - 1];
      rest
  }

  /** The plan step for a template step. */
  function StepFromTemplate(s: TemplateStep, ftpWatts: int): WorkoutStep {
    var zone := InferCadenceRange(s.intensity);
    WorkoutStep(s.durationSec, TargetWatts(ftpWatts, s.intensity), Some(s.stepLabel),
      Some(s.cadenceMinRpm.GetOr(zone.0)), Some(s.cadenceMaxRpm.GetOr(zone.1)))
  }

  /** The name of a plan built for an FTP. */
  function PlanName(t: Template, ftpWatts: int): string {
    t.name + " (" + IntToDecimal(ftpWatts) + " FTP)"
  }

  /** The plan a template gives for an FTP: one step per template step, in order, named `{name} ({ftp} FTP)`. */
  function PlanFromTemplate(t: Template, ftpWatts: int): (plan: WorkoutPlan)
    ensures |plan.steps| == |t.steps|
    ensures |plan.name| > |t.name| && plan.name[..|t.name|] == t.name
    ensures plan.name[|t.name|..] == " (" + IntToDecimal(ftpWatts) + " FTP)"
  {
    WorkoutPlan(PlanName(t, ftpWatts),
      seq(|t.steps|, k requires 0 <= k < |t.steps| => StepFromTemplate(t.steps[k], ftpWatts)))
  }

  /**
   * Building a plan: an FTP of at most 0 or an unknown key is refused;
   * otherwise each template step in turn becomes a plan step.
   */
  method BuildPlanFromTemplate(templateKey: string, ftpWatts: int) returns (r: Result<WorkoutPlan, LibraryError>)
    ensures ftpWatts <= 0 ==> r == Err(NonPositiveFtp)
    ensures ftpWatts > 0 && FindTemplate(Templates, templateKey).None? ==> r == Err(UnknownTemplate(templateKey))
    ensures ftpWatts > 0 && FindTemplate(Templates, templateKey).Some? ==>
      r == Ok(PlanFromTemplate(FindTemplate(Templates, templateKey).value, ftpWatts))
  {
    if ftpWatts <= 0 {
      return Err(NonPositiveFtp);
    }
    var found := FindTemplate(Templates, templateKey);
    if found.None? {
      return Err(UnknownTemplate(templateKey));
    }
    var steps := BuildSteps(found.value, ftpWatts);
    r := Ok(WorkoutPlan(PlanName(found.value, ftpWatts), steps));
  }

  /** The loop of `build_plan_from_template`: each template step in turn appended as a plan step. */
  method BuildSteps(template: Template, ftpWatts: int) returns (steps: seq<WorkoutStep>)
    ensures steps == PlanFromTemplate(template, ftpWatts).steps
  {
    steps := [];
    for k := 0 to |template.steps|
      invariant |steps| == k
      invariant forall j :: 0 <= j < k ==> steps[j] == StepFromTemplate(template.steps[j], ftpWatts)
    {
      steps := steps + [StepFromTemplate(template.steps[k], ftpWatts)];
    }
  }

  /**
   * Each plan step keeps its template step's duration and label, scales its
   * intensity into the target, and takes each cadence bound from the template
   * when it has one and from the inferred zone otherwise, independently.
   */
  lemma PlanSteps(t: Template, ftpWatts: int, k: nat)
    requires k < |t.steps|
    ensures var s := t.steps[k];
      var p := PlanFromTemplate(t, ftpWatts).steps[k];
      p.durationSec == s.durationSec && p.stepLabel == Some(s.stepLabel) &&
      p.targetWatts == MaxInt(1, RoundHalfEven(ftpWatts as real * s.intensity)) &&
      (s.cadenceMinRpm.Some? ==> p.cadenceMinRpm == s.cadenceMinRpm) &&
      (s.cadenceMinRpm.None? ==> p.cadenceMinRpm == Some(InferCadenceRange(s.intensity).0)) &&
      (s.cadenceMaxRpm.Some? ==> p.cadenceMaxRpm == s.cadenceMaxRpm) &&
      (s.cadenceMaxRpm.None? ==> p.cadenceMaxRpm == Some(InferCadenceRange(s.intensity).1))
  {
    assert PlanFromTemplate(t, ftpWatts).steps[k] == StepFromTemplate(t.steps[k], ftpWatts);
  }

  /**
   * A well-formed template gives a plan whose every step lasts a positive
   * time, has a positive target and an ordered pair of positive cadence bounds.
   */
  lemma PlanStepsValid(t: Template, ftpWatts: int)
    requires TemplateOk(t)
    ensures var plan := PlanFromTemplate(t, ftpWatts);
      |plan.steps| > 0 &&
      forall k :: 0 <= k < |plan.steps| ==>
        plan.steps[k].durationSec > 0 && plan.steps[k].targetWatts >= 1 &&
        plan.steps[k].cadenceMinRpm.Some? && plan.steps[k].cadenceMaxRpm.Some? &&
        0 < plan.steps[k].cadenceMinRpm.value <= plan.steps[k].cadenceMaxRpm.value
  {
    var plan := PlanFromTemplate(t, ftpWatts);
    forall k | 0 <= k < |plan.steps|
      ensures plan.steps[k].durationSec > 0 && plan.steps[k].targetWatts >= 1
      ensures plan.steps[k].cadenceMinRpm.Some? && plan.steps[k].cadenceMaxRpm.Some?
      ensures 0 < plan.steps[k].cadenceMinRpm.value <= plan.steps[k].cadenceMaxRpm.value
    {
      assert TemplateStepOk(t.steps[k]);
      PlanSteps(t, ftpWatts, k);
    }
  }

  /** With ftp > 0 a known key always gives a plan, and it is built from the first template with that key. */
  lemma BuildFindsTemplate(key: string, i: nat)
    requires i < |Templates| && Templates[i].key == key
    ensures FindTemplate(Templates, key) == Some(Templates[i])
  {
    TemplateKeysDistinct();
  }

  /** VO2max 5x3 at 250 W: 11 steps, and the first block targets 280 W at 95-108 rpm. */
  lemma Vo2maxExample()
    ensures var plan := PlanFromTemplate(Templates[7], 250);
      Templates[7].key == "vo2max_5x3" &&
      |plan.steps| == 11 && plan.name[..10] == "VO2max 5x3" &&
      plan.steps[1].targetWatts == 280 &&
      plan.steps[1].cadenceMinRpm == Some(95) && plan.steps[1].cadenceMaxRpm == Some(108)
  {
    var plan := PlanFromTemplate(Templates[7], 250);
    assert 250 as real * 1.12 == 280 as real;
    RoundOfInteger(280);
    PlanSteps(Templates[7], 250, 1);
    assert plan.name == "VO2max 5x3" + (" (" + IntToDecimal(250) + " FTP)");
  }

  /**
   * Tempo 30 at 240 W: the warmup gets the zone inferred for 55 % and the main
   * block its own, whose low bound is not below the warmup's.
   */
  lemma TempoExample()
    ensures var plan := PlanFromTemplate(Templates[1], 240);
      Templates[1].key == "tempo_30" &&
      plan.steps[0].cadenceMinRpm == Some(80) && plan.steps[0].cadenceMaxRpm == Some(92) &&
      plan.steps[1].cadenceMinRpm == Some(88) && plan.steps[1].cadenceMaxRpm == Some(96) &&
      plan.steps[1].cadenceMinRpm.value >= plan.steps[0].cadenceMinRpm.value
  {
    PlanSteps(Templates[1], 240, 0);
    PlanSteps(Templates[1], 240, 1);
  }
}
