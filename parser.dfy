/**
 * Reading a workout file: the format chosen by the file suffix, the plan-level
 * checks of the JSON and CSV layouts, and the validation of every step.
 *
 * Decoding JSON and CSV text is not modelled: a JSON document is given as its
 * top-level shape with the `name` and `steps` entries, a CSV file as its
 * header names and its rows, and every field as a `Value`.
 */
module Parser {
  import opened Wrappers
  import opened Text
  import opened WorkoutModel

  /** A field value as decoded: null or missing, a string, an integer, or anything else with its `str()` text. */
  datatype Value = Null | Str(s: string) | Int(n: int) | OtherValue(repr: string)

  /** `str(raw)`. */
  function Repr(v: Value): string {
    match v
    case Null => "None"
    case Str(s) => s
    case Int(n) => IntToDecimal(n)
    case OtherValue(r) => r
  }

  datatype FieldName = DurationSec | TargetWatts | CadenceMinRpm | CadenceMaxRpm

  datatype StepProblem = Invalid(field: FieldName) | NotPositive(field: FieldName) | CadenceOrder | NotAnObject

  /** The `WorkoutParseError`s; a step error names the step by its number from 1. */
  datatype ParseError =
    | StepError(step: nat, problem: StepProblem)
    | NoSteps
    | InvalidJson
    | DocumentNotObject
    | NameNotString
    | StepsNotArray
    | MissingHeaders
    | UnsupportedFormat(suffix: string)

  /**
   * A required integer field: missing or not an integer text is an error naming
   * the step. An integer value is taken as it is, which is what reading back its
   * decimal text gives (`ParseIntFieldOfRepr`).
   */
  function ParseIntField(raw: Value, field: FieldName, index: nat): (r: Result<int, ParseError>)
    ensures r.Err? ==> r.error == StepError(index + 1, Invalid(field))
    ensures raw.Null? ==> r.Err?
    ensures raw.Int? ==> r == Ok(raw.n)
  {
    match raw
    case Null => Err(StepError(index + 1, Invalid(field)))
    case Int(n) => Ok(n)
    case Str(text) => IntOfText(text, field, index)
    case OtherValue(text) => IntOfText(text, field, index)
  }

  /** `int(text.strip())`, the failure naming the step and field. */
  function IntOfText(text: string, field: FieldName, index: nat): (r: Result<int, ParseError>)
    ensures r.Err? ==> r.error == StepError(index + 1, Invalid(field))
    ensures r.Ok? <==> ParseInt(text).Some?
  {
    match ParseInt(text)
    case None => Err(StepError(index + 1, Invalid(field)))
    case Some(n) => Ok(n)
  }

  /** The field parse is `int(str(raw).strip())` for every value, `None` included. */
  lemma ParseIntFieldOfRepr(raw: Value, field: FieldName, index: nat)
    ensures ParseIntField(raw, field, index) == IntOfText(Repr(raw), field, index)
  {
    match raw
    case Null =>
      assert ParseInt("None") == None by {
        StripUnchanged("None");
      }
    case Int(n) => ParseIntOfDecimal(n);
    case Str(_) =>
    case OtherValue(_) =>
  }

  /** An optional integer field: null or a blank string means none, anything else must be an integer. */
  function ParseOptionalIntField(raw: Value, field: FieldName, index: nat): (r: Result<Option<int>, ParseError>)
    ensures raw.Null? || (raw.Str? && Strip(raw.s) == "") ==> r == Ok(None)
    ensures r.Ok? && r.value.Some? ==> ParseIntField(raw, field, index) == Ok(r.value.value)
    ensures r.Err? ==> r.error == StepError(index + 1, Invalid(field))
    ensures raw.Int? ==> r == Ok(Some(raw.n))
  {
    if raw.Null? then Ok(None)
    else if raw.Str? && Strip(raw.s) == "" then Ok(None)
    else
      match ParseIntField(raw, field, index)
      case Ok(n) => Ok(Some(n))
      case Err(e) => Err(e)
  }

  /** A label: none when missing, else its text stripped, and none when that is empty. */
  function Label(raw: Value): (l: Option<string>)
    ensures raw.Null? ==> l.None?
    ensures l.Some? ==> l.value != "" && Strip(l.value) == l.value
    ensures !raw.Null? && Strip(Repr(raw)) != "" ==> l == Some(Strip(Repr(raw)))
  {
    if raw.Null? then None
    else
      var t := Strip(Repr(raw));
      StripIdempotent(Repr(raw));
      if t == "" then None else Some(t)
  }

  /**
   * What a validated step satisfies: positive duration and target, positive
   * cadence bounds in order when both are given, and a stripped non-empty label
   * when there is one.
   */
  predicate ValidStep(s: WorkoutStep) {
    s.durationSec > 0 && s.targetWatts > 0 &&
    (s.cadenceMinRpm.Some? ==> s.cadenceMinRpm.value > 0) &&
    (s.cadenceMaxRpm.Some? ==> s.cadenceMaxRpm.value > 0) &&
    (s.cadenceMinRpm.Some? && s.cadenceMaxRpm.Some? ==> s.cadenceMinRpm.value <= s.cadenceMaxRpm.value) &&
    (s.stepLabel.Some? ==> s.stepLabel.value != "" && Strip(s.stepLabel.value) == s.stepLabel.value)
  }

  /** The two optional cadence bounds: each must be positive, and in order when both are given. */
  function CadenceBounds(cadenceMinRaw: Value, cadenceMaxRaw: Value, index: nat): (r: Result<(Option<int>, Option<int>), ParseError>)
    ensures r.Ok? ==> var (lo, hi) := r.value;
      (lo.Some? ==> lo.value > 0) && (hi.Some? ==> hi.value > 0) &&
      (lo.Some? && hi.Some? ==> lo.value <= hi.value)
    ensures r.Err? ==> r.error.StepError? && r.error.step == index + 1
  {
    var lo :- ParseOptionalIntField(cadenceMinRaw, CadenceMinRpm, index);
    var hi :- ParseOptionalIntField(cadenceMaxRaw, CadenceMaxRpm, index);
    if lo.Some? && lo.value <= 0 then Err(StepError(index + 1, NotPositive(CadenceMinRpm)))
    else if hi.Some? && hi.value <= 0 then Err(StepError(index + 1, NotPositive(CadenceMaxRpm)))
    else if lo.Some? && hi.Some? && lo.value > hi.value then Err(StepError(index + 1, CadenceOrder))
    else Ok((lo, hi))
  }

  /** `_build_step`: the checks in the order the source makes them; any failure names the step. */
  function BuildStep(durationRaw: Value, wattsRaw: Value, labelRaw: Value, cadenceMinRaw: Value, cadenceMaxRaw: Value,
                     index: nat): (r: Result<WorkoutStep, ParseError>)
    ensures r.Ok? ==> ValidStep(r.value)
    ensures r.Err? ==> r.error.StepError? && r.error.step == index + 1
  {
    var duration :- ParseIntField(durationRaw, DurationSec, index);
    var watts :- ParseIntField(wattsRaw, TargetWatts, index);
    if duration <= 0 then Err(StepError(index + 1, NotPositive(DurationSec)))
    else if watts <= 0 then Err(StepError(index + 1, NotPositive(TargetWatts)))
    else
      var bounds :- CadenceBounds(cadenceMinRaw, cadenceMaxRaw, index);
      Ok(WorkoutStep(duration, watts, Label(labelRaw), bounds.0, bounds.1))
  }

  /** An optional integer as the field value that carries it. */
  function IntValue(o: Option<int>): Value {
    if o.Some? then Int(o.value) else Null
  }

  /** An optional label as the field value that carries it. */
  function LabelValue(o: Option<string>): Value {
    if o.Some? then Str(o.value) else Null
  }

  /** A valid step written out as field values is accepted back unchanged. */
  lemma BuildStepRoundTrip(s: WorkoutStep, index: nat)
    requires ValidStep(s)
    ensures BuildStep(Int(s.durationSec), Int(s.targetWatts), LabelValue(s.stepLabel),
      IntValue(s.cadenceMinRpm), IntValue(s.cadenceMaxRpm), index) == Ok(s)
  {
    assert ParseIntField(Int(s.durationSec), DurationSec, index) == Ok(s.durationSec);
    assert ParseIntField(Int(s.targetWatts), TargetWatts, index) == Ok(s.targetWatts);
    assert Label(LabelValue(s.stepLabel)) == s.stepLabel;
    assert ParseOptionalIntField(IntValue(s.cadenceMinRpm), CadenceMinRpm, index) == Ok(s.cadenceMinRpm);
    assert ParseOptionalIntField(IntValue(s.cadenceMaxRpm), CadenceMaxRpm, index) == Ok(s.cadenceMaxRpm);
    assert CadenceBounds(IntValue(s.cadenceMinRpm), IntValue(s.cadenceMaxRpm), index) == Ok((s.cadenceMinRpm, s.cadenceMaxRpm));
  }

  /** Within a step the duration is checked before the target and the optional fields. */
  lemma BuildStepRejectsZeroDuration(wattsRaw: Value, labelRaw: Value, cadenceMinRaw: Value, cadenceMaxRaw: Value, index: nat)
    requires ParseIntField(wattsRaw, TargetWatts, index).Ok?
    ensures BuildStep(Int(0), wattsRaw, labelRaw, cadenceMinRaw, cadenceMaxRaw, index) ==
      Err(StepError(index + 1, NotPositive(DurationSec)))
  {
    assert ParseIntField(Int(0), DurationSec, index) == Ok(0);
  }

  /**
   * The CSV row `0,100` is rejected for the duration of step 1: any texts that
   * read as 0 and 100, as "0" and "100" do (`Text.ParseIntExamples`).
   */
  lemma CsvZeroDurationRow(zero: string, hundred: string)
    requires ParseInt(zero) == Some(0) && ParseInt(hundred) == Some(100)
    ensures BuildStep(Str(zero), Str(hundred), Null, Null, Null, 0) == Err(StepError(1, NotPositive(DurationSec)))
  {
    assert ParseIntField(Str(zero), DurationSec, 0) == Ok(0);
    assert ParseIntField(Str(hundred), TargetWatts, 0) == Ok(100);
  }

  /** One cadence bound may be given without the other, and a blank bound counts as none. */
  lemma SingleCadenceBound(index: nat)
    ensures BuildStep(Int(60), Int(100), Null, Int(90), Null, index) == Ok(WorkoutStep(60, 100, None, Some(90), None))
    ensures BuildStep(Int(60), Int(100), Null, Null, Str(" "), index) == Ok(WorkoutStep(60, 100, None, None, None))
  {
    assert Strip(" ") == "" by {
      assert StripLeft(" ") == StripLeft(" "[1..]);
      assert " "[1..] == "";
    }
    assert ParseIntField(Int(60), DurationSec, index) == Ok(60);
    assert ParseIntField(Int(100), TargetWatts, index) == Ok(100);
    assert Label(Null) == None;
    assert CadenceBounds(Int(90), Null, index) == Ok((Some(90), None)) by {
      assert ParseOptionalIntField(Int(90), CadenceMinRpm, index) == Ok(Some(90));
      assert ParseOptionalIntField(Null, CadenceMaxRpm, index) == Ok(None);
    }
    assert CadenceBounds(Null, Str(" "), index) == Ok((None, None)) by {
      assert ParseOptionalIntField(Null, CadenceMinRpm, index) == Ok(None);
      assert ParseOptionalIntField(Str(" "), CadenceMaxRpm, index) == Ok(None);
    }
  }

  /** `_build_plan`: a plan needs at least one step. */
  function BuildPlan(name: string, steps: seq<WorkoutStep>): (r: Result<WorkoutPlan, ParseError>)
    ensures steps == [] <==> r == Err(NoSteps)
    ensures r.Ok? ==> r.value.name == name && r.value.steps == steps
  {
    if steps == [] then Err(NoSteps) else Ok(WorkoutPlan(name, steps))
  }

  /**
   * What `raw.get(key)` gives for the five keys a step reads; a key that is
   * absent reads as `Null`, as does one holding JSON `null`.
   */
  datatype Fields = Fields(durationSec: Value, targetWatts: Value, stepLabel: Value, cadenceMinRpm: Value, cadenceMaxRpm: Value)

  /** An entry of the step list: an object, or anything else. */
  datatype Item = Object(fields: Fields) | NonObject

  /** The step an entry gives, or the error for it. */
  function StepOf(item: Item, index: nat): (r: Result<WorkoutStep, ParseError>)
    ensures r.Ok? ==> ValidStep(r.value)
    ensures r.Err? ==> r.error.StepError? && r.error.step == index + 1
  {
    match item
    case NonObject => Err(StepError(index + 1, NotAnObject))
    case Object(f) => BuildStep(f.durationSec, f.targetWatts, f.stepLabel, f.cadenceMinRpm, f.cadenceMaxRpm, index)
  }

  /** The result for every entry, entry `k` naming step `k + 1`. */
  function StepResults(items: seq<Item>): (rs: seq<Result<WorkoutStep, ParseError>>)
    ensures |rs| == |items|
  {
    seq(|items|, k requires 0 <= k < |items| => StepOf(items[k], k))
  }

  /** The steps of a sequence of results, or its first error. */
  function AllSteps(results: seq<Result<WorkoutStep, ParseError>>): Result<seq<WorkoutStep>, ParseError>
  {
    if results == [] then Ok([])
    else
      var s :- results[0];
      var rest :- AllSteps(results[1..]);
      Ok([s] + rest)
  }

  /** The steps the entries of a step list give, stopping at the first error. */
  function Steps(items: seq<Item>): Result<seq<WorkoutStep>, ParseError> {
    AllSteps(StepResults(items))
  }

  /** `pre` put in front of a successful result; an error is kept. */
  function Prepend(pre: seq<WorkoutStep>, r: Result<seq<WorkoutStep>, ParseError>): Result<seq<WorkoutStep>, ParseError> {
    if r.Ok? then Ok(pre + r.value) else r
  }

  /** All results give their steps exactly when every one succeeds, and then one by one in order. */
  lemma {:induction false} AllStepsOk(results: seq<Result<WorkoutStep, ParseError>>)
    ensures var r := AllSteps(results);
      (r.Ok? <==> forall k :: 0 <= k < |results| ==> results[k].Ok?) &&
      (r.Ok? ==> |r.value| == |results| && forall k :: 0 <= k < |results| ==> results[k] == Ok(r.value[k]))
  {
    if results != [] {
      var tail := results[1..];
      AllStepsOk(tail);
      assert forall k :: 1 <= k < |results| ==> tail[k - 1] == results[k];
      var r := AllSteps(results);
      if r.Ok? {
        var rest := AllSteps(tail);
        assert forall k :: 1 <= k < |results| ==> r.value[k] == rest.value[k - 1];
      } else if results[0].Ok? {
        var k :| 0 <= k < |tail| && !tail[k].Ok?;
        assert !results[k + 1].Ok?;
      }
    }
  }

  /** A failure is the error of the first result that fails. */
  lemma {:induction false} AllStepsFirstError(results: seq<Result<WorkoutStep, ParseError>>)
    requires AllSteps(results).Err?
    ensures exists k :: (0 <= k < |results| && results[k].Err? && results[k].error == AllSteps(results).error &&
      forall j :: 0 <= j < k ==> results[j].Ok?)
  {
    var e := AllSteps(results).error;
    var tail := results[1..];
    if results[0].Ok? {
      AllStepsFirstError(tail);
      var k :| (0 <= k < |tail| && tail[k].Err? && tail[k].error == AllSteps(tail).error &&
        forall j :: 0 <= j < k ==> tail[j].Ok?);
      assert tail[k] == results[k + 1];
      forall j | 0 <= j < k + 1
        ensures results[j].Ok?
      {
        if j > 0 {
          assert tail[j - 1] == results[j];
        }
      }
      assert results[k + 1].error == e;
    } else {
      assert results[0].error == e;
    }
  }

  /** The entries give their steps exactly when each entry does, every step then valid and in entry order. */
  lemma StepsOk(items: seq<Item>)
    ensures var r := Steps(items);
      (r.Ok? <==> forall k :: 0 <= k < |items| ==> StepOf(items[k], k).Ok?) &&
      (r.Ok? ==> |r.value| == |items| && forall k :: 0 <= k < |items| ==> StepOf(items[k], k) == Ok(r.value[k]))
    ensures Steps(items).Ok? ==> forall k :: 0 <= k < |items| ==> ValidStep(Steps(items).value[k])
  {
    var rs := StepResults(items);
    AllStepsOk(rs);
    assert forall k :: 0 <= k < |items| ==> rs[k] == StepOf(items[k], k);
  }

  /** A failure is the error of the first entry that fails, and names that entry's step. */
  lemma StepsFirstError(items: seq<Item>)
    requires Steps(items).Err?
    ensures exists k :: (0 <= k < |items| && StepOf(items[k], k).Err? && StepOf(items[k], k).error == Steps(items).error &&
      forall j :: 0 <= j < k ==> StepOf(items[j], j).Ok?)
    ensures Steps(items).error.StepError? && 1 <= Steps(items).error.step <= |items|
  {
    var rs := StepResults(items);
    AllStepsFirstError(rs);
    var k :| (0 <= k < |rs| && rs[k].Err? && rs[k].error == AllSteps(rs).error &&
      forall j :: 0 <= j < k ==> rs[j].Ok?);
    assert rs[k] == StepOf(items[k], k);
    assert forall j :: 0 <= j < k ==> rs[j] == StepOf(items[j], j);
  }

  /** The loop shared by the JSON and CSV readers: each entry in turn, raising at the first bad one. */
  method CollectSteps(items: seq<Item>) returns (r: Result<seq<WorkoutStep>, ParseError>)
    ensures r == Steps(items)
  {
    ghost var results := StepResults(items);
    var steps: seq<WorkoutStep> := [];
    assert results[0..] == results;
    assert AllSteps(results).Ok? ==> [] + AllSteps(results).value == AllSteps(results).value;
    for i := 0 to |items|
      invariant AllSteps(results) == Prepend(steps, AllSteps(results[i..]))
    {
      ghost var here := results[i..];
      assert here[0] == results[i] && here[1..] == results[i + 1..];
      var s := StepOf(items[i], i);
      assert s == results[i];
      if s.Err? {
        return Err(s.error);
      }
      ghost var rest := AllSteps(results[i + 1..]);
      assert rest.Ok? ==> steps + ([s.value] + rest.value) == (steps + [s.value]) + rest.value;
      steps := steps + [s.value];
    }
    assert results[|items|..] == [];
    assert steps + [] == steps;
    r := Ok(steps);
  }

  /** A JSON document: not decodable, not an object, or an object with its `name` and `steps` entries. */
  datatype JsonDoc =
    | Unparsable
    | NonObjectDoc
    /** `name` absent is None; `steps` is None when absent or not a list. */
    | JsonObject(name: Option<Value>, steps: Option<seq<Item>>)

  /** `name.strip() or stem`. */
  function NameOr(name: string, stem: string): (n: string)
    ensures Strip(name) != "" ==> n == Strip(name)
    ensures Strip(name) == "" ==> n == stem
  {
    var t := Strip(name);
    if t != "" then t else stem
  }

  /** `_load_json`: the document checks in order, then the steps, then the plan. */
  function JsonPlan(stem: string, doc: JsonDoc): Result<WorkoutPlan, ParseError> {
    match doc
    case Unparsable => Err(InvalidJson)
    case NonObjectDoc => Err(DocumentNotObject)
    case JsonObject(name, steps) =>
      var nameObj := if name.Some? then name.value else Str(stem);
      if !nameObj.Str? then Err(NameNotString)
      else if steps.None? then Err(StepsNotArray)
      else
        var ss :- Steps(steps.value);
        BuildPlan(NameOr(nameObj.s, stem), ss)
  }

  method LoadJson(stem: string, doc: JsonDoc) returns (r: Result<WorkoutPlan, ParseError>)
    ensures r == JsonPlan(stem, doc)
  {
    match doc
    case Unparsable => return Err(InvalidJson);
    case NonObjectDoc => return Err(DocumentNotObject);
    case JsonObject(name, steps) =>
      var nameObj := if name.Some? then name.value else Str(stem);
      if !nameObj.Str? {
        return Err(NameNotString);
      }
      if steps.None? {
        return Err(StepsNotArray);
      }
      var collected := CollectSteps(steps.value);
      if collected.Err? {
        return Err(collected.error);
      }
      r := BuildPlan(NameOr(nameObj.s, stem), collected.value);
  }

  /** A CSV file: its header names (empty for an empty file) and its rows as field maps. */
  datatype CsvDoc = CsvDoc(fieldnames: seq<string>, rows: seq<Fields>)

  function CsvItems(rows: seq<Fields>): (items: seq<Item>)
    ensures |items| == |rows| && forall k :: 0 <= k < |rows| ==> items[k] == Object(rows[k])
  {
    seq(|rows|, k requires 0 <= k < |rows| => Object(rows[k]))
  }

  /** `_load_csv`: the two required headers, then the rows, then the plan named after the file. */
  function CsvPlan(stem: string, doc: CsvDoc): Result<WorkoutPlan, ParseError> {
    if !("duration_sec" in doc.fieldnames && "target_watts" in doc.fieldnames) then Err(MissingHeaders)
    else
      var ss :- Steps(CsvItems(doc.rows));
      BuildPlan(stem, ss)
  }

  method LoadCsv(stem: string, doc: CsvDoc) returns (r: Result<WorkoutPlan, ParseError>)
    ensures r == CsvPlan(stem, doc)
  {
    if !("duration_sec" in doc.fieldnames && "target_watts" in doc.fieldnames) {
      return Err(MissingHeaders);
    }
    var collected := CollectSteps(CsvItems(doc.rows));
    if collected.Err? {
      return Err(collected.error);
    }
    r := BuildPlan(stem, collected.value);
  }

  /** The file's text as each of the readers would see it. */
  datatype FileContent = FileContent(json: JsonDoc, csv: CsvDoc)

  /** `load_workout` on a file with that suffix and stem. */
  function Workout(suffix: string, stem: string, content: FileContent): Result<WorkoutPlan, ParseError> {
    var format := Lower(suffix);
    if format == ".json" then JsonPlan(stem, content.json)
    else if format == ".csv" then CsvPlan(stem, content.csv)
    else Err(UnsupportedFormat(suffix))
  }

  method LoadWorkout(suffix: string, stem: string, content: FileContent) returns (r: Result<WorkoutPlan, ParseError>)
    ensures r == Workout(suffix, stem, content)
  {
    var format := Lower(suffix);
    if format == ".json" {
      r := LoadJson(stem, content.json);
    } else if format == ".csv" {
      r := LoadCsv(stem, content.csv);
    } else {
      r := Err(UnsupportedFormat(suffix));
    }
  }

  /**
   * The format is refused exactly when the lower-cased suffix is neither
   * `.json` nor `.csv`; the case of the suffix does not matter.
   */
  lemma FormatDispatch(suffix: string, stem: string, content: FileContent)
    ensures Workout(suffix, stem, content) == Err(UnsupportedFormat(suffix)) <==>
      Lower(suffix) != ".json" && Lower(suffix) != ".csv"
    ensures Workout(".JSON", stem, content) == Workout(".json", stem, content) == JsonPlan(stem, content.json)
    ensures Workout(".Csv", stem, content) == CsvPlan(stem, content.csv)
    ensures Workout(".txt", stem, content) == Err(UnsupportedFormat(".txt"))
  {
    assert Lower(".JSON") == ".json" && Lower(".json") == ".json" && Lower(".Csv") == ".csv";
    assert Lower(".txt") == ".txt";
    if Lower(suffix) == ".json" {
      match JsonPlan(stem, content.json)
      case Ok(_) =>
      case Err(e) => StepsErrorIsNotFormat(stem, content.json);
    } else if Lower(suffix) == ".csv" {
      match CsvPlan(stem, content.csv)
      case Ok(_) =>
      case Err(e) => CsvErrorIsNotFormat(stem, content.csv);
    }
  }

  lemma StepsErrorIsNotFormat(stem: string, doc: JsonDoc)
    ensures JsonPlan(stem, doc).Err? ==> !JsonPlan(stem, doc).error.UnsupportedFormat?
  {
    if doc.JsonObject? && doc.steps.Some? && Steps(doc.steps.value).Err? {
      StepsFirstError(doc.steps.value);
    }
  }

  lemma CsvErrorIsNotFormat(stem: string, doc: CsvDoc)
    ensures CsvPlan(stem, doc).Err? ==> !CsvPlan(stem, doc).error.UnsupportedFormat?
  {
    if Steps(CsvItems(doc.rows)).Err? {
      StepsFirstError(CsvItems(doc.rows));
    }
  }

  /** Whatever the format, an accepted plan has at least one step and every step is valid. */
  lemma AcceptedPlanValid(suffix: string, stem: string, content: FileContent)
    requires Workout(suffix, stem, content).Ok?
    ensures var plan := Workout(suffix, stem, content).value;
      |plan.steps| >= 1 && forall k :: 0 <= k < |plan.steps| ==> ValidStep(plan.steps[k])
  {
    if Lower(suffix) == ".json" {
      StepsOk(content.json.steps.value);
    } else {
      StepsOk(CsvItems(content.csv.rows));
    }
  }

  /**
   * A JSON name defaults to the stem, must be a string, and a blank one after
   * stripping gives the stem.
   */
  lemma JsonNames(stem: string, name: Option<Value>, items: seq<Item>)
    requires Steps(items).Ok? && items != []
    ensures name.None? ==> JsonPlan(stem, JsonObject(name, Some(items))).value.name == NameOr(stem, stem)
    ensures name.Some? && name.value.Str? && Strip(name.value.s) == "" ==>
      JsonPlan(stem, JsonObject(name, Some(items))) == Ok(WorkoutPlan(stem, Steps(items).value))
    ensures name.Some? && name.value.Str? && Strip(name.value.s) != "" ==>
      JsonPlan(stem, JsonObject(name, Some(items))).value.name == Strip(name.value.s)
    ensures name.Some? && !name.value.Str? ==> JsonPlan(stem, JsonObject(name, Some(items))) == Err(NameNotString)
    ensures name.Some? && name.value.Str? ==> JsonPlan(stem, JsonObject(name, None)) == Err(StepsNotArray)
  {
    StepsOk(items);
  }

  /** A CSV file without both required headers is refused whatever its rows; an accepted one is named after the file. */
  lemma CsvHeadersAndName(stem: string, doc: CsvDoc)
    ensures !("duration_sec" in doc.fieldnames && "target_watts" in doc.fieldnames) ==> CsvPlan(stem, doc) == Err(MissingHeaders)
    ensures CsvPlan(stem, doc).Ok? ==> CsvPlan(stem, doc).value.name == stem && |CsvPlan(stem, doc).value.steps| == |doc.rows|
  {
    if CsvPlan(stem, doc).Ok? {
      StepsOk(CsvItems(doc.rows));
    }
  }

  /** The entries of the JSON sample. */
  lemma JsonSampleEntries(push: string)
    requires push != "" && Strip(push) == push
    ensures StepOf(Object(Fields(Int(60), Int(120), Null, Null, Null)), 0) == Ok(WorkoutStep(60, 120, None, None, None))
    ensures StepOf(Object(Fields(Int(30), Int(180), Str(push), Null, Null)), 1) == Ok(WorkoutStep(30, 180, Some(push), None, None))
  {
    BuildStepRoundTrip(WorkoutStep(60, 120, None, None, None), 0);
    BuildStepRoundTrip(WorkoutStep(30, 180, Some(push), None, None), 1);
  }

  /** Two entries that each give their step give both steps in order. */
  lemma TwoSteps(items: seq<Item>, s1: WorkoutStep, s2: WorkoutStep)
    requires |items| == 2 && StepOf(items[0], 0) == Ok(s1) && StepOf(items[1], 1) == Ok(s2)
    ensures Steps(items) == Ok([s1, s2])
  {
    var rs := StepResults(items);
    assert rs == [Ok(s1), Ok(s2)];
    AllStepsTwo(s1, s2);
  }

  lemma AllStepsTwo(s1: WorkoutStep, s2: WorkoutStep)
    ensures AllSteps([Ok(s1), Ok(s2)]) == Ok([s1, s2])
  {
    var rs: seq<Result<WorkoutStep, ParseError>> := [Ok(s1), Ok(s2)];
    var tail := rs[1..];
    assert tail == [Ok(s2)];
    assert tail[1..] == [];
    assert AllSteps(tail) == Ok([s2]) by {
      assert [s2] + [] == [s2];
    }
    assert [s1] + [s2] == [s1, s2];
  }

  /** A JSON object with a string name and a step list whose entries all give steps gives the plan of those steps. */
  lemma JsonPlanOf(stem: string, name: string, items: seq<Item>, steps: seq<WorkoutStep>)
    requires Steps(items) == Ok(steps) && steps != []
    ensures JsonPlan(stem, JsonObject(Some(Str(name)), Some(items))) == Ok(WorkoutPlan(NameOr(name, stem), steps))
  {
  }

  /**
   * The JSON sample: a plan named `name` with two steps lasting 90 s, the second
   * labelled `push`; the sample's "Tempo" and "Push" qualify (`SampleTextsStripped`).
   */
  lemma JsonExample(name: string, push: string)
    requires name != "" && Strip(name) == name && push != "" && Strip(push) == push
    ensures var items := [Object(Fields(Int(60), Int(120), Null, Null, Null)), Object(Fields(Int(30), Int(180), Str(push), Null, Null))];
      var r := JsonPlan("sample", JsonObject(Some(Str(name)), Some(items)));
      r == Ok(WorkoutPlan(name, [WorkoutStep(60, 120, None, None, None), WorkoutStep(30, 180, Some(push), None, None)]))
      && TotalDurationSec(r.value) == 90
  {
    var items := [Object(Fields(Int(60), Int(120), Null, Null, Null)), Object(Fields(Int(30), Int(180), Str(push), Null, Null))];
    var s1 := WorkoutStep(60, 120, None, None, None);
    var s2 := WorkoutStep(30, 180, Some(push), None, None);
    assert Steps(items) == Ok([s1, s2]) by {
      JsonSampleEntries(push);
      TwoSteps(items, s1, s2);
    }
    JsonPlanOf("sample", name, items, [s1, s2]);
    TwoStepTotal(s1, s2);
  }

  /** Two steps last as long as both durations together. */
  lemma TwoStepTotal(s1: WorkoutStep, s2: WorkoutStep)
    ensures TotalDuration([s1, s2]) == s1.durationSec + s2.durationSec
  {
    assert [s1, s2][1..] == [s2];
    assert TotalDuration([s2]) == s2.durationSec by {
      assert [s2][1..] == [];
    }
  }

  /** The names and labels of the samples need no stripping. */
  lemma SampleTextsStripped()
    ensures Strip("Tempo") == "Tempo" && Strip("Push") == "Push"
  {
    StripUnchanged("Tempo");
    StripUnchanged("Push");
  }

  /** The labels of the CSV sample need no stripping. */
  lemma CsvSampleTextsStripped()
    ensures Strip("warmup") == "warmup" && Strip("tempo") == "tempo"
  {
    StripUnchanged("warmup");
    StripUnchanged("tempo");
  }

  /** A CSV row with a duration, a target and a label and no cadence columns gives its step. */
  lemma CsvRowStep(durationText: string, wattsText: string, stepLabel: string, index: nat)
    requires ParseInt(durationText).Some? && ParseInt(durationText).value > 0
    requires ParseInt(wattsText).Some? && ParseInt(wattsText).value > 0
    requires stepLabel != "" && Strip(stepLabel) == stepLabel
    ensures StepOf(Object(Fields(Str(durationText), Str(wattsText), Str(stepLabel), Null, Null)), index) ==
      Ok(WorkoutStep(ParseInt(durationText).value, ParseInt(wattsText).value, Some(stepLabel), None, None))
  {
    assert ParseIntField(Str(durationText), DurationSec, index) == Ok(ParseInt(durationText).value);
    assert ParseIntField(Str(wattsText), TargetWatts, index) == Ok(ParseInt(wattsText).value);
    assert CadenceBounds(Null, Null, index) == Ok((None, None));
    assert Label(Str(stepLabel)) == Some(stepLabel);
  }

  /**
   * The CSV sample `60,100,warmup` / `120,160,tempo`: a plan named after the
   * file, two steps lasting 180 s, the first at 100 W. The cell texts are any
   * that read as those numbers, as "60", "100", "120" and "160" do
   * (`Text.ParseIntExamples`, `Text.ParseIntExamplesMore`, `CsvSampleTextsStripped`).
   */
  lemma CsvExample(d1: string, w1: string, l1: string, d2: string, w2: string, l2: string)
    requires ParseInt(d1) == Some(60) && ParseInt(w1) == Some(100) && ParseInt(d2) == Some(120) && ParseInt(w2) == Some(160)
    requires l1 != "" && Strip(l1) == l1 && l2 != "" && Strip(l2) == l2
    ensures var doc := CsvDoc(["duration_sec", "target_watts", "label"],
        [Fields(Str(d1), Str(w1), Str(l1), Null, Null), Fields(Str(d2), Str(w2), Str(l2), Null, Null)]);
      var r := CsvPlan("sample", doc);
      r == Ok(WorkoutPlan("sample", [WorkoutStep(60, 100, Some(l1), None, None), WorkoutStep(120, 160, Some(l2), None, None)])) &&
      TotalDurationSec(r.value) == 180
  {
    var doc := CsvDoc(["duration_sec", "target_watts", "label"],
        [Fields(Str(d1), Str(w1), Str(l1), Null, Null), Fields(Str(d2), Str(w2), Str(l2), Null, Null)]);
    var items := CsvItems(doc.rows);
    var s1 := WorkoutStep(60, 100, Some(l1), None, None);
    var s2 := WorkoutStep(120, 160, Some(l2), None, None);
    assert Steps(items) == Ok([s1, s2]) by {
      CsvRowStep(d1, w1, l1, 0);
      CsvRowStep(d2, w2, l2, 1);
      TwoSteps(items, s1, s2);
    }
    CsvSampleHeaders();
    CsvPlanOf("sample", doc, [s1, s2]);
    TwoStepTotal(s1, s2);
  }

  /** The header of the CSV sample has both required columns. */
  lemma CsvSampleHeaders()
    ensures var h := ["duration_sec", "target_watts", "label"]; "duration_sec" in h && "target_watts" in h
  {
    var h := ["duration_sec", "target_watts", "label"];
    assert h[0] == "duration_sec" && h[1] == "target_watts";
  }

  /** A CSV file with both required headers whose rows all give steps gives the plan of those steps. */
  lemma CsvPlanOf(stem: string, doc: CsvDoc, steps: seq<WorkoutStep>)
    requires "duration_sec" in doc.fieldnames && "target_watts" in doc.fieldnames
    requires Steps(CsvItems(doc.rows)) == Ok(steps) && steps != []
    ensures CsvPlan(stem, doc) == Ok(WorkoutPlan(stem, steps))
  {
  }
}
