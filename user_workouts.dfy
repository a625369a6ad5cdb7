/**
 * Workouts the user saves: the file key made from a plan name, the payload
 * written for a plan, and the listing of the saved files. Files and JSON
 * text are abstracted: a saved file is its name and the values it holds, and
 * a listed file is its stem and what decoding it gave.
 */
module UserWorkouts {
  import opened Wrappers
  import opened Text
  import opened WorkoutModel
  import opened Parser
  import opened Slug

  /** The values written for a saved workout; "steps" holds one object per step. */
  datatype Payload = Payload(name: string, category: string, steps: seq<Fields>)

  /** A saved workout: the file name under the workouts directory and the values it holds. */
  datatype SavedWorkout = SavedWorkout(fileName: string, payload: Payload)

  datatype SaveError = EmptySteps

  /** The object written for one step. */
  function StepPayload(s: WorkoutStep): (f: Fields)
    ensures f.durationSec == Int(s.durationSec) && f.targetWatts == Int(s.targetWatts)
    ensures f.stepLabel.Null? <==> s.stepLabel.None?
    ensures f.cadenceMinRpm.Null? <==> s.cadenceMinRpm.None?
    ensures f.cadenceMaxRpm.Null? <==> s.cadenceMaxRpm.None?
  {
    Fields(Int(s.durationSec), Int(s.targetWatts), LabelValue(s.stepLabel), IntValue(s.cadenceMinRpm), IntValue(s.cadenceMaxRpm))
  }

  /** `overwrite_key or _slugify(name)`: an empty or missing key falls back to the slug. */
  function SaveKey(name: string, overwriteKey: Option<string>): (key: string)
    ensures key != ""
    ensures overwriteKey.Some? && overwriteKey.value != "" ==> key == overwriteKey.value
    ensures overwriteKey.None? || overwriteKey.value == "" ==> IsSlug(key)
  {
    if overwriteKey.Some? && overwriteKey.value != "" then overwriteKey.value else Slugify(name)
  }

  /** `save_user_workout`: an empty step list is refused; otherwise `<key>.json` with the payload. */
  function SaveUserWorkout(name: string, category: string, steps: seq<WorkoutStep>, overwriteKey: Option<string>): (r: Result<SavedWorkout, SaveError>)
    ensures r.Err? <==> steps == []
    ensures r.Ok? ==> r.value.fileName == SaveKey(name, overwriteKey) + ".json"
    ensures r.Ok? ==> r.value.payload.name == name && r.value.payload.category == category
    ensures r.Ok? ==> (|r.value.payload.steps| == |steps|
      && forall k :: 0 <= k < |steps| ==> r.value.payload.steps[k] == StepPayload(steps[k]))
  {
    if steps == [] then Err(EmptySteps)
    else
      var key := SaveKey(name, overwriteKey);
      Ok(SavedWorkout(key + ".json", Payload(name, category, seq(|steps|, k requires 0 <= k < |steps| => StepPayload(steps[k])))))
  }

  /** The document the workout loader decodes from a saved payload. */
  function JsonView(p: Payload): JsonDoc
  {
    JsonObject(Some(Str(p.name)), Some(seq(|p.steps|, k requires 0 <= k < |p.steps| => Object(p.steps[k]))))
  }

  /**
   * Loading a saved workout gives back its steps unchanged when each is valid
   * (in particular, a label absent or stripped and non-empty), under the name
   * stripped, or the file stem when that is empty.
   */
  lemma SaveLoadRoundTrip(name: string, category: string, steps: seq<WorkoutStep>, overwriteKey: Option<string>, stem: string)
    requires steps != []
    requires forall k :: 0 <= k < |steps| ==> ValidStep(steps[k])
    ensures SaveUserWorkout(name, category, steps, overwriteKey).Ok?
    ensures JsonPlan(stem, JsonView(SaveUserWorkout(name, category, steps, overwriteKey).value.payload))
         == Ok(WorkoutPlan(NameOr(name, stem), steps))
  {
    var p := SaveUserWorkout(name, category, steps, overwriteKey).value.payload;
    var items := seq(|p.steps|, k requires 0 <= k < |p.steps| => Object(p.steps[k]));
    forall k | 0 <= k < |items|
      ensures StepOf(items[k], k) == Ok(steps[k])
    {
      BuildStepRoundTrip(steps[k], k);
    }
    StepsOk(items);
    assert Steps(items).value == steps;
    JsonPlanOf(stem, name, items, steps);
  }

  /** What decoding a user workout file gave: its "name" and "category" entries, or nothing usable. */
  datatype ListedContent =
    | Unreadable  // not valid JSON, or not an object
    | Decoded(name: Option<Value>, category: Option<Value>)

  /** A `*.json` file of the workouts directory: its stem and its content. */
  datatype UserFile = UserFile(stem: string, content: ListedContent)

  datatype UserWorkout = UserWorkout(key: string, name: string, category: string, fileName: string)

  /** The listing entry for one file: keyed by its stem, named and categorised by its content when readable. */
  function ListedWorkout(f: UserFile): (w: UserWorkout)
    ensures w.key == f.stem && w.fileName == f.stem + ".json"
    ensures f.content.Unreadable? ==> w.name == f.stem && w.category == "Custom"
    ensures f.content.Decoded? && f.content.name.None? ==> w.name == f.stem
    ensures f.content.Decoded? && f.content.name.Some? ==> w.name == Repr(f.content.name.value)
    ensures f.content.Decoded? && f.content.category.None? ==> w.category == "Custom"
    ensures f.content.Decoded? && f.content.category.Some? ==> w.category == Repr(f.content.category.value)
  {
    match f.content
    case Unreadable => UserWorkout(f.stem, f.stem, "Custom", f.stem + ".json")
    case Decoded(name, category) =>
      UserWorkout(f.stem, Repr(name.GetOr(Str(f.stem))), Repr(category.GetOr(Str("Custom"))), f.stem + ".json")
  }

  /**
   * `list_user_workouts`: nothing when the directory is missing, otherwise one
   * entry per file in the order given (the sorted order of the paths).
   */
  method ListUserWorkouts(rootExists: bool, files: seq<UserFile>) returns (out: seq<UserWorkout>)
    ensures !rootExists ==> out == []
    ensures rootExists ==> |out| == |files| && forall k :: 0 <= k < |files| ==> out[k] == ListedWorkout(files[k])
  {
    if !rootExists {
      return [];
    }
    out := [];
    for i := 0 to |files|
      invariant |out| == i
      invariant forall k :: 0 <= k < i ==> out[k] == ListedWorkout(files[k])
    {
      out := out + [ListedWorkout(files[i])];
    }
  }

  /** What the listing decodes from a saved payload. */
  function ListingView(p: Payload): ListedContent
  {
    Decoded(Some(Str(p.name)), Some(Str(p.category)))
  }

  /** A saved workout is listed under its key with the name and category it was saved with. */
  lemma SaveListRoundTrip(name: string, category: string, steps: seq<WorkoutStep>, overwriteKey: Option<string>)
    requires steps != []
    ensures var key := SaveKey(name, overwriteKey);
      ListedWorkout(UserFile(key, ListingView(SaveUserWorkout(name, category, steps, overwriteKey).value.payload)))
      == UserWorkout(key, name, category, SaveUserWorkout(name, category, steps, overwriteKey).value.fileName)
  {
  }

  /**
   * Saving one step of 180 s at 210 W named `name` and loading it back from
   * its file gives a plan named `name` with that step.
   */
  lemma SaveLoadExample(name: string, stepLabel: string, category: string, stem: string)
    requires name != "" && Strip(name) == name
    requires stepLabel != "" && Strip(stepLabel) == stepLabel
    ensures var steps := [WorkoutStep(180, 210, Some(stepLabel), Some(85), Some(95))];
      var saved := SaveUserWorkout(name, category, steps, None);
      saved.Ok? && JsonPlan(stem, JsonView(saved.value.payload)) == Ok(WorkoutPlan(name, steps))
  {
    var steps := [WorkoutStep(180, 210, Some(stepLabel), Some(85), Some(95))];
    assert forall k :: 0 <= k < |steps| ==> ValidStep(steps[k]) by {
      assert ValidStep(steps[0]);
    }
    SaveLoadRoundTrip(name, category, steps, None, stem);
  }

  /** The same workout is listed as one entry named `name`. */
  lemma SaveListExample(name: string, stepLabel: string, category: string)
    ensures var steps := [WorkoutStep(180, 210, Some(stepLabel), Some(85), Some(95))];
      var saved := SaveUserWorkout(name, category, steps, None);
      saved.Ok? && ListedWorkout(UserFile(SaveKey(name, None), ListingView(saved.value.payload))).name == name
  {
  }
}
