/** The micro-goal dialog of one goal: its form for a new micro-goal, the
    submit handler that trims the input and calls `createMicroGoal`, the
    submit button's disabled state, and the completion badge. What
    `createMicroGoal` resolves to is a parameter of the submit handler; the
    hook itself is modelled in `UseMicroGoals`. */
module MicroGoalsModal {
  import opened Common
  import opened Text
  import opened UseMicroGoals

  /** The form's two text inputs. */
  datatype FormData = FormData(title: string, description: string)

  const EmptyForm := FormData("", "")

  /** What `handleSubmit` passes to `createMicroGoal`: nothing when the
      title is blank; otherwise the trimmed title and the trimmed
      description, an empty one left out. */
  function SubmitPayload(formData: FormData): (r: Option<CreateMicroGoalData>)
    ensures r.None? <==> IsBlank(formData.title)
    ensures r.Some? ==> r.value.title == Trim(formData.title) && r.value.title != ""
    ensures r.Some? ==> (r.value.description.None? <==> IsBlank(formData.description))
    ensures r.Some? && r.value.description.Some? ==> r.value.description.value == Trim(formData.description)
  {
    if Trim(formData.title) == "" then None
    else Some(CreateMicroGoalData(Trim(formData.title), NonEmpty(Trim(formData.description))))
  }

  /** The submitted micro-goal reaches the database with the typed title
      minus its surrounding white space (so with non-space ends), and with a
      `null` description exactly when the description typed was blank,
      otherwise the typed description minus its surrounding white space. */
  lemma SubmittedRow(goalId: string, formData: FormData)
    requires !IsBlank(formData.title)
    ensures var row := InsertRow(goalId, SubmitPayload(formData).value);
            && row.goal_id == goalId
            && Stripped(row.title)
            && CutFrom(formData.title, row.title)
            && (row.description.None? <==> IsBlank(formData.description))
            && (row.description.Some? ==> CutFrom(formData.description, row.description.value))
  {
    var row := InsertRow(goalId, SubmitPayload(formData).value);
    TrimmedEnds(formData.title, row.title);
    TrimIsCut(formData.title);
    TrimIsCut(formData.description);
    OrNullAfterNonEmpty(Trim(formData.description));
  }

  /** `disabled={isCreating || !formData.title.trim()}`: the button is
      enabled exactly when no creation is running and a submit would call
      `createMicroGoal`. */
  function SubmitDisabled(isCreating: bool, formData: FormData): (r: bool)
    ensures r <==> isCreating || SubmitPayload(formData).None?
  {
    isCreating || Trim(formData.title) == ""
  }

  /** The number of completed micro-goals. */
  function CompletedCount(microGoals: seq<MicroGoal>): (r: nat)
    ensures r <= |microGoals|
  {
    if microGoals == [] then 0
    else (if microGoals[0].is_completed then 1 else 0) + CompletedCount(microGoals[1..])
  }

  /** Completing a micro-goal adds one to the completed count, and
      reopening one takes one away. */
  lemma {:induction false} ToggleShiftsCount(microGoals: seq<MicroGoal>, i: nat, now: string)
    requires i < |microGoals|
    ensures var mg := microGoals[i];
            var after := microGoals[i := Apply(mg, TogglePayload(mg, now))];
            CompletedCount(after) == CompletedCount(microGoals) + (if mg.is_completed then -1 else 1)
  {
    var mg := microGoals[i];
    var after := microGoals[i := Apply(mg, TogglePayload(mg, now))];
    if i > 0 {
      assert after[1..] == microGoals[1..][i - 1 := Apply(mg, TogglePayload(mg, now))];
      ToggleShiftsCount(microGoals[1..], i - 1, now);
    } else {
      assert after[1..] == microGoals[1..];
    }
  }

  /** `progressPercentage`: the completed share rounded to the nearest whole
      percent, 0 with no micro-goals; it lies in 0..100, is 0 when none is
      completed and 100 when all are. */
  function ProgressPercentage(microGoals: seq<MicroGoal>): (r: int)
    ensures 0 <= r <= 100
    ensures |microGoals| == 0 ==> r == 0
    ensures |microGoals| > 0 ==>
              2 * |microGoals| * r - |microGoals| <= 200 * CompletedCount(microGoals) < 2 * |microGoals| * r + |microGoals|
    ensures CompletedCount(microGoals) == 0 ==> r == 0
    ensures |microGoals| > 0 && CompletedCount(microGoals) == |microGoals| ==> r == 100
  {
    var completedCount := CompletedCount(microGoals);
    var totalCount := |microGoals|;
    if totalCount > 0 then Percent(completedCount, totalCount) else 0
  }

  /** The dialog's own state. */
  class MicroGoalsModal {
    const goalId: string
    var formData: FormData
    var isCreating: bool

    constructor (goalId: string)
      ensures this.goalId == goalId && formData == EmptyForm && !isCreating
    {
      this.goalId := goalId;
      formData := EmptyForm;
      isCreating := false;
    }

    /** `handleSubmit`, with `success` standing for what `createMicroGoal`
        resolves to. A blank title changes nothing and calls nothing.
        Otherwise the payload is sent for this dialog's goal, the form is
        cleared only on success (on failure the input stays for another
        try), and `isCreating` is false once the call has returned. */
    method HandleSubmit(success: bool) returns (call: Option<CreateMicroGoalData>)
      modifies this
      ensures call == SubmitPayload(old(formData))
      ensures call.None? ==> formData == old(formData) && isCreating == old(isCreating)
      ensures call.Some? ==> !isCreating
      ensures call.Some? && success ==> formData == EmptyForm
      ensures call.Some? && !success ==> formData == old(formData)
    {
      if Trim(formData.title) == "" {
        return None;
      }
      isCreating := true;
      call := SubmitPayload(formData);
      if success {
        formData := EmptyForm;
      }
      isCreating := false;
    }
  }
}
