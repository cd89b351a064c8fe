/** The new-goal dialog: six text inputs, the submit handler that checks the
    three required fields and calls `createGoal`, and the input handler.
    What `createGoal` resolves to is a parameter of the submit handler; the
    hook itself is modelled in `UseGoals`. */
module GoalCreationModal {
  import opened Common
  import Text
  import UseGoals

  /** The form's inputs, each a string; `""` is an untouched input. */
  datatype FormData = FormData(
    title: string,
    description: string,
    category: string,
    priority: string,
    startDate: string,
    dueDate: string)

  const EmptyForm := FormData("", "", "", "", "", "")

  /** The inputs by name, the `field` argument of `handleInputChange`. */
  datatype Field = Title | Description | Category | Priority | StartDate | DueDate

  /** `formData[field]`. */
  function Get(formData: FormData, field: Field): string
  {
    match field
    case Title => formData.title
    case Description => formData.description
    case Category => formData.category
    case Priority => formData.priority
    case StartDate => formData.startDate
    case DueDate => formData.dueDate
  }

  /** `{ ...formData, [field]: value }`: the named input holds `value`, every
      other input what it held. */
  function Set(formData: FormData, field: Field, value: string): (r: FormData)
    ensures Get(r, field) == value
    ensures forall other :: other != field ==> Get(r, other) == Get(formData, other)
  {
    match field
    case Title => formData.(title := value)
    case Description => formData.(description := value)
    case Category => formData.(category := value)
    case Priority => formData.(priority := value)
    case StartDate => formData.(startDate := value)
    case DueDate => formData.(dueDate := value)
  }

  /** The inputs `handleSubmit` insists on. */
  predicate IsRequired(field: Field)
  {
    field == Title || field == DueDate || field == Priority
  }

  /** `!formData.title || !formData.dueDate || !formData.priority`: some
      required input is empty. Only emptiness counts; white space does not
      make an input empty. */
  predicate MissingRequired(formData: FormData)
  {
    formData.title == "" || formData.dueDate == "" || formData.priority == ""
  }

  lemma MissingRequiredMeans(formData: FormData)
    ensures MissingRequired(formData) <==> exists field :: IsRequired(field) && Get(formData, field) == ""
  {
    if formData.title == "" {
      assert IsRequired(Title) && Get(formData, Title) == "";
    } else if formData.dueDate == "" {
      assert IsRequired(DueDate) && Get(formData, DueDate) == "";
    } else if formData.priority == "" {
      assert IsRequired(Priority) && Get(formData, Priority) == "";
    }
  }

  /** The argument of `createGoal`: the required inputs as typed, and the
      optional ones left out when empty. */
  function Payload(formData: FormData): (r: UseGoals.CreateGoalData)
    ensures r.title == formData.title && r.dueDate == formData.dueDate && r.priority == formData.priority
    ensures r.description.None? <==> formData.description == ""
    ensures r.category.None? <==> formData.category == ""
    ensures r.startDate.None? <==> formData.startDate == ""
    ensures r.description.Some? ==> r.description.value == formData.description
    ensures r.category.Some? ==> r.category.value == formData.category
    ensures r.startDate.Some? ==> r.startDate.value == formData.startDate
  {
    UseGoals.CreateGoalData(
      formData.title,
      NonEmpty(formData.description),
      NonEmpty(formData.category),
      formData.priority,
      NonEmpty(formData.startDate),
      formData.dueDate)
  }

  /** A title of white space only is accepted and sent untrimmed. */
  lemma BlankTitleAccepted(formData: FormData)
    requires formData.title != "" && Text.IsBlank(formData.title)
    requires formData.dueDate != "" && formData.priority != ""
    ensures !MissingRequired(formData)
    ensures Payload(formData).title == formData.title && Text.IsSpace(Payload(formData).title[0])
  {
  }

  /** Through the dialog and the hook together, an input left empty reaches
      the database as `null` and any other input as typed: the dialog's
      `|| undefined` and the hook's `|| null` agree. */
  lemma StoredRow(userId: string, formData: FormData)
    ensures var row := UseGoals.InsertRow(userId, Payload(formData));
            && row.user_id == userId
            && row.title == formData.title && row.priority == formData.priority
            && row.due_date == formData.dueDate
            && row.description == NonEmpty(formData.description)
            && row.category == NonEmpty(formData.category)
            && row.start_date == NonEmpty(formData.startDate)
  {
    OrNullAfterNonEmpty(formData.description);
    OrNullAfterNonEmpty(formData.category);
    OrNullAfterNonEmpty(formData.startDate);
  }

  /** The dialog's own state. Whether it is open belongs to its parent;
      `handleSubmit` asks the parent to close it. */
  class GoalCreationModal {
    var formData: FormData
    var isSubmitting: bool

    constructor ()
      ensures formData == EmptyForm && !isSubmitting
    {
      formData := EmptyForm;
      isSubmitting := false;
    }

    /** `handleSubmit`, with `success` standing for what `createGoal`
        resolves to. An empty required input raises the "required fields"
        toast and changes nothing. Otherwise the payload is sent; on
        success every input is cleared and the dialog closes, on failure
        the input stays and the dialog stays open; `isSubmitting` is false
        once the call has returned. */
    method HandleSubmit(success: bool) returns (request: Option<UseGoals.CreateGoalData>, requiredFieldsToast: bool, close: bool)
      modifies this
      ensures requiredFieldsToast <==> MissingRequired(old(formData))
      ensures request == if requiredFieldsToast then None else Some(Payload(old(formData)))
      ensures close <==> request.Some? && success
      ensures close ==> formData == EmptyForm
      ensures !close ==> formData == old(formData)
      ensures requiredFieldsToast ==> isSubmitting == old(isSubmitting)
      ensures !requiredFieldsToast ==> !isSubmitting
    {
      if formData.title == "" || formData.dueDate == "" || formData.priority == "" {
        return None, true, false;
      }
      isSubmitting := true;
      request := Some(Payload(formData));
      requiredFieldsToast := false;
      close := false;
      if success {
        formData := EmptyForm;
        close := true;
      }
      isSubmitting := false;
    }

    /** `handleInputChange(field, value)`: only the named input changes. */
    method HandleInputChange(field: Field, value: string)
      modifies this
      ensures Get(formData, field) == value
      ensures forall other :: other != field ==> Get(formData, other) == Get(old(formData), other)
      ensures isSubmitting == old(isSubmitting)
    {
      formData := Set(formData, field, value);
    }
  }
}
