/** The goal data-access hook: it keeps the signed-in user's goals and a
    loading flag, maps backend rows to view objects, and writes goals back
    through the hosted backend, re-reading the whole list after every
    successful write.

    The backend is not modelled as a database. Each call receives what the
    backend answers: `user` is what `auth.getUser()` yields (absent when no
    one is signed in), a `Query` is the reply to a `select`, and `writeError`
    says whether an insert, update or delete came back with an error. What a
    method sends to the backend is returned in `sent`, absent when nothing
    is written. */
module UseGoals {
  import opened Common
  import opened GoalModel

  /** A row of the `goals` table, with the backend's column names. */
  datatype GoalRow = GoalRow(
    id: string,
    user_id: string,
    title: string,
    description: Option<string>,
    status: GoalStatus,
    priority: GoalPriority,
    progress: int,
    due_date: string,
    start_date: Option<string>,
    category: Option<string>,
    created_at: string,
    updated_at: string)

  /** The row a view goal was read from, given its owner: the inverse of
      `ToGoal`. */
  function RowOf(g: Goal, userId: string): GoalRow
  {
    GoalRow(g.id, userId, g.title, g.description, g.status, g.priority, g.progress,
            g.dueDate, g.startDate, g.category, g.created_at, g.updated_at)
  }

  /** The view object for one row: `due_date` and `start_date` are renamed,
      the owner is dropped, every other column is copied. Nothing else is
      lost, so the row is recovered from the goal and its owner. */
  function ToGoal(row: GoalRow): (g: Goal)
    ensures g.dueDate == row.due_date && g.startDate == row.start_date
    ensures RowOf(g, row.user_id) == row
  {
    Goal(row.id, row.title, row.description, row.status, row.priority, row.progress,
         row.due_date, row.start_date, row.category, row.created_at, row.updated_at)
  }

  /** `rows.map(...)`: one view goal per row, in the same order. */
  function MapRows(rows: seq<GoalRow>): (gs: seq<Goal>)
    ensures |gs| == |rows|
    ensures forall i :: 0 <= i < |rows| ==> gs[i] == ToGoal(rows[i])
  {
    if rows == [] then [] else [ToGoal(rows[0])] + MapRows(rows[1..])
  }

  /** `data?.map(...) || []`: a `null` result set gives no goals. */
  function FormatGoals(data: Option<seq<GoalRow>>): (gs: seq<Goal>)
    ensures data.None? ==> gs == []
    ensures data.Some? ==> |gs| == |data.value|
    ensures data.Some? ==> forall i :: 0 <= i < |gs| ==> RowOf(gs[i], data.value[i].user_id) == data.value[i]
  {
    match data
    case None => []
    case Some(rows) => MapRows(rows)
  }

  /** The goal list after a fetch that found `user` signed in (or not) and
      got `reply`: only a successful select for a signed-in user replaces
      the list. */
  function AfterFetch(prev: seq<Goal>, user: Option<string>, reply: Query<Option<seq<GoalRow>>>): seq<Goal>
  {
    if user.Some? && reply.Answer? then FormatGoals(reply.data) else prev
  }

  /** What the goal-creation form hands to `createGoal`. `priority` is the
      form's string; nothing checks at run time that it names a priority. */
  datatype CreateGoalData = CreateGoalData(
    title: string,
    description: Option<string>,
    category: Option<string>,
    priority: string,
    startDate: Option<string>,
    dueDate: string)

  /** The row `createGoal` inserts. */
  datatype GoalInsert = GoalInsert(
    user_id: string,
    title: string,
    description: Option<string>,
    category: Option<string>,
    priority: string,
    start_date: Option<string>,
    due_date: string)

  /** The insert row: owned by the current user; an empty or missing
      description, category or start date is stored as `null`; the title,
      priority and due date are passed through. */
  function InsertRow(userId: string, data: CreateGoalData): (r: GoalInsert)
    ensures r.user_id == userId
    ensures r.title == data.title && r.priority == data.priority && r.due_date == data.dueDate
    ensures r.description.Some? <==> Truthy(data.description)
    ensures r.category.Some? <==> Truthy(data.category)
    ensures r.start_date.Some? <==> Truthy(data.startDate)
    ensures r.description.Some? ==> r.description == data.description
    ensures r.category.Some? ==> r.category == data.category
    ensures r.start_date.Some? ==> r.start_date == data.startDate
  {
    GoalInsert(userId, data.title, OrNull(data.description), OrNull(data.category),
               data.priority, OrNull(data.startDate), data.dueDate)
  }

  /** The argument of `updateGoal`: every field may be left undefined. */
  datatype UpdateGoalData = UpdateGoalData(
    title: Option<string>,
    description: Option<string>,
    category: Option<string>,
    priority: Option<string>,
    startDate: Option<string>,
    dueDate: Option<string>,
    status: Option<GoalStatus>,
    progress: Option<int>)

  /** The fields `updateGoal` may write. */
  datatype Column = Title | Description | Category | Priority | StartDate | DueDate | Status | Progress
  {
    /** The backend's name for the column. */
    function Name(): string
    {
      match this
      case Title => "title"
      case Description => "description"
      case Category => "category"
      case Priority => "priority"
      case StartDate => "start_date"
      case DueDate => "due_date"
      case Status => "status"
      case Progress => "progress"
    }
  }

  /** A value in an update object. */
  datatype FieldValue = Str(s: string) | Null | StatusValue(status: GoalStatus) | Number(n: int)

  /** Whether the input defines the field that `c` is written from. */
  predicate IsSet(data: UpdateGoalData, c: Column)
  {
    match c
    case Title => data.title.Some?
    case Description => data.description.Some?
    case Category => data.category.Some?
    case Priority => data.priority.Some?
    case StartDate => data.startDate.Some?
    case DueDate => data.dueDate.Some?
    case Status => data.status.Some?
    case Progress => data.progress.Some?
  }

  /** `s || null` as a column value. */
  function TextOrNull(s: string): (v: FieldValue)
    ensures v == Null <==> s == ""
    ensures v != Null ==> v == Str(s)
  {
    if s == "" then Null else Str(s)
  }

  /** The value written to column `c`: description, category and start date
      go through `|| null`, the others are copied as they are. */
  function ColumnValue(data: UpdateGoalData, c: Column): FieldValue
    requires IsSet(data, c)
  {
    match c
    case Title => Str(data.title.value)
    case Description => TextOrNull(data.description.value)
    case Category => TextOrNull(data.category.value)
    case Priority => Str(data.priority.value)
    case StartDate => TextOrNull(data.startDate.value)
    case DueDate => Str(data.dueDate.value)
    case Status => StatusValue(data.status.value)
    case Progress => Number(data.progress.value)
  }

  /** Different columns have different backend names, so the update object
      never merges two fields. */
  lemma ColumnNamesDistinct(c: Column, d: Column)
    ensures c.Name() == d.Name() ==> c == d
  {
  }

  /** The position of `c` in the sequence of field checks. */
  function Step(c: Column): nat
  {
    match c
    case Title => 0
    case Description => 1
    case Category => 2
    case Priority => 3
    case StartDate => 4
    case DueDate => 5
    case Status => 6
    case Progress => 7
  }

  /** `m` is the update object after the first `k` field checks. */
  ghost predicate BuiltUpTo(data: UpdateGoalData, m: map<Column, FieldValue>, k: nat)
  {
    && (forall c :: c in m <==> Step(c) < k && IsSet(data, c))
    && (forall c :: c in m ==> m[c] == ColumnValue(data, c))
  }

  /** One step of building the update object: `if (goalData.f !== undefined)
      updateData.column = value`. */
  function WithField(data: UpdateGoalData, m: map<Column, FieldValue>, c: Column): map<Column, FieldValue>
  {
    if IsSet(data, c) then m[c := ColumnValue(data, c)] else m
  }

  lemma NextField(data: UpdateGoalData, m: map<Column, FieldValue>, c: Column)
    requires BuiltUpTo(data, m, Step(c))
    ensures BuiltUpTo(data, WithField(data, m, c), Step(c) + 1)
  {
  }

  /** The `updateData` object, built one field at a time: it holds exactly
      the columns whose input field is defined (each sent under its
      backend name `c.Name()`), with the value `ColumnValue` gives. */
  method BuildUpdateData(data: UpdateGoalData) returns (m: map<Column, FieldValue>)
    ensures forall c :: c in m <==> IsSet(data, c)
    ensures forall c :: c in m ==> m[c] == ColumnValue(data, c)
    ensures (forall c :: !IsSet(data, c)) ==> m == map[]
  {
    m := map[];
    NextField(data, m, Title);
    m := WithField(data, m, Title);
    NextField(data, m, Description);
    m := WithField(data, m, Description);
    NextField(data, m, Category);
    m := WithField(data, m, Category);
    NextField(data, m, Priority);
    m := WithField(data, m, Priority);
    NextField(data, m, StartDate);
    m := WithField(data, m, StartDate);
    NextField(data, m, DueDate);
    m := WithField(data, m, DueDate);
    NextField(data, m, Status);
    m := WithField(data, m, Status);
    NextField(data, m, Progress);
    m := WithField(data, m, Progress);
  }

  /** An update sent to the backend: `update(changes).eq('id', id)`. */
  datatype GoalUpdate = GoalUpdate(id: string, changes: map<Column, FieldValue>)

  /** The state of one `useGoals()` instance. */
  class GoalsHook {
    var goals: seq<Goal>
    var loading: bool

    constructor ()
      ensures goals == [] && loading
    {
      goals := [];
      loading := true;
    }

    /** `fetchGoals`: with no user the list is kept; otherwise a successful
        select replaces it and a failed one keeps it. Loading ends in every
        case. */
    method FetchGoals(user: Option<string>, reply: Query<Option<seq<GoalRow>>>)
      modifies this
      ensures goals == AfterFetch(old(goals), user, reply)
      ensures !loading
    {
      if user.None? {
        loading := false;
        return;
      }
      if reply.Answer? {
        goals := FormatGoals(reply.data);
      }
      loading := false;
    }

    /** `createGoal`: no user means no insert and `false`; an insert error
        means `false` and no refetch; a successful insert is followed by a
        refetch (whose own outcome does not matter) and `true`. */
    method CreateGoal(data: CreateGoalData, user: Option<string>, writeError: bool,
                      refetchUser: Option<string>, refetchReply: Query<Option<seq<GoalRow>>>)
      returns (ok: bool, sent: Option<GoalInsert>)
      modifies this
      ensures sent == if user.Some? then Some(InsertRow(user.value, data)) else None
      ensures ok <==> user.Some? && !writeError
      ensures ok ==> goals == AfterFetch(old(goals), refetchUser, refetchReply) && !loading
      ensures !ok ==> goals == old(goals) && loading == old(loading)
    {
      if user.None? {
        return false, None;
      }
      sent := Some(InsertRow(user.value, data));
      if writeError {
        return false, sent;
      }
      FetchGoals(refetchUser, refetchReply);
      ok := true;
    }

    /** `updateGoal`: the same guard and outcome as `CreateGoal`; the update
        carries the columns `BuildUpdateData` selects. */
    method UpdateGoal(goalId: string, data: UpdateGoalData, user: Option<string>, writeError: bool,
                      refetchUser: Option<string>, refetchReply: Query<Option<seq<GoalRow>>>)
      returns (ok: bool, sent: Option<GoalUpdate>)
      modifies this
      ensures user.None? ==> sent.None?
      ensures user.Some? ==> sent.Some? && sent.value.id == goalId
      ensures sent.Some? ==> forall c :: c in sent.value.changes <==> IsSet(data, c)
      ensures sent.Some? ==> forall c :: c in sent.value.changes ==> sent.value.changes[c] == ColumnValue(data, c)
      ensures ok <==> user.Some? && !writeError
      ensures ok ==> goals == AfterFetch(old(goals), refetchUser, refetchReply) && !loading
      ensures !ok ==> goals == old(goals) && loading == old(loading)
    {
      if user.None? {
        return false, None;
      }
      var changes := BuildUpdateData(data);
      sent := Some(GoalUpdate(goalId, changes));
      if writeError {
        return false, sent;
      }
      FetchGoals(refetchUser, refetchReply);
      ok := true;
    }

    /** `deleteGoal`: the same guard and outcome as `CreateGoal`; the delete
        names the goal by id. */
    method DeleteGoal(goalId: string, user: Option<string>, writeError: bool,
                      refetchUser: Option<string>, refetchReply: Query<Option<seq<GoalRow>>>)
      returns (ok: bool, sent: Option<string>)
      modifies this
      ensures sent == if user.Some? then Some(goalId) else None
      ensures ok <==> user.Some? && !writeError
      ensures ok ==> goals == AfterFetch(old(goals), refetchUser, refetchReply) && !loading
      ensures !ok ==> goals == old(goals) && loading == old(loading)
    {
      if user.None? {
        return false, None;
      }
      sent := Some(goalId);
      if writeError {
        return false, sent;
      }
      FetchGoals(refetchUser, refetchReply);
      ok := true;
    }
  }
}
