/** The micro-goal data-access hook: the micro-goals of one goal, a loading
    flag, and the create, completion-toggle and delete operations, each
    followed by a re-read of the list when the write succeeds.

    As for goals, the backend's answers are parameters (`user` from
    `auth.getUser()`, a `Query` reply for the select, `writeError` for a
    write) and what is written is returned in `sent`. `refetched` is the
    goal id the re-read filters on, absent when the re-read issues no
    select. */
module UseMicroGoals {
  import opened Common

  /** A row of the `micro_goals` table; the hook keeps rows as they come. */
  datatype MicroGoal = MicroGoal(
    id: string,
    goal_id: string,
    title: string,
    description: Option<string>,
    is_completed: bool,
    completed_at: Option<string>,
    created_at: string,
    updated_at: string)

  /** The intended row invariant: a completion time exactly when completed. */
  predicate Consistent(mg: MicroGoal)
  {
    mg.completed_at.Some? <==> mg.is_completed
  }

  /** What the micro-goal dialog hands to `createMicroGoal`. */
  datatype CreateMicroGoalData = CreateMicroGoalData(title: string, description: Option<string>)

  /** The row `createMicroGoal` inserts. */
  datatype MicroGoalInsert = MicroGoalInsert(goal_id: string, title: string, description: Option<string>)

  /** The insert row: attached to the given goal, with the given title; an
      empty or missing description is stored as `null`. */
  function InsertRow(targetGoalId: string, data: CreateMicroGoalData): (r: MicroGoalInsert)
    ensures r.goal_id == targetGoalId && r.title == data.title
    ensures r.description.Some? <==> Truthy(data.description)
    ensures r.description.Some? ==> r.description == data.description
  {
    MicroGoalInsert(targetGoalId, data.title, OrNull(data.description))
  }

  /** The completion update: `update({is_completed, completed_at}).eq('id', id)`. */
  datatype MicroGoalToggle = MicroGoalToggle(id: string, is_completed: bool, completed_at: Option<string>)

  /** The toggle payload for `mg`, with `now` standing for
      `new Date().toISOString()`: the completion flag is negated, and a
      completion time is sent exactly when the new flag is true. */
  function TogglePayload(mg: MicroGoal, now: string): (u: MicroGoalToggle)
    ensures u.id == mg.id
    ensures u.is_completed == !mg.is_completed
    ensures u.completed_at.Some? <==> u.is_completed
    ensures u.completed_at.Some? ==> u.completed_at.value == now
  {
    var newCompletedState := !mg.is_completed;
    MicroGoalToggle(mg.id, newCompletedState, if newCompletedState then Some(now) else None)
  }

  /** The row once the backend has applied a completion update. */
  function Apply(mg: MicroGoal, u: MicroGoalToggle): MicroGoal
  {
    mg.(is_completed := u.is_completed, completed_at := u.completed_at)
  }

  /** Whatever state a row was in, toggling it leaves it consistent and
      touches nothing but the two completion columns. */
  lemma ToggleMakesConsistent(mg: MicroGoal, now: string)
    ensures Consistent(Apply(mg, TogglePayload(mg, now)))
    ensures Apply(mg, TogglePayload(mg, now)).(is_completed := mg.is_completed, completed_at := mg.completed_at) == mg
  {
  }

  /** Toggling twice restores the completion flag. A row that started
      uncompleted ends with no completion time; one that started completed
      ends with the second toggle's time, not its original one. */
  lemma ToggleTwice(mg: MicroGoal, now1: string, now2: string)
    ensures var once := Apply(mg, TogglePayload(mg, now1));
            var twice := Apply(once, TogglePayload(once, now2));
            && twice.is_completed == mg.is_completed
            && twice.completed_at == (if mg.is_completed then Some(now2) else None)
  {
  }

  /** `microGoals.find(mg => mg.id === id)`: the first micro-goal with that
      id, or nothing when no micro-goal has it. */
  function Find(s: seq<MicroGoal>, id: string): (r: Option<MicroGoal>)
    ensures r.None? <==> forall i :: 0 <= i < |s| ==> s[i].id != id
    ensures r.Some? ==> exists i :: 0 <= i < |s| && s[i] == r.value && s[i].id == id &&
                                    forall j :: 0 <= j < i ==> s[j].id != id
  {
    if s == [] then None
    else if s[0].id == id then Some(s[0])
    else
      var r := Find(s[1..], id);
      FindShift(s, id, r);
      r
  }

  lemma {:induction false} FindShift(s: seq<MicroGoal>, id: string, r: Option<MicroGoal>)
    requires s != [] && s[0].id != id
    requires r.Some? ==> exists i :: 0 <= i < |s[1..]| && s[1..][i] == r.value && s[1..][i].id == id &&
                                     forall j :: 0 <= j < i ==> s[1..][j].id != id
    ensures r.Some? ==> exists i :: 0 <= i < |s| && s[i] == r.value && s[i].id == id &&
                                    forall j :: 0 <= j < i ==> s[j].id != id
  {
    if r.Some? {
      var i :| 0 <= i < |s[1..]| && s[1..][i] == r.value && s[1..][i].id == id &&
               forall j :: 0 <= j < i ==> s[1..][j].id != id;
      assert s[i + 1] == r.value;
      forall j | 0 <= j < i + 1 ensures s[j].id != id {
        if j > 0 { assert s[j] == s[1..][j - 1]; }
      }
    }
  }

  /** `targetGoalId || goalId`. */
  function ChooseGoalId(target: Option<string>, hookGoalId: Option<string>): (r: Option<string>)
    ensures Truthy(target) ==> r == target
    ensures !Truthy(target) ==> r == hookGoalId
  {
    if Truthy(target) then target else hookGoalId
  }

  /** The goal id a fetch for `target` filters on in a hook created for
      `hookGoalId`; absent when both are falsy and the fetch returns early. */
  function QueryFilter(target: Option<string>, hookGoalId: Option<string>): (r: Option<string>)
    ensures r.None? <==> !Truthy(target) && !Truthy(hookGoalId)
    ensures r.Some? ==> r.value != "" && (r == target || r == hookGoalId)
    ensures Truthy(target) ==> r == target
  {
    if !Truthy(target) && !Truthy(hookGoalId) then None
    else ChooseGoalId(target, hookGoalId)
  }

  /** Re-reading with `targetGoalId || goalId`, as toggle and delete do,
      filters on the same goal as fetching for `targetGoalId` would. */
  lemma RefetchSameGoal(target: Option<string>, hookGoalId: Option<string>)
    ensures QueryFilter(ChooseGoalId(target, hookGoalId), hookGoalId) == QueryFilter(target, hookGoalId)
  {
  }

  /** The micro-goal list after a fetch that filtered on `filter` (absent
      when no select was issued) and got `reply`: `data || []` replaces the
      list only on a successful select. */
  function AfterFetch(prev: seq<MicroGoal>, filter: Option<string>, reply: Query<Option<seq<MicroGoal>>>): seq<MicroGoal>
  {
    if filter.Some? && reply.Answer? then
      (if reply.data.Some? then reply.data.value else [])
    else prev
  }

  /** The state of one `useMicroGoals(goalId)` instance. */
  class MicroGoalsHook {
    const goalId: Option<string>
    var microGoals: seq<MicroGoal>
    var loading: bool

    constructor (goalId: Option<string>)
      ensures this.goalId == goalId && microGoals == [] && loading
    {
      this.goalId := goalId;
      microGoals := [];
      loading := true;
    }

    /** `fetchMicroGoals(targetGoalId)`: with neither id, or with no user,
        no select is issued; otherwise the select filters on
        `targetGoalId || goalId`. Loading ends in every case. */
    method FetchMicroGoals(target: Option<string>, user: Option<string>,
                           reply: Query<Option<seq<MicroGoal>>>)
      returns (queried: Option<string>)
      modifies this
      ensures queried == if user.Some? then QueryFilter(target, goalId) else None
      ensures microGoals == AfterFetch(old(microGoals), queried, reply)
      ensures !loading
    {
      if !Truthy(target) && !Truthy(goalId) {
        loading := false;
        return None;
      }
      if user.None? {
        loading := false;
        return None;
      }
      queried := ChooseGoalId(target, goalId);
      if reply.Answer? {
        microGoals := if reply.data.Some? then reply.data.value else [];
      }
      loading := false;
    }

    /** `createMicroGoal`: no user means no insert and `false`; an insert
        error means `false` and no re-read; otherwise the list is re-read
        for `targetGoalId` (not `targetGoalId || goalId`) and the result is
        `true`. */
    method CreateMicroGoal(targetGoalId: string, data: CreateMicroGoalData, user: Option<string>,
                           writeError: bool, refetchUser: Option<string>,
                           refetchReply: Query<Option<seq<MicroGoal>>>)
      returns (ok: bool, sent: Option<MicroGoalInsert>, refetched: Option<string>)
      modifies this
      ensures sent == if user.Some? then Some(InsertRow(targetGoalId, data)) else None
      ensures ok <==> user.Some? && !writeError
      ensures ok ==> refetched == (if refetchUser.Some? then QueryFilter(Some(targetGoalId), goalId) else None)
      ensures ok ==> microGoals == AfterFetch(old(microGoals), refetched, refetchReply) && !loading
      ensures !ok ==> refetched.None? && microGoals == old(microGoals) && loading == old(loading)
    {
      if user.None? {
        return false, None, None;
      }
      sent := Some(InsertRow(targetGoalId, data));
      if writeError {
        return false, sent, None;
      }
      refetched := FetchMicroGoals(Some(targetGoalId), refetchUser, refetchReply);
      ok := true;
    }

    /** `toggleMicroGoal`: an id missing from the current list gives `false`
        and no update; otherwise the toggle payload of the first micro-goal
        with that id is sent (no sign-in check), and a successful update is
        followed by a re-read with `targetGoalId || goalId`. */
    method ToggleMicroGoal(microGoalId: string, target: Option<string>, now: string, writeError: bool,
                           refetchUser: Option<string>, refetchReply: Query<Option<seq<MicroGoal>>>)
      returns (ok: bool, sent: Option<MicroGoalToggle>, refetched: Option<string>)
      modifies this
      ensures var found := Find(old(microGoals), microGoalId);
              sent == if found.Some? then Some(TogglePayload(found.value, now)) else None
      ensures ok <==> sent.Some? && !writeError
      ensures ok ==> refetched == (if refetchUser.Some? then QueryFilter(ChooseGoalId(target, goalId), goalId) else None)
      ensures ok ==> microGoals == AfterFetch(old(microGoals), refetched, refetchReply) && !loading
      ensures !ok ==> refetched.None? && microGoals == old(microGoals) && loading == old(loading)
    {
      var microGoal := Find(microGoals, microGoalId);
      if microGoal.None? {
        return false, None, None;
      }
      sent := Some(TogglePayload(microGoal.value, now));
      if writeError {
        return false, sent, None;
      }
      refetched := FetchMicroGoals(ChooseGoalId(target, goalId), refetchUser, refetchReply);
      ok := true;
    }

    /** `deleteMicroGoal`: the delete is sent with no sign-in check; an error
        gives `false` and leaves the list as it was; success is followed by
        a re-read with `targetGoalId || goalId`. */
    method DeleteMicroGoal(microGoalId: string, target: Option<string>, writeError: bool,
                           refetchUser: Option<string>, refetchReply: Query<Option<seq<MicroGoal>>>)
      returns (ok: bool, sent: Option<string>, refetched: Option<string>)
      modifies this
      ensures sent == Some(microGoalId)
      ensures ok <==> !writeError
      ensures ok ==> refetched == (if refetchUser.Some? then QueryFilter(ChooseGoalId(target, goalId), goalId) else None)
      ensures ok ==> microGoals == AfterFetch(old(microGoals), refetched, refetchReply) && !loading
      ensures !ok ==> refetched.None? && microGoals == old(microGoals) && loading == old(loading)
    {
      sent := Some(microGoalId);
      if writeError {
        return false, sent, None;
      }
      refetched := FetchMicroGoals(ChooseGoalId(target, goalId), refetchUser, refetchReply);
      ok := true;
    }
  }
}
