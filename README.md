# Goal dashboard core, modelled in Dafny

The dashboard keeps a user's goals and each goal's micro-goals in a hosted
backend. It shows them through two data-access hooks and a few views. This
project models the parts of the client that compute something:

- **`Reports`** (`src/pages/Reports.tsx`): the reports page's aggregation.
  - the search filter;
  - the status counts and completion rate;
  - per-category totals, completed and in-progress counts, average progress
    and completion rate, in order of first appearance;
  - the priority counts.
- **`CategoriesCard`** (`src/components/ui/categories-card.tsx`): the
  categories card.
  - Goals are counted per category; a missing or empty category goes under
    "Sem categoria".
  - Each category gets one of eight colours by its first-appearance position.
  - The list is sorted by count, largest first, with a stable sort.
- **`UseGoals`** (`src/hooks/use-goals.ts`): the goal hook.
  - a class `GoalsHook` with the `goals` and `loading` state;
  - the backend-row to view-object mapping;
  - the insert row and the field-by-field update object;
  - the sign-in and error guards of create, update and delete.
- **`UseMicroGoals`** (`src/hooks/use-micro-goals.ts`): the micro-goal hook.
  - a class `MicroGoalsHook`;
  - the fetch guards and the `targetGoalId || goalId` choice;
  - the insert row, the completion-toggle payload, and delete.
- **`MicroGoalsModal`** (`src/components/micro-goals-modal.tsx`): the
  micro-goal dialog.
  - the trimmed submit payload, and the form reset on success only;
  - the submit button's disabled state;
  - the completion percentage.
- **`GoalCreationModal`** (`src/components/goal-creation-modal.tsx`): the
  new-goal dialog.
  - the required-field check and the payload;
  - the reset and close on success;
  - `handleInputChange`.

Three shared modules hold what several of these use:

- `Common` holds the option and backend-reply types, JavaScript's `x || null`
  and `x || undefined` on strings, and `Math.round` of a quotient in integer
  form.
- `Text` holds ECMAScript `trim`, `toLowerCase` on ASCII letters, and
  `includes`.
- `GoalModel` holds the goal entity and the grouping of goals by category
  label.

The hosted backend is not modelled as a database. What it answers is a
parameter of each operation:

- `user` is the signed-in user, or none.
- A `Query` reply is an answer or a failure.
- `writeError` says whether an insert, update or delete failed.

What an operation writes is returned in an out-parameter `sent`. It is absent
when no write is issued. The dialogs take what the hook call resolves to
(`success`) as a parameter.

A micro-goal row is meant to have a completion time exactly when it is
completed (`UseMicroGoals.Consistent`). The code never checks this on rows it
reads; only the toggle (`src/hooks/use-micro-goals.ts:106-112`) establishes
it, and `UseMicroGoals.ToggleMakesConsistent` proves that it does.

## Model

| member | source | states |
|---|---|---|
| Common.OrNull | src/hooks/use-goals.ts:95-98 | `x or null` on an optional string: absent exactly when the input is missing or empty, otherwise the input itself; never `Some("")` |
| Common.NonEmpty | src/components/goal-creation-modal.tsx:53-56 | `s or undefined`: absent exactly when `s` is empty, otherwise `s` |
| Common.RoundDiv | src/pages/Reports.tsx:115 | `Math.round(a / b)`: the result `r` satisfies `r - 1/2 <= a/b < r + 1/2`, so it is the nearest integer, with halves rounded up |
| Common.Percent | src/pages/Reports.tsx:76 | the rounded percentage. It is 0 for an empty whole and lies in 0..100 when part <= whole. It is within half a percent of 100·part/whole. It is 0 when part is 0 and 100 when part = whole |
| Text.Trim | src/pages/Reports.tsx:42 | `trim`: no longer than the input, with no white space at either end, and empty exactly when the input is all white space (ECMAScript WhiteSpace and LineTerminator) |
| Text.TrimIsCut | src/pages/Reports.tsx:42 | `trim` returns the input with a blank prefix and a blank suffix cut off: some `a <= b` with `s[..a]` and `s[b..]` all white space and the result equal to `s[a..b]` |
| Text.Lower | src/pages/Reports.tsx:44 | `toLowerCase`: same length, each ASCII capital mapped to its own small letter (code point plus 32), every other character unchanged |
| GoalModel.CategoryLabel | src/pages/Reports.tsx:94 | `goal.category or 'Sem categoria'`: never empty. It is the category when that is present and non-empty, otherwise "Sem categoria" |
| GoalModel.Labels | src/pages/Reports.tsx:91-103 | the key order of the category map: no label twice, and at most one label per goal |
| GoalModel.CountIn | src/components/ui/categories-card.tsx:18-21 | the number of goals under a label is at most the number of goals |
| GoalModel.InLabels | src/pages/Reports.tsx:93-103 | a label is listed exactly when some goal carries it |
| GoalModel.CountPositive | src/components/ui/categories-card.tsx:18-21 | a label is listed exactly when at least one goal is counted under it |
| GoalModel.CountsSumToLength | src/components/ui/categories-card.tsx:18-21 | each goal is counted under exactly one label: the counts over the listed labels add up to the number of goals |
| UseGoals.ToGoal | src/hooks/use-goals.ts:51-62 | a backend row becomes a view goal with `due_date`/`start_date` renamed. Nothing else changes: the row is recovered from the goal and its owner |
| UseGoals.MapRows | src/hooks/use-goals.ts:51-62 | the row mapping keeps length and order: goal i is the mapping of row i |
| UseGoals.FormatGoals | src/hooks/use-goals.ts:51-63 | `data?.map(...) or []`: a null result set gives no goals, otherwise one goal per row, each giving back its row |
| UseGoals.InsertRow | src/hooks/use-goals.ts:92-100 | the insert row. It is owned by the current user. Title, priority and due date pass through. A missing or empty description, category or start date becomes null; any other value is kept |
| UseGoals.TextOrNull | src/hooks/use-goals.ts:137 | `value or null` in the update object: null exactly for the empty string |
| UseGoals.ColumnNamesDistinct | src/hooks/use-goals.ts:135-143 | the eight update fields are written under eight different backend names |
| UseGoals.BuildUpdateData | src/hooks/use-goals.ts:135-143 | the update object holds exactly the fields defined in the input, with description, category and start date through `or null` and the rest copied. An all-undefined input gives an empty object |
| UseGoals.GoalsHook.constructor | src/hooks/use-goals.ts:32-33 | the hook starts with no goals and loading |
| UseGoals.GoalsHook.FetchGoals | src/hooks/use-goals.ts:36-76 | with no user, or a failed select, the goals stay as they were. Otherwise they are replaced by the mapped rows. Loading ends in every case |
| UseGoals.GoalsHook.CreateGoal | src/hooks/use-goals.ts:78-121 | no user: no insert, false. Otherwise the insert row is sent. On error: false, with goals and loading untouched. On success: the list is re-read and the result is true |
| UseGoals.GoalsHook.UpdateGoal | src/hooks/use-goals.ts:123-169 | no user: no update, false. Otherwise the update object is sent for the id. On error: false, with state untouched. On success: the list is re-read and the result is true |
| UseGoals.GoalsHook.DeleteGoal | src/hooks/use-goals.ts:171-207 | no user: no delete, false. Otherwise a delete of the id is sent. On error: false, with state untouched. On success: the list is re-read and the result is true |
| UseMicroGoals.InsertRow | src/hooks/use-micro-goals.ts:74-78 | the insert row carries the given goal id and title. A missing or empty description becomes null; any other value is kept |
| UseMicroGoals.TogglePayload | src/hooks/use-micro-goals.ts:106-112 | the update keeps the id and negates the completion flag. It carries a completion time (the supplied `now`) exactly when the new flag is true |
| UseMicroGoals.ToggleMakesConsistent | src/hooks/use-micro-goals.ts:106-112 | after a toggle the row has a completion time exactly when it is completed, and no other column has changed |
| UseMicroGoals.ToggleTwice | src/hooks/use-micro-goals.ts:106-111 | two toggles restore the flag. A row that started open ends with no completion time; one that started completed ends with the second toggle's time |
| UseMicroGoals.Find | src/hooks/use-micro-goals.ts:103 | `find` by id: absent exactly when no micro-goal has the id, otherwise the first one that has it |
| UseMicroGoals.ChooseGoalId | src/hooks/use-micro-goals.ts:125 | `targetGoalId or goalId`: the target when it is present and non-empty, otherwise the hook's id |
| UseMicroGoals.QueryFilter | src/hooks/use-micro-goals.ts:27-42 | the goal id a fetch filters on. It is absent exactly when both ids are missing or empty, never empty, and the target whenever the target is non-empty |
| UseMicroGoals.RefetchSameGoal | src/hooks/use-micro-goals.ts:125 | re-reading with `targetGoalId or goalId` filters on the same goal as a fetch for `targetGoalId` |
| UseMicroGoals.MicroGoalsHook.constructor | src/hooks/use-micro-goals.ts:21-23 | the hook starts for its goal id with no micro-goals and loading |
| UseMicroGoals.MicroGoalsHook.FetchMicroGoals | src/hooks/use-micro-goals.ts:26-58 | with neither id, or no user, no select is issued. Otherwise the select filters on `targetGoalId or goalId` and a successful one replaces the list (`data or []`). Loading ends in every case |
| UseMicroGoals.MicroGoalsHook.CreateMicroGoal | src/hooks/use-micro-goals.ts:60-99 | no user: no insert, false. Otherwise the insert row is sent. On error: false, no re-read, list untouched. On success: the list is re-read for the target id and the result is true |
| UseMicroGoals.MicroGoalsHook.ToggleMicroGoal | src/hooks/use-micro-goals.ts:101-136 | an id not in the current list: false and no update. Otherwise the first match's toggle is sent, with no sign-in check. On error: false, state untouched. On success: a re-read with `targetGoalId or goalId` and true |
| UseMicroGoals.MicroGoalsHook.DeleteMicroGoal | src/hooks/use-micro-goals.ts:138-164 | the delete is always sent, with no sign-in check. On error: false and the list untouched. On success: a re-read with `targetGoalId or goalId` and true |
| Reports.FilterMatching | src/pages/Reports.tsx:45-49 | the filter result is no longer than its input |
| Reports.FilterKeepsMatches | src/pages/Reports.tsx:45-49 | a goal is kept exactly when it is in the list and its title, description or category contains the term. A missing description or category never matches |
| Reports.FilterAppend | src/pages/Reports.tsx:45-49 | the filter keeps order: filtering a concatenation concatenates the filtered parts |
| Reports.FilteredGoals | src/pages/Reports.tsx:41-50 | a term that is blank after trimming leaves the list as it is. Any other term is lower-cased, not trimmed, and filters |
| Reports.SearchTermNotTrimmed | src/pages/Reports.tsx:44 | because the term is not trimmed, "run " does not find a goal titled "run" |
| Reports.CountStatus | src/pages/Reports.tsx:63-64 | a status count is at most the number of goals |
| Reports.CountPriority | src/pages/Reports.tsx:124-126 | a priority count is at most the number of goals |
| Reports.CompletedAndInProgress | src/pages/Reports.tsx:63-64 | completed and in-progress goals are disjoint: the two counts add up to at most the total |
| Reports.PrioritiesPartition | src/pages/Reports.tsx:123-127 | every goal has exactly one of the three priorities: the three counts add up to the total |
| Reports.ComputeTodayStats | src/pages/Reports.tsx:52-86 | no goals: all zero. Otherwise the total is the filtered length, the completed and in-progress counts add up to at most the total, and the rate is the completed share rounded to the nearest percent, in 0..100 |
| Reports.ComputePriorityStats | src/pages/Reports.tsx:120-128 | no goals: all zero. Otherwise the high, medium and low counts add up to the filtered length |
| Reports.StatusIn | src/pages/Reports.tsx:109-110 | a category's goals of one status number at most the category's goals |
| Reports.StatusesInCategory | src/pages/Reports.tsx:109-110 | in each category, completed plus in progress is at most the total |
| Reports.NoGoalsNoProgress | src/pages/Reports.tsx:96-107 | a category's progress sum starts at 0, so a label carried by no goal has none |
| Reports.Tally | src/pages/Reports.tsx:105-110 | a category's accumulator carries its name and its goal count, and completed plus in progress is at most that count |
| Reports.Finish | src/pages/Reports.tsx:113-117 | a category entry keeps name and counts. The average progress is the progress sum over the total, rounded to nearest. The completion rate is the completed share rounded to the nearest percent, in 0..100 |
| Reports.SumTotalsMatchesCounts | src/pages/Reports.tsx:113-117 | entries whose totals are the label counts have the same sum of totals as the counts |
| Reports.ScanStep | src/pages/Reports.tsx:93-111 | one loop step keeps the scan invariant. A new label is appended with a zero accumulator, and the goal is counted into its category only |
| Reports.ScanCategories | src/pages/Reports.tsx:91-111 | after the `forEach`, the map's keys are the labels in first-appearance order, and each holds its category's count, completed, in-progress and progress sum |
| Reports.CategoryStats | src/pages/Reports.tsx:88-118 | one entry per label in first-appearance order, each the finished tally of its category. Totals are at least 1 and add up to the filtered length. Completed plus in progress is at most the total, and rates are in 0..100 |
| CategoriesCard.Colour | src/components/ui/categories-card.tsx:23-38 | the colour at a position is one of the eight, taken in turn (`index % 8`) |
| CategoriesCard.CountStep | src/components/ui/categories-card.tsx:18-21 | one loop step keeps the counting invariant: a new label is appended, and its count goes up by one |
| CategoriesCard.CountCategories | src/components/ui/categories-card.tsx:16-21 | after the `forEach`, the map's keys are the labels in first-appearance order, each mapped to its goal count, which is at least 1 |
| CategoriesCard.Colored | src/components/ui/categories-card.tsx:34-39 | one entry per key in key order, with the key's count and the colour of its position |
| CategoriesCard.InsertPermutes | src/components/ui/categories-card.tsx:40 | insertion adds exactly the new entry, and its count to the sum |
| CategoriesCard.InsertSorted | src/components/ui/categories-card.tsx:40 | insertion keeps a list non-increasing by count |
| CategoriesCard.InsertDistinct | src/components/ui/categories-card.tsx:40 | inserting an entry with a new name keeps names distinct |
| CategoriesCard.InsertStable | src/components/ui/categories-card.tsx:40 | in a sorted list the new entry lands after every entry of its own count |
| CategoriesCard.SortPermutes | src/components/ui/categories-card.tsx:40 | the sort is a permutation (same length, same multiset) and keeps the sum of counts |
| CategoriesCard.SortSorted | src/components/ui/categories-card.tsx:40 | the sorted list is non-increasing by count |
| CategoriesCard.SortDistinct | src/components/ui/categories-card.tsx:40 | the sort keeps names distinct |
| CategoriesCard.SortStable | src/components/ui/categories-card.tsx:40 | the sort is stable: the entries of each count keep their relative order |
| CategoriesCard.StableSortUnique | src/components/ui/categories-card.tsx:40 | two lists that are sorted, are permutations of each other and order each count alike are equal. So the insertion sort gives what any stable sort by descending count gives |
| CategoriesCard.CardContents | src/components/ui/categories-card.tsx:34-40 | the card holds the unsorted entries rearranged: one per label, each counting at least one goal |
| CategoriesCard.CardSum | src/components/ui/categories-card.tsx:18-40 | the card's counts add up to the number of goals |
| CategoriesCard.CardFacts | src/components/ui/categories-card.tsx:13-41 | the sorted entries meet every property of the card listed for `Categories` |
| CategoriesCard.Categories | src/components/ui/categories-card.tsx:13-41 | while loading or with no goals: no entries. Otherwise exactly one entry per label, with its goal count (at least 1) and its first-appearance colour. Names are distinct and the counts add up to the number of goals. The list is non-increasing by count, and equal counts stay in first-appearance order |
| MicroGoalsModal.SubmitPayload | src/components/micro-goals-modal.tsx:49-55 | a blank title gives no call. Otherwise the title is trimmed and non-empty, and the description is trimmed and left out exactly when blank |
| MicroGoalsModal.SubmittedRow | src/components/micro-goals-modal.tsx:52-55 | through dialog and hook, the stored title is the typed title with its surrounding white space cut off and has no white space at either end; the stored description is null exactly when the typed one is blank, otherwise the typed one with its surrounding white space cut off |
| MicroGoalsModal.SubmitDisabled | src/components/micro-goals-modal.tsx:117 | the button is disabled exactly when a creation is running or a submit would make no call |
| MicroGoalsModal.CompletedCount | src/components/micro-goals-modal.tsx:63-64 | completedCount <= totalCount |
| MicroGoalsModal.ToggleShiftsCount | src/components/micro-goals-modal.tsx:63 | toggling one micro-goal moves the completed count by one, up when it was open and down when it was done |
| MicroGoalsModal.ProgressPercentage | src/components/micro-goals-modal.tsx:63-65 | in 0..100, and 0 with no micro-goals. It is the completed share rounded to the nearest percent: 0 when none is done and 100 when all are |
| MicroGoalsModal.MicroGoalsModal.constructor | src/components/micro-goals-modal.tsx:40-44 | the dialog starts with an empty form and no creation running |
| MicroGoalsModal.MicroGoalsModal.HandleSubmit | src/components/micro-goals-modal.tsx:46-61 | a blank title: no call and nothing changes. Otherwise the trimmed payload is sent and the form is cleared only on success. On failure the input stays. `isCreating` ends false |
| GoalCreationModal.Set | src/components/goal-creation-modal.tsx:77 | `{ ...prev, [field]: value }`: the named input holds the value, the others are unchanged |
| GoalCreationModal.MissingRequiredMeans | src/components/goal-creation-modal.tsx:40 | the check fails exactly when one of title, due date and priority is empty |
| GoalCreationModal.Payload | src/components/goal-creation-modal.tsx:51-58 | title, due date and priority pass through. Description, category and start date are left out exactly when empty, otherwise kept |
| GoalCreationModal.BlankTitleAccepted | src/components/goal-creation-modal.tsx:40 | a title of white space only passes the check and is sent untrimmed |
| GoalCreationModal.StoredRow | src/components/goal-creation-modal.tsx:51-58 | through dialog and hook, an empty input is stored as null and any other input as typed |
| GoalCreationModal.GoalCreationModal.constructor | src/components/goal-creation-modal.tsx:27-35 | the dialog starts with six empty inputs and no submission running |
| GoalCreationModal.GoalCreationModal.HandleSubmit | src/components/goal-creation-modal.tsx:37-74 | an empty required input: the "required fields" toast, no call, nothing changes. Otherwise the payload is sent. On success all inputs are cleared and the dialog closes. On failure the input is kept and the dialog stays open. `isSubmitting` ends false |
| GoalCreationModal.GoalCreationModal.HandleInputChange | src/components/goal-creation-modal.tsx:76-78 | only the named input changes |

## Left out

- The date-based figures `overdue` and `upcomingDeadlines` (`src/pages/Reports.tsx:65-74`) read the wall clock and use a date library, so they are not modelled. The toggle's completion time is a parameter `now`.
- Floating point. `Math.round` of a floating-point quotient is modelled on exact rationals, with halves rounded up. A quotient such as 29/200·100, which floating point computes just below 14.5, can round differently in the source.
- `toLowerCase` is modelled on ASCII letters only. Other characters are left unchanged, whereas JavaScript lower-cases all of Unicode.
- The backend (`auth.getUser`, select, insert, update, delete), which becomes parameters as described above. The order of fetched rows is whatever the backend returns.
- Toasts and `console.error`. The only toast modelled is the goal dialog's "required fields" toast, returned as a flag.
- The `useEffect` fetches on mount, the auth-state subscription of the reports page, overlapping requests (such as a double submit) and React's re-rendering. The model runs one handler at a time to completion.
- The authentication dialog (`src/components/auth-modal.tsx`): a check that email and password are non-empty, then a sign-up or sign-in call to the backend's authentication service. It is outside the modelled core.
- The calendar dialog (`src/components/calendar-integration-modal.tsx`): a check that the email is non-empty, then a simulated connection driven by a two-second timer. It is outside the modelled core, and its timer is I/O.
- The layout and card components other than the categories card, and the index page, which only render.
- The values `formData.title` and friends are typed from the inputs (the `maxLength` limits are browser-side). The goal dialog's `priority` is a string cast to a priority; nothing checks that it names one. So `UseGoals.CreateGoalData.priority` is a string.
- `GoalCreationModal.GoalCreationModal.HandleInputChange`: takes one of the six form fields, not an arbitrary string key. Every call in the source passes one of the six.
- `UseGoals.BuildUpdateData`: the update object is a map from the eight columns to their values, not a JavaScript object keyed by names. `UseGoals.ColumnNamesDistinct` shows that no two columns share a backend name.
