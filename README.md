# TaskFlow task-list controller, modelled in Dafny

TaskFlow is a single-page to-do list written as one React component, `App`.
The component keeps four pieces of state:

- the ordered list of tasks `{id, text, completed}`;
- the draft, which is the text of the input field;
- the edit target, which is the id of the task being edited, or nothing;
- the view filter: All, Completed or Pending.

Its event handlers replace that state. Add/Update submits the draft. Delete
removes a task, Edit loads a task into the draft, and the checkbox toggles
completion. The rows on screen are the list projected through the filter.

The model has three modules:

- `JsText` (`jstext.dfy`) models JavaScript's `String.prototype.trim`. It
  drops the white space and line terminators of ECMAScript (the TrimString
  operation of ECMA-262) from both ends of a string.
- `Tasks` (`tasks.dfy`) holds the task record, the filter, and the pure list
  transformations that the handlers apply. These are the `filter` and `map`
  calls of the component, written as functions on sequences. Their properties
  are proved as lemmas.
- `App` (`app.dfy`) models the component as the class `TaskApp`. Its fields
  are the four pieces of state, and each handler is a method. The `ensures`
  of each method ties the new state to the old state through the functions of
  `Tasks`. Short client methods (`Session…`) replay example sessions against
  those contracts.

Behaviour worth knowing, taken from the code:

- The edit target is tested for JavaScript truthiness (`App.IsTruthy`). A
  target of 0 counts as "no target". The draft is then appended as a new task,
  and the target stays set, because only the edit branch clears it.
- Edit and toggle change every task that carries the id, and delete removes
  every task that carries it. The code does not prevent two tasks from sharing
  an id, since ids are clock readings in milliseconds.
- Submitting an edit whose target was deleted in the meantime changes no task.
  It still clears the draft and the target, so the edited text is lost
  (`Tasks.RetitledAbsent`).

The code does not make ids unique: two adds in the same millisecond share an
id. The model therefore proves only the conditional form, that every
transformation keeps ids distinct as long as each new id is not already in
use (`Tasks.TransformationsKeepIdsUnique`). Edit, toggle and delete act on
every task that carries the id.

## Model

| member | source | states |
|---|---|---|
| JsText.Trim | SKILLLAB/vite-project/src/App.jsx:17 | the trimmed draft is empty exactly when every character of the draft is white space; a non-empty result neither starts nor ends with white space |
| JsText.TrimIsMiddle | SKILLLAB/vite-project/src/App.jsx:17 | the trimmed text is the contiguous piece of the draft after its leading white space, with only white space before and after it |
| Tasks.Where | SKILLLAB/vite-project/src/App.jsx:31 | filtering returns no more elements than it is given, and a value is in the result exactly when it is in the input and passes the test |
| Tasks.WhereCounts | SKILLLAB/vite-project/src/App.jsx:47-48 | filtering keeps every occurrence of a passing value and no occurrence of a failing one |
| Tasks.WhereAppend | SKILLLAB/vite-project/src/App.jsx:31 | filtering keeps relative order: the filter of a concatenation is the concatenation of the filters |
| Tasks.WhereKeepsAll | SKILLLAB/vite-project/src/App.jsx:31 | when every element passes, the filter returns the list unchanged |
| Tasks.WhereSplits | SKILLLAB/vite-project/src/App.jsx:47-48 | two complementary filters split the list: the lengths add up, and the multisets add up to the list's multiset |
| Tasks.WhereKeepsIdsUnique | SKILLLAB/vite-project/src/App.jsx:31 | filtering a list with distinct ids leaves the ids distinct |
| Tasks.RemoveId | SKILLLAB/vite-project/src/App.jsx:31 | after delete, no task carries the id, and the remaining tasks are exactly the tasks that carry another id |
| Tasks.RemoveIdCounts | SKILLLAB/vite-project/src/App.jsx:31 | delete keeps every occurrence of every task with another id, and no occurrence of a task with the deleted id |
| Tasks.RemoveIdAppend | SKILLLAB/vite-project/src/App.jsx:31 | delete keeps the other tasks in their original relative order |
| Tasks.RemoveAbsentId | SKILLLAB/vite-project/src/App.jsx:31 | deleting an id that no task carries leaves the list unchanged |
| Tasks.RemoveIdTwice | SKILLLAB/vite-project/src/App.jsx:31 | deleting the same id twice is the same as deleting it once |
| Tasks.DeleteUndoesAdd | SKILLLAB/vite-project/src/App.jsx:26-31 | deleting a task just appended under an unused id gives back the list as it was before the append |
| Tasks.Retitled | SKILLLAB/vite-project/src/App.jsx:19-23 | edit keeps the length, the order, every id and every completion flag; tasks that carry the target get the draft as text, and every other task is unchanged |
| Tasks.RetitledLastWins | SKILLLAB/vite-project/src/App.jsx:19-23 | editing the same target twice leaves only the second text |
| Tasks.RetitledAbsent | SKILLLAB/vite-project/src/App.jsx:18-24 | submitting an edit whose target no task carries leaves the list unchanged |
| Tasks.Toggled | SKILLLAB/vite-project/src/App.jsx:36-41 | toggle keeps the length, the order, the ids and the texts, and flips the completion flag of exactly the tasks that carry the id |
| Tasks.ToggledTwice | SKILLLAB/vite-project/src/App.jsx:36-41 | toggling the same id twice gives back the original list |
| Tasks.ToggledAbsent | SKILLLAB/vite-project/src/App.jsx:36-41 | toggling an id that no task carries leaves the list unchanged |
| Tasks.TransformationsKeepIdsUnique | SKILLLAB/vite-project/src/App.jsx:16-41 | edit, toggle and delete keep distinct ids distinct, and so does an append whose id is not already in use |
| Tasks.FilteredTasks | SKILLLAB/vite-project/src/App.jsx:43-48 | All shows the list itself; Completed shows exactly the completed tasks, and Pending exactly the incomplete ones |
| Tasks.FilteredSplit | SKILLLAB/vite-project/src/App.jsx:46-48 | the lengths of the Completed and Pending views add up to the list's length, and together the two views hold every task as often as the list does |
| Tasks.FilteredAppend | SKILLLAB/vite-project/src/App.jsx:43-48 | every view keeps list order: the view of a concatenation is the concatenation of the views |
| Tasks.ToggleMovesOneTask | SKILLLAB/vite-project/src/App.jsx:36-48 | toggling a task whose id no other task shares moves exactly one task between the Completed view and the Pending view |
| App.TaskApp.constructor | SKILLLAB/vite-project/src/App.jsx:4-10 | the initial state is the saved list, an empty draft, no edit target and the All filter |
| App.TaskApp.SetNewTask | SKILLLAB/vite-project/src/App.jsx:66 | typing replaces the draft and changes nothing else |
| App.TaskApp.SetFilter | SKILLLAB/vite-project/src/App.jsx:82 | a filter button sets the filter and changes nothing else |
| App.TaskApp.HandleAddTask | SKILLLAB/vite-project/src/App.jsx:16-29 | a blank draft changes nothing. Otherwise, with a truthy target the list becomes the edited list and the target is cleared; without one the list gains exactly one task at the end, with the given id, the draft as text and not completed, and the target is kept. A non-blank draft is always emptied. The filter never changes |
| App.TaskApp.HandleDelete | SKILLLAB/vite-project/src/App.jsx:31 | the list becomes the list without the id; draft, target and filter are unchanged |
| App.TaskApp.HandleEdit | SKILLLAB/vite-project/src/App.jsx:32-35 | the target becomes the id and the draft becomes the text; the list and the filter are unchanged |
| App.TaskApp.HandleToggle | SKILLLAB/vite-project/src/App.jsx:36-41 | the list becomes the toggled list; draft, target and filter are unchanged |
| App.TaskApp.Visible | SKILLLAB/vite-project/src/App.jsx:43-48 | a row is shown exactly when it is a task of the list that the current filter admits |

## Left out

- Persistence is not modelled. The initial read from `localStorage` with
  `JSON.parse` (App.jsx lines 5-6) and the write with `JSON.stringify` after
  every change (line 13) are browser storage and JSON calls. The constructor
  takes the saved list as a parameter instead, and the serialisation round
  trip is not stated.
- The clock is a parameter. `Date.now()` (line 26) becomes the parameter `now`
  of `HandleAddTask`, and nothing is assumed about it. Id uniqueness is proved
  only under the assumption that the new id is unused.
- React's hook scheduling is not modelled: the `useState` initialisers, the
  `useEffect` dependency and the batching of setter calls. Each handler is
  modelled as one atomic state change.
- The JSX rendering (lines 50-164) is not modelled. This covers the
  Add/Update label, the filter buttons' styling, row numbers and striping, CSS
  classes and the empty-table message. Only the two state setters that the
  markup calls are modelled: typing (line 66) and the filter buttons (line 82).
- Ids are unbounded integers, not JavaScript numbers. `===` on ids becomes
  integer equality, and NaN and fractional ids are not considered.
- Task records are assumed to have the schema `{id, text, completed}` with a
  boolean `completed`. Records of another shape, read from storage, are not
  modelled.
- The filter is a string in the source. Only the three buttons set it, so it
  is modelled as a three-valued type. Any other string would act like Pending
  (line 48).
- Tasks.Where: the multiplicities and the relative order of the result are stated in
  separate lemmas (`WhereCounts`, `WhereAppend`), not in the function's own
  contract.
- Strings are sequences of Unicode scalar values, while JavaScript strings
  are sequences of UTF-16 code units, so a lone surrogate cannot be
  represented. This does not change the blank test, because every ECMAScript
  white-space or line-terminator code point lies in the Basic Multilingual
  Plane and is not a surrogate.
