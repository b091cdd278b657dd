# Task tracker: the `App` component's task-list logic in Dafny

The application is a browser task tracker whose whole behaviour lives in one React component,
`App` (`src/App.jsx`). This project models that component's state and transitions and the two
views derived from the state, and proves what they promise.

- **State** (`app.dfy`, class `TaskApp.App`): the canonical task list, the task being edited
  (if any), the search term and the priority selector. The handlers `addTask` (create and
  edit branches), `deleteTask`, `updateTask` and the three setters are methods. `addTask`,
  `deleteTask` and `updateTask` replace the list with a new list computed from the old one,
  as `setTasks` does; each setter changes its one field and nothing else.
- **Task records and list operations** (`tasks.dfy`, module `Tasks`): the `Task` datatype,
  `Array.prototype.filter` as `Filter`, the replace-by-id `map` as `ReplaceId`, the
  delete filter as `RemoveId`, and the record a create stores as `Created`. Also the lemmas
  about them: order preservation, multiplicity, idempotence, and unique ids being preserved.
- **Derived views** (`views.dfy`, module `Views`): `applyFilters` (priority first, then the
  search) and the upcoming / overdue / completed buckets computed against today.
- **String operations** (`text.dfy`, module `Text`): `trim` with ECMAScript's exact whitespace
  set, `toLowerCase` on ASCII letters, and `includes` as a left-to-right scan, proved equal
  to "occurs at some position".
- **Behaviour across transitions** (`scenarios.dfy`, module `Scenarios`): what a create, an
  edit, a completion toggle or a delete does to the buckets, plus the search examples.

Modelling choices:
- A due date is a day number (`Option<int>`). `None` stands for a date that is missing or does
  not parse; JavaScript compares such a date as `NaN`, so both `>` and `<` are false.
- Today is a parameter, standing for `new Date()` truncated to midnight.
- The id a create assigns (`Date.now()`) is the parameter `now` of `AddTask`.
- `name`, `title` and `priority` are optional, because a submitted record may lack them.
- A missing `completed` is `false`, which is how `!task.completed` reads `undefined`.

Three behaviours of the code are kept as written:
- The search term is trimmed only to decide whether to search. Matching uses the untrimmed,
  lower-cased term (`Scenarios.SearchTermNotTrimmed`: "milk " does not find "Buy milk").
- The search reads `title`, while a create defaults `name`. A task created without a name
  or title is never found by a non-blank search (`Scenarios.UntitledIsNotSearchable`).
- Submitting an edit stores the submitted record with only the id kept. Neither
  `completed: false` nor the name default is applied again.

## Model

| member | source | states |
|---|---|---|
| `Text.TrimStart` | src/App.jsx:60 | the result is a suffix of the input, every removed character is whitespace, and the result does not start with whitespace |
| `Text.TrimEnd` | src/App.jsx:60 | the result is a prefix of the input, every removed character is whitespace, and the result does not end with whitespace |
| `Text.Trim` | src/App.jsx:60 | `trim()` is the input with a blank prefix and a blank suffix removed; it is empty exactly when every character is whitespace, and otherwise starts and ends with a non-whitespace character |
| `Text.Lower` | src/App.jsx:62 | `toLowerCase()` keeps the length and lower-cases each character in place |
| `Text.LowerIdempotent` | src/App.jsx:62 | lower-casing twice is lower-casing once |
| `Text.LowerKeepsBlank` | src/App.jsx:60-62 | a term is blank after lower-casing exactly when it was blank before |
| `Text.ContainsIffOccurs` | src/App.jsx:62 | `includes` holds exactly when the needle occurs at some position of the haystack |
| `Text.NotContains` | src/App.jsx:62 | a needle whose first character appears at no possible start position is not included |
| `Tasks.Filter` | src/App.jsx:44 | `filter` returns no more tasks than it is given; a task is in the result iff it is in the input and passes the test; every kept task passes |
| `Tasks.FilterIsSubseq` | src/App.jsx:44 | `filter` keeps the relative order of the tasks it keeps |
| `Tasks.FilterCount` | src/App.jsx:44 | every copy of a passing task is kept and no copy of a failing one |
| `Tasks.FilterIdentity` | src/App.jsx:55-57 | filtering leaves the list unchanged iff every task passes the test |
| `Tasks.FilterIdempotent` | src/App.jsx:55-64 | filtering twice with the same test equals filtering once |
| `Tasks.FilterCommute` | src/App.jsx:55-64 | two filters give the same list in either order |
| `Tasks.FilterAppend` | src/App.jsx:30-31 | filtering a concatenation is the concatenation of the filtered parts |
| `Tasks.FilterCongruent` | src/App.jsx:61-62 | two tests that agree on every task give the same filtered list |
| `Tasks.IsSubseqTrans` | src/App.jsx:52-66 | a subsequence of a subsequence is a subsequence, so the two filter stages together preserve order |
| `Tasks.SubseqUniqueIds` | src/App.jsx:44 | a subsequence of a list with unique ids has unique ids |
| `Tasks.Created` | src/App.jsx:32-37 | the created record has the fresh id and `completed = false`; its name is the submitted one, or "Untitled Task" when that is missing or empty, so it is never empty; title, priority and due date are the submitted ones |
| `Tasks.ReplaceId` | src/App.jsx:48 | the `map` keeps the length; each position holds the replacement when the old task there had the id, and the old task otherwise |
| `Tasks.ReplaceIdIdempotent` | src/App.jsx:47-49 | replacing by id twice with the same record equals replacing once |
| `Tasks.FilterSingleton` | src/App.jsx:44 | a one-task list is kept whole when the task passes and emptied when it fails |
| `Tasks.ReplaceIdLeavesOnly` | src/App.jsx:27 | after replacing by id, every task carrying that id is the replacement, and the replacement is present when the id was in use |
| `Tasks.ReplaceIdUniqueIds` | src/App.jsx:27 | a replacement that keeps the id keeps the ids unique and keeps the set of ids |
| `Tasks.RemoveId` | src/App.jsx:44 | deleting by id never grows the list, keeps the other tasks in order, keeps exactly the tasks with another id, and leaves that id unused |
| `Tasks.RemoveIdUniqueIds` | src/App.jsx:43-45 | deleting keeps the ids unique and removes exactly that id from the set of ids |
| `Tasks.AppendUniqueIds` | src/App.jsx:30-38 | appending a task whose id is unused keeps the ids unique and adds that id |
| `Views.ApplyFilters` | src/App.jsx:51-67 | the filtered list is an order-preserving subsequence of the tasks holding exactly those of the selected priority (any when "All") that, when the trimmed term is non-empty, have a non-empty title containing the untrimmed term, compared lower-cased |
| `Views.ApplyFiltersCount` | src/App.jsx:51-67 | each copy of a visible task survives the filter and no copy of an invisible one |
| `Views.ApplyFiltersNeutral` | src/App.jsx:55-60 | with "All" and a blank term the filter returns the list unchanged |
| `Views.ApplyFiltersIdempotent` | src/App.jsx:51-67 | applying the same filter to its own result changes nothing |
| `Views.ApplyFiltersStagesCommute` | src/App.jsx:54-64 | the result does not depend on which stage runs first |
| `Views.ApplyFiltersIgnoresTermCase` | src/App.jsx:60-62 | lower-casing the term beforehand does not change the result |
| `Views.ApplyFiltersAppend` | src/App.jsx:16-19 | after a task is appended, the filtered list is the old filtered list plus that task at the end when it passes both stages |
| `Views.UpcomingTasks` | src/App.jsx:72 | an order-preserving subsequence of the filtered list holding exactly the non-completed tasks due strictly after today |
| `Views.OverdueTasks` | src/App.jsx:73 | an order-preserving subsequence of the filtered list holding exactly the non-completed tasks due strictly before today |
| `Views.CompletedTasks` | src/App.jsx:74 | an order-preserving subsequence of the filtered list holding exactly the completed tasks |
| `Views.BucketPlacement` | src/App.jsx:69-74 | a filtered task is completed iff it is in Completed; a pending one is in Upcoming iff due after today and in Overdue iff due before; it is in no bucket iff it is pending and due today or has no usable date |
| `Views.BucketsDisjoint` | src/App.jsx:72-74 | the three buckets share no task |
| `Views.BucketSizes` | src/App.jsx:72-74 | the three bucket sizes plus the number of pending tasks due today or undated add up to the size of the filtered list |
| `TaskApp.App.FilteredTasks` | src/App.jsx:51-67 | the filtered list of the current state is an order-preserving subsequence of the tasks holding exactly those visible under the current selector and term |
| `TaskApp.App.constructor` | src/App.jsx:7-14 | the initial state is the stored list, no edit target, an empty term and "All" |
| `TaskApp.App.AddTask` | src/App.jsx:25-40 | with an edit target, every task with its id becomes the submitted record carrying that id and the target is cleared; without one, the created record is appended after the unchanged old list, and the filtered list gains it at the end exactly when it is visible; unique ids are preserved when the new id is unused |
| `TaskApp.App.DeleteTask` | src/App.jsx:43-45 | the list becomes the old list without the tasks of that id, so no task of that id is left in the filtered list; unique ids are preserved |
| `TaskApp.App.UpdateTask` | src/App.jsx:47-49 | every task with the record's id becomes the record, in place; unique ids and the set of ids are preserved |
| `TaskApp.App.SetEditingTask` | src/App.jsx:12 | the edit target becomes the given task or none, and nothing else changes |
| `TaskApp.App.SetSearchTerm` | src/App.jsx:13 | the search term becomes the given term, and nothing else changes |
| `TaskApp.App.SetPriorityFilter` | src/App.jsx:14 | the priority selector becomes the given value, and nothing else changes |
| `Scenarios.DeleteHidesEverywhere` | src/App.jsx:43-74 | after a delete, no task with that id is in the filtered list or in any bucket |
| `Scenarios.CreateLandsInBucket` | src/App.jsx:29-73 | a created visible task is appended to the filtered list; it is overdue iff due before today, upcoming iff due after, and never completed |
| `Scenarios.CompletingMovesToCompleted` | src/App.jsx:47-74 | marking a visible task completed through `updateTask` puts it in Completed and removes its id from Upcoming and Overdue |
| `Scenarios.EditReclassifies` | src/App.jsx:26-28 | after an edit, the submitted record is the only task under the target's id, and its own due date and completion decide its bucket |
| `Scenarios.SearchIsCaseInsensitive` | src/App.jsx:60-63 | searching "MILK" among "Buy milk" and "Clean house" yields only "Buy milk" |
| `Scenarios.EmptySearchFindsAll` | src/App.jsx:60 | an empty search term yields both tasks |
| `Scenarios.SearchTermNotTrimmed` | src/App.jsx:60-62 | "milk " trims to "milk" and so turns the search on, but it does not find "Buy milk", because matching uses the untrimmed term |
| `Scenarios.UntitledIsNotSearchable` | src/App.jsx:36 | a task created with an empty name and no title is stored as "Untitled Task" but no non-blank search finds it |

## Left out

- Persistence: reading the list from `localStorage` and `JSON.parse` (src/App.jsx:8-9), and writing it back with `JSON.stringify` (src/App.jsx:17). These are browser I/O and library serialisation. The constructor takes the loaded list as a parameter, and the save/load round trip is not modelled.
- React scheduling: `useState`, `useEffect`, and the moment when the stored `filteredTasks` still lags behind `tasks` until the effect runs (src/App.jsx:11, 16-23). The filtered list and the buckets are pure functions of the current state.
- Rendering: the JSX (src/App.jsx:76-124) and the child components `TaskForm`, `TaskFilter` and `TaskList`. Their source is not part of this model. The form's submitted record is an input to `AddTask`, and a completion toggle is modelled as an `UpdateTask` with the flipped record.
- Id generation: `Date.now()` is the parameter `now`. Ids are proved unique only when `now` is unused.
- Date handling: `new Date(...)` parsing and time zones (src/App.jsx:69-73). A due date is an optional day number. In JavaScript a `null` due date parses as the 1970 epoch and would land in Overdue; the model treats every missing date as unparseable.
- Time zones: `new Date("YYYY-MM-DD")` is midnight UTC while `today` is local midnight (src/App.jsx:69-73). The day-number model compares the two as if they were the same day, so "due today is in no bucket" (`Views.BucketPlacement`) holds only at UTC+0; west of UTC such a task lands in Overdue, east of UTC in Upcoming.
- Text.Lower: lower-cases only ASCII `A`-`Z`, not the full Unicode case mapping of `toLowerCase`.
- Extra fields that a JavaScript object spread would carry along are not represented.
