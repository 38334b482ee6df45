# Task manager: the task-list store, in Dafny

This project models the state logic of a single-page task manager. The logic
lives in one React component and in the record types beside it. The component
holds four pieces of state:

- the ordered list of tasks;
- the filter selection (`all`, `pending` or `completed`);
- the draft of the entry form (title, description, deadline);
- the id of the task being edited, if any.

Its handlers add a task in front of the list, toggle a task's status, delete a
task, copy a task into the draft for editing, merge the draft back into the
task being edited, and compute the filtered view shown on screen.

The model has five modules:

- `Types` (`types.dfy`): the task record, the draft, the status and filter
  selectors, and the string literals the application compares them as.
- `Text` (`text.dfy`): `String.prototype.trim` and the blank-title guard.
- `Seqs` (`seqs.dfy`): `Array.prototype.filter` on sequences, and what a
  subsequence is.
- `TodoList` (`todo_list.dfy`): the `map` and `filter` expressions inside the
  handlers, written as recursive functions over `seq<Todo>`, plus the
  invariant that task ids are unique.
- `App` (`store.dfy`): the component's state as the class `Store`. Its fields
  are `todos`, `filter`, `draft` and `editingId`, and its methods are the
  handlers. Each method's postcondition gives the whole new state in terms of
  the old one. The methods that change the list (`AddTodo`, `ToggleStatus`,
  `DeleteTodo`, `UpdateTodo` and `Submit`) also say when unique ids are
  kept; the others leave the list as it is. `App.Scenario` is a
  client session that the verifier checks from the method contracts alone:
  add "Buy milk", complete it, filter by pending (nothing is shown), delete it.

The id generator (`crypto.randomUUID()`) and the clock (`new
Date().toISOString()`) are parameters of `AddTodo` and `Submit`. `AddTodo`
does not require the id to be fresh. Instead it promises that ids stay unique
when the id is fresh.

Behaviour that the code fixes and that a reader might expect otherwise:

- The guard on the edited id is JavaScript truthiness. An edited id that is
  the empty string counts as "not editing", just like null. The form then
  adds a task instead of updating one (`App.Truthy`, `App.Store.Submit`).
- An update whose edited id names no task leaves the list unchanged.
  This happens when the task was deleted while being edited. The update still
  clears the edited id and resets the draft (`App.Store.UpdateTodo`,
  `TodoList.UpdateAbsent`).
- Toggle, delete and update act on every task with the given id. With unique
  ids that is one task at most (`TodoList.DeleteAt`, `TodoList.UpdateAt`).
- The edit button copies a task into the draft whether or not the task is in
  the list. The handler does not check.

## Model

| member | source | states |
|---|---|---|
| `Types.FilterFor` | src/types.ts:6-10 | each status has a filter value other than `all` whose literal is the status's literal |
| `Types.StatusNames` | src/types.ts:6 | a status is exactly one of `'pending'` and `'completed'`, and the two literals differ |
| `Types.FilterNamesDistinct` | src/types.ts:10 | the filter takes exactly the three literals `'all'`, `'pending'`, `'completed'`, and different values have different literals |
| `Types.Passes` | src/App.tsx:72-73 | the view's string test (`filter === 'all'` or `todo.status === filter`) holds exactly when the filter is `All` or is the filter named like the task's status |
| `Types.ExactlyOneStatusPasses` | src/App.tsx:72-73 | every filter other than `all` lets exactly one of the two statuses through |
| `Types.Flip` | src/App.tsx:40 | the toggled status differs from the old one: `'pending'` becomes `'completed'` and `'completed'` becomes `'pending'` |
| `Types.FlipTwice` | src/App.tsx:40 | toggling a status twice restores it |
| `Types.NewTodo` | src/App.tsx:26-31 | a new task has the given id, status pending, the given creation time, and the draft's three fields |
| `Types.Merge` | src/App.tsx:64 | spreading a draft over a task sets the draft's three fields and cannot change the task's id, status or creation time |
| `Types.MergeOwnDraft` | src/App.tsx:51-55 | merging a task with the draft copied from it gives back the task |
| `Types.MergeTwice` | src/App.tsx:64 | merging two drafts in a row is merging the later one; merging one draft twice is merging it once |
| `Text.IsWhitespace` | src/App.tsx:24 | the characters `trim` removes; within ASCII they are exactly tab, line feed, vertical tab, form feed, carriage return and space, and no letter or digit is among them |
| `Text.TrimStart` | src/App.tsx:24 | the result is a suffix of the input, the part cut off is all white space, and the result does not start with white space |
| `Text.TrimEnd` | src/App.tsx:24 | the result is a prefix of the input, the part cut off is all white space, and the result does not end with white space |
| `Text.Trim` | src/App.tsx:24 | a non-empty trimmed title starts and ends with a character that is not white space |
| `Text.TrimEmptyIffBlank` | src/App.tsx:24 | a title trims to the empty string if and only if every character of it is white space |
| `Text.TitleIsBlank` | src/App.tsx:60 | the guard `!title.trim()` is true exactly for blank titles |
| `Seqs.Keep` | src/App.tsx:46 | `filter` is never longer than its input, and every element it keeps passes the test |
| `Seqs.KeepMembers` | src/App.tsx:71-74 | `filter` keeps an element if and only if it is in the input and passes the test |
| `Seqs.KeepCounts` | src/App.tsx:46 | `filter` keeps each passing element exactly as often as it occurs, and no failing one |
| `Seqs.KeepIsSubsequence` | src/App.tsx:71-74 | what `filter` returns is a subsequence of its input in the original order |
| `Seqs.KeepIdempotent` | src/App.tsx:71-74 | filtering a filtered list again with the same test changes nothing |
| `Seqs.KeepSplits` | src/App.tsx:71-74 | filtering with a test and with its negation accounts for every element exactly once |
| `TodoList.PrependKeepsUnique` | src/App.tsx:33 | putting a task with a fresh id in front of a list with unique ids keeps the ids unique |
| `TodoList.ToggleOne` | src/App.tsx:39-41 | one step of the toggle map keeps the id and every field but the status, and changes the task exactly when its id matches |
| `TodoList.ToggleStatusIn` | src/App.tsx:38-42 | toggle keeps the length and the id at every position, flips the status of exactly the tasks whose id matches, and changes no other field of any task |
| `TodoList.ToggleTwice` | src/App.tsx:38-42 | toggling the same id twice gives back the original list |
| `TodoList.ToggleAbsent` | src/App.tsx:38-42 | toggling an id that no task has leaves the list unchanged |
| `TodoList.ToggleKeepsUnique` | src/App.tsx:38-42 | toggling keeps task ids unique |
| `TodoList.DeleteIn` | src/App.tsx:46 | the list after delete is never longer than before and holds no task with the given id |
| `TodoList.DeleteKeepsOthersInOrder` | src/App.tsx:46 | delete returns a subsequence of the list, in order, that holds every task whose id differs from the given one as often as before, and no task with that id |
| `TodoList.DeleteAbsent` | src/App.tsx:46 | deleting an id that no task has leaves the list unchanged |
| `TodoList.DeleteIdempotent` | src/App.tsx:46 | deleting the same id twice is deleting it once |
| `TodoList.DeleteAt` | src/App.tsx:46 | with unique ids, deleting the id of the task at position k removes exactly that element, so the list is one shorter and the rest keep their order |
| `TodoList.DeleteKeepsUnique` | src/App.tsx:46 | deleting keeps task ids unique |
| `TodoList.DeleteUndoesAdd` | src/App.tsx:33 | deleting a freshly prepended task gives back the list it was added to |
| `TodoList.UpdateOne` | src/App.tsx:63-65 | one step of the update map keeps id, status and creation time; a task with the edited id takes the draft's three fields, any other task is unchanged |
| `TodoList.UpdateIn` | src/App.tsx:62-66 | update keeps the length of the list |
| `TodoList.UpdateInFields` | src/App.tsx:62-66 | at every position update keeps the id, status and creation time; the task with the edited id takes the draft's title, description and deadline; every other task is unchanged |
| `TodoList.UpdateAt` | src/App.tsx:62-66 | with unique ids, updating the task at position k replaces exactly that element by the merge, so its position is kept |
| `TodoList.UpdateWithOwnDraft` | src/App.tsx:49-66 | submitting an edit with the unchanged draft copied by the edit button leaves the list as it was |
| `TodoList.UpdateAbsent` | src/App.tsx:62-66 | updating an id that no task has leaves the list unchanged |
| `TodoList.UpdateIdempotent` | src/App.tsx:62-66 | updating twice with the same draft is updating once |
| `TodoList.UpdateKeepsUnique` | src/App.tsx:62-66 | updating keeps task ids unique |
| `TodoList.Shows` | src/App.tsx:71-74 | the view's test on a task holds exactly when the filter is `All` or is the filter for the task's status |
| `TodoList.View` | src/App.tsx:71-74 | the view is never longer than the list and every task in it passes the filter |
| `TodoList.ViewAll` | src/App.tsx:72 | under filter `all` the view equals the whole list, in order |
| `TodoList.ViewByStatus` | src/App.tsx:71-74 | under a status filter the view is a subsequence of the list in the original order, never longer than it, and holds each task with that status as often as the list does and no other task |
| `TodoList.ViewIdempotent` | src/App.tsx:71-74 | filtering the view again with the same filter gives the same view |
| `TodoList.ViewPartition` | src/App.tsx:71-74 | the pending view and the completed view together are exactly as long as the list |
| `App.Truthy` | src/App.tsx:60 | the JavaScript truthiness of the edited id: false exactly for null and for the empty string |
| `App.Store.constructor` | src/App.tsx:6-16 | the initial state is the saved list, filter `all`, an empty draft and no task being edited |
| `App.Store.FilteredTodos` | src/App.tsx:71-74 | the shown tasks are the whole list under `all`; otherwise they are a subsequence of the list in its order that holds each task passing the filter exactly as often as the list does, and no other task |
| `App.Store.AddTodo` | src/App.tsx:22-35 | a blank title changes nothing; otherwise the new pending task with the given id, creation time and the draft's fields is put at index 0, the old list follows unchanged, and the draft is reset; the filter and the edited id are kept; ids stay unique when the given id is fresh |
| `App.Store.ToggleStatus` | src/App.tsx:37-43 | the list becomes the toggled list and the rest of the state is kept; ids stay unique |
| `App.Store.DeleteTodo` | src/App.tsx:45-47 | the list becomes the list without the given id and the rest of the state is kept; ids stay unique |
| `App.Store.StartEditing` | src/App.tsx:49-56 | the edited id becomes the task's id and the draft becomes the task's three fields; the list and the filter are kept |
| `App.Store.UpdateTodo` | src/App.tsx:58-69 | with no edited id (null or empty) or a blank title nothing changes; otherwise the draft is merged into the task with the edited id, the edited id is cleared and the draft is reset; the filter is kept; ids stay unique |
| `App.Store.Submit` | src/App.tsx:83 | the form's submit updates when the edited id is truthy and adds otherwise, with the outcome of whichever handler runs; ids stay unique when it updates, or when it adds with a fresh id |
| `App.Store.SetFilter` | src/App.tsx:121 | a filter button selects its filter and changes nothing else |
| `App.Store.SetTitle` | src/App.tsx:89 | typing a title replaces only the draft's title |
| `App.Store.SetDescription` | src/App.tsx:95 | typing a description replaces only the draft's description |
| `App.Store.SetDeadline` | src/App.tsx:103 | picking a deadline replaces only the draft's deadline |

## Left out

- Loading the list from and saving it to browser storage, and the JSON encoding (src/App.tsx:6-9, src/App.tsx:18-20), are not modelled. This is browser I/O through a foreign API. The constructor takes the loaded list as a parameter. A stored record whose status is neither `'pending'` nor `'completed'` cannot be represented, and neither can a stored `null`.
- `crypto.randomUUID()` and `new Date().toISOString()` are not modelled. They are a random number generator and the clock, so the id and the creation time are parameters. Whether a generated id is fresh is up to the caller.
- `e.preventDefault()` in the two form handlers is not modelled. It is event plumbing with no effect on the state.
- The JSX rendering is not modelled: markup, styling, icons, button labels, the date formatting of deadlines, and the "No tasks found" message.
- Strings are sequences of Unicode scalar values. JavaScript strings are sequences of UTF-16 code units, so a lone surrogate cannot be represented.
- `Text.IsWhitespace` uses the fixed set of white-space and line-terminator code points of ECMAScript, with the Unicode Zs category as of current Unicode. A JavaScript engine built on another Unicode version may differ.
- The re-render that React performs after each state setter is not modelled. Each method takes effect at once, which matches what the next event handler sees.
