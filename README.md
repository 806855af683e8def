# Task ordering, query and client state of a MERN to-do application

This project models the logic core of a to-do application. On the server,
each user's tasks carry an integer rank `order`. The task controller keeps
those ranks at exactly `0..N-1` across create, delete and drag-and-drop
reorder, and it turns the list request's query string into a store filter
with pagination. On the client there is:

- a task cache whose reducers update the cached list in place;
- the filter record, the filtering predicate and task statistics;
- the filter bar and the drag-end decision of the task list;
- the authentication and theme reducers;
- the three forms' validators;
- small formatting helpers.

The store is a `TaskStore` class holding the tasks as a `seq<Task>`. Its
handlers answer with `Ok`, `NotFound` or `NotAuthorized`. The central
invariant is `Dense(s, u)`: the ranks of `u`'s tasks are in range, pairwise
distinct, and cover `0..N-1`. Create keeps it for every user. Delete keeps
it for every user whose ranks were dense, provided the caller's were. Reorder restores it for the
caller and leaves everyone else's tasks as they were.

The reducers of the two client slices are classes whose methods assign
fields, with `modifies` clauses. Loops in the source are `while` loops with
invariants:

- the `forEach` deletion of control parameters;
- the `forEach` renumbering;
- the `updateMany` shift after a delete;
- the per-task writes of a reorder.

Pure code is functions and lemmas.

Module layout, one per source file, plus shared pieces:

- `Wrappers`: an `Option` type.
- `Seqs`: `splice` and subsequences.
- `Text`: ASCII lower-casing, substring search, decimal digits, `padStart`, split and join.
- `Tasks`: the task record, the update patch, and lookup by identifier.
- `TaskController`, `TaskQuery`: the server.
- `TaskSlice`, `UseTasks`, `FilterBar`, `TaskList`, `AuthSlice`, `ThemeSlice`, `Helpers`, `Signup`, `Profile`, `AddTaskForm`: the client.

The lemma `TaskList.FilteredDropIsLost` records one behaviour of the code.
The task list numbers its draggable items by their position in the
*filtered* list, and the server reads that number as a global rank. A
concrete three-task store shows a drag that the server then ignores. That
store has tasks `a` (completed, rank 0), `b` (rank 1) and `c` (rank 2), with
the "active" filter. Dragging `b` from position 0 to position 1 sends
`newIndex = 1`, which is `b`'s own rank, so nothing is written.
`TaskList.DropIndexIsRankWithoutFilters` shows that the two numberings agree
when no filter is active.

Four behaviours of the code are worth stating plainly:

- A reorder target outside the list is not rejected. It takes `splice`'s
  position rules: a negative target counts from the end, and a target past
  the end appends (`Seqs.SpliceStart`, `Seqs.MoveTarget`).
- A reorder renumbers the caller's whole ranked list (`Reassign`): every
  task gets its position in the moved list as its rank. With dense ranks
  the new order is `Seqs.Move` of the ranked list, whose position map is
  `Seqs.MoveSource` (`TaskController.ReorderKeepsDense`).
- A task of another user answers `NotAuthorized`, the code's 401.
- An update passes the request body to the store unchanged, so it can
  change a task's `user` and `order`. `TaskStore.UpdateTask` therefore
  promises the density of ranks only for updates that set neither.

## Model

| member | source | states |
|---|---|---|
| Seqs.SpliceStart | backend/controllers/taskController.js:249 | the position `splice` uses is within the array, and an in-range start is used as it is |
| Seqs.RemoveAt | backend/controllers/taskController.js:246 | `splice(i, 1)` leaves one element fewer: those before `i` unmoved, those after it one place earlier |
| Seqs.InsertAt | backend/controllers/taskController.js:249 | `splice(p, 0, x)` puts `x` at `p`, keeps the elements before `p`, and moves the rest one place later |
| Seqs.Move | backend/controllers/taskController.js:246-249 | remove-then-insert keeps the length, puts the moved element at the clamped target, and fills every other position from the original through a position map |
| Seqs.MoveBySplices | backend/controllers/taskController.js:246-249 | the two `splice` calls, the second taking its position on the shortened array, are exactly `Move` |
| Seqs.MoveSourceInjective | backend/controllers/taskController.js:246-249 | distinct positions after a move come from distinct positions before it: a move is a bijection |
| Seqs.MovePermutes | backend/controllers/taskController.js:246-249 | a move is a permutation (same multiset) |
| Seqs.MoveKeepsOthers | backend/controllers/taskController.js:246-249 | taking the moved element out again gives the original without it: the other elements keep their relative order |
| Seqs.MoveToSelf | backend/controllers/taskController.js:241-249 | moving an element onto its own position changes nothing |
| Seqs.MoveBack | backend/controllers/taskController.js:246-249 | a move is undone by moving the element back from where it landed |
| Tasks.ApplyPatch | backend/controllers/taskController.js:159-162 | every supplied field (owner, title, description, completion, priority, category, due date, rank) takes the supplied value and every other field keeps the old one; the identifier never changes |
| Tasks.EmptyPatchIsIdentity | backend/controllers/taskController.js:159-162 | an update supplying no field leaves the task unchanged |
| Tasks.ApplyPatchIdempotent | backend/controllers/taskController.js:159-162 | applying the same update twice equals applying it once |
| Tasks.FindIndex | frontend/src/redux/slices/taskSlice.js:118 | `findIndex`: -1 exactly when no task has the identifier, otherwise the first position that has it |
| Tasks.FindLast | backend/controllers/taskController.js:252-256 | the last position holding the identifier (the write that wins), -1 exactly when there is none |
| Tasks.FirstIsLast | backend/controllers/taskController.js:252-256 | with unique identifiers the first and the last match coincide |
| Tasks.IndexOf | frontend/src/redux/slices/taskSlice.js:118 | the linear search returns `FindIndex` |
| Tasks.Renumber | frontend/src/redux/slices/taskSlice.js:135-137 | same length, and each task is the original with only its `order` set to its position |
| Tasks.MoveIds | frontend/src/redux/slices/taskSlice.js:131-132 | moving tasks moves their identifiers the same way, and the multiset of identifiers is kept |
| Tasks.RemoveId | frontend/src/redux/slices/taskSlice.js:124 | `filter(_id !== id)`: a task stays exactly when it was present and has another identifier |
| Tasks.RemoveIdKeepsOrder | frontend/src/redux/slices/taskSlice.js:124 | the filtered list is an order-preserving subsequence |
| Tasks.RemoveAbsentId | frontend/src/redux/slices/taskSlice.js:124 | filtering out an identifier no task has changes nothing |
| TaskController.CountOwned | backend/controllers/taskController.js:123 | `countDocuments({ user })` is at most the store size |
| TaskController.CountTasksOf | backend/controllers/taskController.js:123 | the counting loop returns the number of the user's tasks |
| TaskController.FindRank | backend/controllers/taskController.js:243 | a task of `u` with rank `k` is found exactly when one exists |
| TaskController.DenseRanks | backend/controllers/taskController.js:237-246 | under density the set of `u`'s ranks is exactly `0..N-1` |
| TaskController.RankedList | backend/controllers/taskController.js:243 | `find({ user }).sort('order')` under density: `N` owned tasks of the store, position `k` holding rank `k` |
| TaskController.RankedListHolds | backend/controllers/taskController.js:237-246 | a task's `order` is a valid index into the sorted list, and the task sits there, so `splice(oldIndex, 1)` removes that very task |
| TaskController.Reassign | backend/controllers/taskController.js:252-256 | the per-task rank writes keep every identifier and owner |
| TaskController.CreateKeepsDense | backend/controllers/taskController.js:120-126 | appending a task whose rank is its owner's count keeps every user's ranks dense |
| TaskController.Deleted | backend/controllers/taskController.js:195-201 | remove then shift leaves one task fewer |
| TaskController.DeletedAt | backend/controllers/taskController.js:195-201 | each remaining task is the original one, lowered by one rank exactly when it is the owner's and ranked above the removed task |
| TaskController.DeleteKeepsDense | backend/controllers/taskController.js:195-201 | deleting keeps density for every user with dense ranks: 0..N-1 becomes 0..N-2 for the owner |
| TaskController.PatchKeepsDense | backend/controllers/taskController.js:159-162 | an update setting neither rank nor owner keeps every user's ranks dense |
| TaskController.MovedListFacts | backend/controllers/taskController.js:243-249 | the moved ranked list has `N` tasks, each of the owner and in the store, with distinct identifiers and every owned task listed |
| TaskController.ReassignOthers | backend/controllers/taskController.js:252-256 | tasks of other users are untouched by the rank writes |
| TaskController.ReassignDense | backend/controllers/taskController.js:252-256 | writing each listed task's position as its rank gives the owner exactly 0..N-1 |
| TaskController.ReassignRanked | backend/controllers/taskController.js:252-256 | after the writes, the owner's sorted list is the moved list renumbered |
| TaskController.ReorderKeepsDense | backend/controllers/taskController.js:241-256 | a reorder keeps identifiers unique and the caller's ranks dense, leaves other users' tasks untouched, and makes the caller's sorted list the moved list renumbered |
| TaskController.Authorize | backend/controllers/taskController.js:88-103 | not found exactly when no task has the identifier; not authorized exactly when it exists with another owner; otherwise the caller's task at `FindIndex` |
| TaskController.TaskStore.SetRanks | backend/controllers/taskController.js:252-256 | the loop of `findByIdAndUpdate(t._id, { order: index })` produces `Reassign`, keeping identifiers unique |
| TaskController.TaskStore.GetTask | backend/controllers/taskController.js:86-112 | both failures in order, and on success the stored task of the caller with that identifier |
| TaskController.TaskStore.CreateTask | backend/controllers/taskController.js:117-135 | the new task belongs to the caller, takes the draft's fields and the caller's count as rank, and is appended; density is kept for every user |
| TaskController.TaskStore.UpdateTask | backend/controllers/taskController.js:140-171 | failures leave the store unchanged; success returns the merged task and stores it in place; density is kept when neither rank nor owner is supplied |
| TaskController.TaskStore.DeleteTask | backend/controllers/taskController.js:176-210 | failures leave the store unchanged; success is remove-then-shift; density is kept |
| TaskController.TaskStore.ShiftRanksDown | backend/controllers/taskController.js:198-201 | every task of the user ranked above `rank` drops one rank, nothing else changes |
| TaskController.TaskStore.ReorderTasks | backend/controllers/taskController.js:215-266 | failures leave the store unchanged; naming the current rank writes nothing; otherwise the store is the caller's moved list renumbered; the caller's ranks stay dense and other users' tasks are untouched |
| TaskQuery.Lookup | backend/controllers/taskController.js:30-36 | property access finds a value exactly when some entry has the key |
| TaskQuery.DeleteKey | backend/controllers/taskController.js:15 | `delete q[key]`: the key is gone, every other key keeps its value, and the result is a subsequence |
| TaskQuery.SetKey | backend/controllers/taskController.js:18 | `q.user = …`: the key has the new value, every other key keeps its own |
| TaskQuery.SetKeyKeys | backend/controllers/taskController.js:18 | setting a key adds no key besides it |
| TaskQuery.StripControlFields | backend/controllers/taskController.js:12-15 | `select`, `sort`, `page` and `limit` are gone, every other key keeps its value, and the result is a subsequence of the query |
| TaskQuery.WordLength | backend/controllers/taskController.js:24 | the run of word characters at the front is within the string, and is non-empty when the string starts with one |
| TaskQuery.RewriteNoBareWord | backend/controllers/taskController.js:24 | rewritten text never starts with a bare operator word |
| TaskQuery.RestoreRewrite | backend/controllers/taskController.js:24 | dropping the `$` before every operator word undoes the rewrite, whatever the word set |
| TaskQuery.RewriteInjective | backend/controllers/taskController.js:24 | the rewrite of `gt`, `gte`, `lt`, `lte` and `in` never merges two different strings |
| TaskQuery.RewriteWholeWord | backend/controllers/taskController.js:24 | a whole word is prefixed with `$` exactly when it is one of the words (the `\b…\b` boundaries) |
| TaskQuery.PlainWord | backend/controllers/taskController.js:24 | a lower-case word that is not an operator is left as it is |
| TaskQuery.LookupRewritten | backend/controllers/taskController.js:21-27 | after the rewrite, the rewritten key finds the rewritten value of the original key |
| TaskQuery.ReadFieldList | backend/controllers/taskController.js:30-38 | a missing or empty parameter is absent; a string becomes its comma-to-space replacement; an array or object fails |
| TaskQuery.NumberOr | backend/controllers/taskController.js:44-45 | `parseInt(p) \|\| d`: the parsed number unless it is missing (NaN) or zero |
| TaskQuery.Paginate | backend/controllers/taskController.js:56-70 | `next` is `{page + 1, limit}` exactly when `page * limit < total`; `prev` is `{page - 1, limit}` exactly when `(page - 1) * limit > 0` |
| TaskQuery.PaginateMeaning | backend/controllers/taskController.js:56-70 | for positive page and limit: a previous page exactly past the first page, a next page exactly when the following window holds a match |
| TaskQuery.NothingElse | backend/controllers/taskController.js:9-27 | every key of the rewritten query is `user` or the rewritten name of a non-control key the request carried |
| TaskQuery.RewrittenIsNoOperator | backend/controllers/taskController.js:24 | no rewritten string is a bare operator word |
| TaskQuery.FilterHasNoOperatorKey | backend/controllers/taskController.js:9-27 | no key of the filter is a bare operator word such as `gt` |
| TaskQuery.BuildFilter | backend/controllers/taskController.js:9-27 | the store filter has no control parameter, its `user` is the rewritten caller whatever the query said, every other key appears under its rewritten name with its value rewritten, and the filter has no key besides the owner and those |
| TaskQuery.GetTasks | backend/controllers/taskController.js:6-50 | fails exactly when `select` or `sort` cannot be split; otherwise carries the filter built from the query and nothing else (`IsFilterFor`), the space-separated selection, the sort (default `order`), the window `skip = (page - 1) * limit` with defaults 1 and 20, and the pagination |
| TaskQuery.DefaultWindow | backend/controllers/taskController.js:44-70 | with nothing given: page 1 of 20, no previous page, a next page exactly when there are more than 20 matches |
| TaskQuery.LastPage | backend/controllers/taskController.js:44-70 | on the page whose window reaches the last match there is no next page, a previous page exactly past the first, and the window holds the matches left after the earlier pages |
| TaskSlice.TaskCache.constructor | frontend/src/redux/slices/taskSlice.js:99-103 | no tasks, not loading, no error |
| TaskSlice.TaskCache.ClearTaskError | frontend/src/redux/slices/taskSlice.js:109-111 | only the error is cleared |
| TaskSlice.TaskCache.AddTaskOffline | frontend/src/redux/slices/taskSlice.js:113-115 | the task is appended, the others are unchanged |
| TaskSlice.TaskCache.UpdateTaskOffline | frontend/src/redux/slices/taskSlice.js:116-122 | the first task with the identifier gets the fields merged in; with no such task nothing changes |
| TaskSlice.TaskCache.DeleteTaskOffline | frontend/src/redux/slices/taskSlice.js:123-125 | every task with the identifier is dropped |
| TaskSlice.TaskCache.RenumberInPlace | frontend/src/redux/slices/taskSlice.js:135-137 | the `forEach` loop leaves `Renumber` of the list |
| TaskSlice.TaskCache.ReorderTasksOffline | frontend/src/redux/slices/taskSlice.js:126-139 | an unknown identifier changes nothing; otherwise the list is moved (with `splice`'s rules) and renumbered |
| TaskSlice.TaskCache.Pending | frontend/src/redux/slices/taskSlice.js:144-200 | every pending case sets `loading`; only the listing also clears the error |
| TaskSlice.TaskCache.Rejected | frontend/src/redux/slices/taskSlice.js:152-209 | every rejected case stops loading and records the message, keeping the tasks |
| TaskSlice.TaskCache.GetTasksFulfilled | frontend/src/redux/slices/taskSlice.js:148-151 | the fetched list replaces the cache |
| TaskSlice.TaskCache.CreateTaskFulfilled | frontend/src/redux/slices/taskSlice.js:160-163 | the created task is appended |
| TaskSlice.TaskCache.UpdateTaskFulfilled | frontend/src/redux/slices/taskSlice.js:172-180 | the first task with the payload's identifier is replaced as a whole; with no such task nothing changes |
| TaskSlice.TaskCache.DeleteTaskFulfilled | frontend/src/redux/slices/taskSlice.js:189-192 | every task with the identifier is dropped |
| TaskSlice.TaskCache.ReorderTasksFulfilled | frontend/src/redux/slices/taskSlice.js:201-205 | only loading stops; the list is untouched |
| TaskSlice.ReorderOfflineShape | frontend/src/redux/slices/taskSlice.js:126-139 | same length, each `order` equal to its position, the moved task at the clamped target, same identifiers, the others in their old relative order |
| TaskSlice.UpdateTouchesOne | frontend/src/redux/slices/taskSlice.js:172-180 | replacing by identifier keeps the length and every other position |
| TaskSlice.DeleteShape | frontend/src/redux/slices/taskSlice.js:189-192 | no task with the identifier remains, the rest keep their order, and an unknown identifier changes nothing |
| UseTasks.UpdateFilters | frontend/src/hooks/useTasks.js:83-85 | `{ ...filters, ...newFilters }`: each supplied field is overwritten, the others kept |
| UseTasks.ResetFilters | frontend/src/hooks/useTasks.js:88-95 | the initial filters |
| UseTasks.UpdateFiltersLaws | frontend/src/hooks/useTasks.js:83-85 | an empty update changes nothing and repeating an update changes nothing more |
| UseTasks.Keep | frontend/src/hooks/useTasks.js:37 | `filter`: a task is kept exactly when it is in the list and satisfies the predicate |
| UseTasks.KeepIsSubsequence | frontend/src/hooks/useTasks.js:37 | the kept tasks are an order-preserving subsequence |
| UseTasks.KeepAll | frontend/src/hooks/useTasks.js:37 | when every task satisfies the predicate, everything is kept |
| UseTasks.KeepAppend | frontend/src/hooks/useTasks.js:37 | filtering distributes over concatenation |
| UseTasks.FilteredTasksMeaning | frontend/src/hooks/useTasks.js:37-55 | a task is shown exactly when status, category, priority and search all match, and the shown list is a subsequence |
| UseTasks.StatusMeaning | frontend/src/hooks/useTasks.js:38-41 | `all` keeps every task, `completed` the completed ones, `active` the others, any other value none |
| UseTasks.EmptySearchMatches | frontend/src/hooks/useTasks.js:49-52 | the empty search matches every task |
| UseTasks.InitialFiltersKeepAll | frontend/src/hooks/useTasks.js:16-21 | the initial filters show the whole list |
| UseTasks.CountSplit | frontend/src/hooks/useTasks.js:99-101 | completed and not completed together make up the list |
| UseTasks.TaskStats | frontend/src/hooks/useTasks.js:98-125 | `total` is the length, `active = total - completed` is the count of incomplete tasks, the rate is 0 for an empty list and the rounded percentage otherwise, and an empty list has every priority and category count 0 |
| UseTasks.CountsByValue | frontend/src/hooks/useTasks.js:103-115 | adding a task raises each of the three priority counts, the five category counts and the completed count by one exactly when the task has that value, and leaves it otherwise |
| UseTasks.CountsPartition | frontend/src/hooks/useTasks.js:103-115 | when every priority and category is one of the listed ones, their counts add up to the total |
| FilterBar.InactiveIsInitial | frontend/src/components/tasks/FilterBar.js:11 | no filter is active exactly when the filters are the initial ones |
| FilterBar.InactiveShowsAll | frontend/src/components/tasks/FilterBar.js:11 | with no active filter every task is shown |
| FilterBar.ShowsActiveControls | frontend/src/components/tasks/FilterBar.js:47-69 | the "Active" badge and the Clear button show exactly when the filters differ from the initial ones |
| FilterBar.ClearDeactivates | frontend/src/components/tasks/FilterBar.js:63 | after Clear no filter is active |
| FilterBar.CountNoun | frontend/src/components/tasks/FilterBar.js:56 | `task` exactly for a count of one, `tasks` otherwise |
| FilterBar.ControlUpdate | frontend/src/components/tasks/FilterBar.js:80-103 | each control's update supplies its own field and no other |
| FilterBar.ControlChangesOwnField | frontend/src/components/tasks/FilterBar.js:80-103 | applying a control's update changes only that field, to the entered value |
| TaskList.HandleDragEnd | frontend/src/components/tasks/TaskList.js:21-32 | no reorder without a destination or at the same index; otherwise one request with the dragged id and destination index |
| TaskList.DragEndSendsIffMoved | frontend/src/components/tasks/TaskList.js:25-31 | a request is sent exactly when there is a destination different from the source |
| TaskList.IsDragDisabled | frontend/src/components/tasks/TaskList.js:86 | a task cannot be dragged exactly when it is completed |
| TaskList.DropIndexIsRankWithoutFilters | frontend/src/components/tasks/TaskList.js:81-86 | with no active filter, a task's position in the shown list is its rank |
| TaskList.FilteredDropIsLost | frontend/src/components/tasks/TaskList.js:81-86 | with a status filter, a real drag sends an index equal to the task's own rank (the server then writes nothing, by the `from == newIndex` case of `TaskController.TaskStore.ReorderTasks`) |
| AuthSlice.AuthState.constructor | frontend/src/redux/slices/authSlice.js:11-17 | the stored user and token, not authenticated, loading, no error |
| AuthSlice.AuthState.ClearError | frontend/src/redux/slices/authSlice.js:162-164 | only the error is cleared |
| AuthSlice.AuthState.Pending | frontend/src/redux/slices/authSlice.js:169-236 | every pending case sets `loading`; register and login also clear the error |
| AuthSlice.AuthState.SignInFulfilled | frontend/src/redux/slices/authSlice.js:173-194 | register or login success: authenticated, user and token from the payload, not loading, error kept |
| AuthSlice.AuthState.SignInRejected | frontend/src/redux/slices/authSlice.js:179-199 | register or login failure: the message, not authenticated, not loading, user and token kept |
| AuthSlice.AuthState.LogoutFulfilled | frontend/src/redux/slices/authSlice.js:201-206 | no user, no token, not authenticated, not loading, error kept |
| AuthSlice.AuthState.LoadUserFulfilled | frontend/src/redux/slices/authSlice.js:211-215 | authenticated with the loaded user, token unchanged |
| AuthSlice.AuthState.LoadUserRejected | frontend/src/redux/slices/authSlice.js:216-220 | user cleared and not authenticated, but the token stays |
| AuthSlice.AuthState.UpdateDetailsFulfilled | frontend/src/redux/slices/authSlice.js:225-228 | only the user is replaced (and loading stops) |
| AuthSlice.AuthState.UpdatePasswordFulfilled | frontend/src/redux/slices/authSlice.js:237-239 | only loading stops |
| AuthSlice.AuthState.UpdateRejected | frontend/src/redux/slices/authSlice.js:229-243 | a failed details or password update records the message and stops loading, nothing else |
| ThemeSlice.Toggled | frontend/src/redux/slices/themeSlice.js:17 | `light` becomes `dark`, anything else becomes `light` |
| ThemeSlice.ToggleTwice | frontend/src/redux/slices/themeSlice.js:17 | toggling twice restores `light` and `dark`; any other mode ends as `dark` |
| ThemeSlice.Theme.constructor | frontend/src/redux/slices/themeSlice.js:4-6 | the initial mode, nothing applied yet |
| ThemeSlice.Theme.SetTheme | frontend/src/redux/slices/themeSlice.js:12-15 | the payload is stored verbatim and applied |
| ThemeSlice.Theme.ToggleTheme | frontend/src/redux/slices/themeSlice.js:16-20 | the toggled mode is stored and applied |
| Helpers.TwoDigits | frontend/src/utils/helpers.js:22-23 | `String(n).padStart(2, '0')`: two digits below 100 |
| Helpers.TwoDigitsValue | frontend/src/utils/helpers.js:22-23 | the two digits read back as the number |
| Helpers.FormatDateForInput | frontend/src/utils/helpers.js:17-26 | empty exactly for a falsy date |
| Helpers.FormatDateForInputLayout | frontend/src/utils/helpers.js:20-25 | for four-digit years: ten characters `YYYY-MM-DD` that read back as year, month index plus one, and day |
| Helpers.YearIsFourDigits | frontend/src/utils/helpers.js:21-25 | a year from 1000 to 9999 prints as four digits |
| Helpers.FormatDate | frontend/src/utils/helpers.js:2-14 | empty for a falsy date, the locale rendering otherwise |
| Helpers.IsOverdue | frontend/src/utils/helpers.js:29-32 | overdue exactly when there is a date and it is before now |
| Helpers.PriorityColor | frontend/src/utils/helpers.js:35-46 | red, yellow and green exactly for high, medium and low; gray for anything else |
| Helpers.CategoryIcon | frontend/src/utils/helpers.js:49-62 | each named category has its icon, a pin for anything else |
| Signup.ValidateForm | frontend/src/components/auth/Signup.js:28-39 | an error per field exactly on its condition, with its message (the length, counted in UTF-16 code units, is checked for a non-empty password and its message replaces "required"); valid exactly when the map is empty, exactly when the form is acceptable |
| Signup.AstralPasswordAccepted | frontend/src/components/auth/Signup.js:35 | a password of three characters beyond the Basic Multilingual Plane is six code units long and is accepted |
| Signup.OnSubmit | frontend/src/components/auth/Signup.js:41-51 | registers exactly when the form is acceptable, with name, email and password only |
| Profile.ValidateProfileForm | frontend/src/pages/Profile.js:43-51 | an error for an empty name or email; valid exactly when both are given |
| Profile.ValidatePasswordForm | frontend/src/pages/Profile.js:53-65 | current password required; any new password under six UTF-16 code units, the empty one included, ends with the length message; mismatch reported; valid exactly when the map is empty |
| Profile.HandleProfileSubmit | frontend/src/pages/Profile.js:67-78 | the details are sent exactly when the form validates |
| Profile.HandlePasswordSubmit | frontend/src/pages/Profile.js:80-101 | sent exactly when the form validates, with only the current and new passwords |
| AddTaskForm.InitialFormData | frontend/src/components/tasks/AddTaskForm.js:10-16 | priority `medium`, category `other`, other fields empty |
| AddTaskForm.OnChange | frontend/src/components/tasks/AddTaskForm.js:22-24 | the named field takes the value and the others are unchanged |
| AddTaskForm.ValidateForm | frontend/src/components/tasks/AddTaskForm.js:26-33 | `title` is the only possible error key; valid exactly when the title is given |
| AddTaskForm.HandleSubmit | frontend/src/components/tasks/AddTaskForm.js:35-44 | submits exactly when the title is given; an empty due date becomes null, the other fields pass through |
| Text.Lower | frontend/src/hooks/useTasks.js:50 | `toLowerCase` on ASCII letters, character by character |
| Text.LowerIdempotent | frontend/src/hooks/useTasks.js:50-52 | lower-casing twice is lower-casing once, and leaves no capital |
| Text.ContainsIff | frontend/src/hooks/useTasks.js:50-52 | `includes` holds exactly when the text occurs at some position |
| Text.ContainsEmpty | frontend/src/hooks/useTasks.js:49-52 | every string includes the empty string |
| Text.NatToString | frontend/src/utils/helpers.js:22-23 | `String(n)` is one or more digits, one digit exactly below ten, two from 10 to 99 |
| Text.NatToStringRoundTrip | frontend/src/utils/helpers.js:22-23 | the decimal digits read back as the number |
| Text.PadStart | frontend/src/utils/helpers.js:22-23 | `padStart` keeps a long enough string and otherwise fills it on the left to the length |
| Text.Utf16Length | frontend/src/components/auth/Signup.js:35 | a string's `length` in UTF-16 code units lies between its number of characters and twice that |
| Text.Utf16LengthBmp | frontend/src/pages/Profile.js:58 | without characters beyond the Basic Multilingual Plane the length is the number of characters |
| Text.Utf16LengthAstral | frontend/src/pages/Profile.js:58 | each character beyond the Basic Multilingual Plane counts as two code units |
| Text.Split | backend/controllers/taskController.js:31 | `split` gives at least one part, none containing the separator |
| Text.SplitJoin | backend/controllers/taskController.js:31-37 | `split(',').join(' ')` replaces every comma by a space |

## Left out

- MongoDB, Mongoose and Express are replaced by an in-memory sequence of tasks and the `Response` datatype. `models/Task.js`, with its schema defaults, casting and validators, is not part of this model.
- Store-assigned identifiers are a parameter. `TaskController.TaskStore.CreateTask` requires that the new identifier is not in use.
- The parsed page and limit numbers (`parseInt`) and the match count (`countDocuments`) are parameters of `TaskQuery.GetTasks`. The fetch itself, and the store's handling of a negative skip or limit, are not modelled.
- The query rewrite runs over a tree of strings, arrays and objects in place of the JSON text. A query string containing JSON-escaped characters is not distinguished.
- Concurrency is not modelled: the `Promise.all` over the per-task rank writes and the non-atomic delete-then-shift are sequential steps.
- Async thunks, axios, toasts and localStorage are left out (they do I/O). The auth constructor takes the stored user and token as parameters.
- The Express route table and its `/:id`-before-`/reorder` order are routing behaviour and are left out.
- Presentation components, chart configuration and the DOM work of `applyTheme` are left out. The theme keeps the list of applied modes instead.
- `debounce` and `generateId` are left out (timers and randomness). Clock, date parsing and locale are left out; `Helpers.FormatDate` and `Helpers.IsOverdue` take the rendered text and instants as parameters.
- An invalid date (`NaN` fields) is not modelled.
- The Signup and Profile field `onChange` handlers have the same shape as `AddTaskForm.OnChange` and are not repeated.
- Profile's theme buttons and the password-form reset after a successful request are left out (component state only).
- UseTasks.TaskStats: the completion rate for a non-empty list is `Math.round` of a floating-point quotient, taken here as the parameter `roundedPercent`; only its zero case is computed.
- Text.Lower: lower-cases ASCII letters only; Unicode case mapping is not modelled.
- TaskController.TaskStore.ReorderTasks: `newIndex` is an integer. The source reads it from the JSON body, where a string, a fractional number or a missing value is coerced by `splice` (a missing one becomes 0) and compared with `!==`; those inputs are not modelled.
- TaskController.TaskStore.ReorderTasks: requires the caller's ranks to be dense, because the source indexes the sorted list by the task's rank and is otherwise meaningless.
- TaskController.TaskStore.DeleteTask: promises density afterwards only when the caller's ranks were dense before.
- TaskController.TaskStore.UpdateTask: promises density only for updates that set neither `order` nor `user`, since the source lets an update set both.
- TaskSlice.TaskCache.UpdateTaskOffline: the payload's `id` is taken out before merging. A payload that also carries an `_id` field, which would overwrite the identifier, is not modelled, because the patch has no identifier field.

