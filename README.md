# CheckMate task tracker — Dafny model

This project models the behaviour-bearing core of a small browser to-do
application. Its main part is the persisted task store, the
`useLocalStorageTasks` hook. The store owns an ordered list of tasks, newest
first. It loads that list once from the `tasks` storage slot, falling back to
five seed tasks. Three operations change the list: add (prepends), toggle
(flips one flag) and delete (filters). The whole list is written back to the
slot after every change.

Beside the store, the model covers the small pieces of logic in the views:

- the task view's completion filter, its "tasks remaining" count and its
  submit guard;
- the user directory's case-insensitive search, pages of five, page-count
  ceiling, clamped previous/next buttons, "Showing a-b of n" label, initials
  and avatar colour;
- the navigation bar's active-link test and its two flags (scrolled, menu
  open);
- the priority badge's normalisation, style lookup and label;
- the theme provider's initial theme, toggle, apply effect and reaction to a
  system preference change.

Modules, one per source file, plus three helpers:

| module | file | models |
|---|---|---|
| `LocalStorageTasks` | `local_storage_tasks.dfy` | `src/hooks/useLocalStorageTasks.js` (class `TaskStore`) |
| `TaskManager` | `task_manager.dfy` | `src/components/TaskManager.jsx` (class `TaskManager`) |
| `ApiData` | `api_data.dfy` | `src/components/ApiData.jsx` (class `Directory`) |
| `Navbar` | `navbar.dfy` | `src/components/Navbar.jsx` (class `NavbarState`) |
| `PriorityBadge` | `priority_badge.dfy` | `src/components/PriorityBadge.jsx` |
| `ThemeContext` | `theme_context.dfy` | `src/context/ThemeContext.jsx` (class `ThemeProvider`) |
| `JsStrings` | `js_strings.dfy` | `trim`, ASCII `toLowerCase`/`toUpperCase`, `includes`, `split`, `join` |
| `Seqs` | `seqs.dfy` | `Array.prototype.filter` and the subsequence order it keeps |
| `Wrappers` | `wrappers.dfy` | `Option`, for `null` / `undefined` |

State that React keeps in `useState` is a class field. Each setter call is an
assignment in a method with a `modifies` clause. A `useEffect` that runs after
a state change is the method's last step (`TaskStore.Persist`,
`ThemeProvider.Apply`). The list computations are pure functions, and their
properties are lemmas.

Storage is abstract. The `tasks` slot is a `Slot`: `Absent`, `Unparseable`,
or `Saved(list)`. The `theme` slot is an `Option<string>`. Whether a write
succeeds is a `writeOk` parameter. A failed write leaves the old slot in place
and keeps the in-memory list. `Date.now()`, the ISO timestamps and the system
colour-scheme preference are also parameters.

Where the code and the store's intended contract differ, the model follows
the code:

- **Toggling an id that is not in the list.** The intended contract reads this
  as a silent no-op. The code first stores and persists the mapped list, which
  is a new array with the same contents. Then the notification dereferences
  `find(...)`, which is `undefined`, and throws. `TaskStore.ToggleTask` returns
  `NotFound` for that throw, after the state change.
- **Deleting an id.** The code removes every task with that id, not exactly
  one. `RemoveExactlyOne` proves the two agree when the ids are distinct.
- **Ids.** The code takes ids from `Date.now()` and does not guarantee that
  they are unique. The model takes the id as a parameter and proves that
  distinct ids stay distinct when the new id is fresh (`AddKeepsDistinct`).

## Model

Pure functions that only compute a value the source computes (`Load`,
`View`, `Remaining`, `FilteredUsers`, `RangeLabel`, `AvatarColor`,
`IsActive`, `StyleFor`, `ThemeProvider.IsDark`) have no row of their own:
each is described by the row of the lemma or method that states its
properties and cites the same source lines.

| member | source | states |
|---|---|---|
| LocalStorageTasks.DefaultTasks | src/hooks/useLocalStorageTasks.js:10-46 | five seed tasks with ids 1..5 and distinct ids; completion pattern true, false, false, true, false; every priority one of low/medium/high; every creation stamp is the `now` parameter |
| LocalStorageTasks.LoadFallsBackToDefaults | src/hooks/useLocalStorageTasks.js:49-57 | an empty or unparseable slot gives exactly the seed list, so ids 1..5 with the seed completion flags and priorities |
| LocalStorageTasks.TaskStore.constructor | src/hooks/useLocalStorageTasks.js:49-65 | the list is the loaded slot (or the seeds); the first persist then writes it, or leaves the slot as it was if the write fails |
| LocalStorageTasks.TaskStore.Persist | src/hooks/useLocalStorageTasks.js:59-65 | a successful write sets the slot to the whole current list; a failed one changes nothing |
| LocalStorageTasks.TaskStore.AddTask | src/hooks/useLocalStorageTasks.js:67-81 | blank text returns null and changes neither list nor slot; otherwise the new task (given id, untrimmed text, not completed, priority defaulting to medium) becomes the head, the tail is exactly the old list, and the list is persisted |
| LocalStorageTasks.TaskStore.ToggleTask | src/hooks/useLocalStorageTasks.js:83-89 | the list becomes the toggled list and is persisted; the outcome is NotFound exactly when no task has the id, otherwise it reports the flipped flag of the first task with that id |
| LocalStorageTasks.TaskStore.DeleteTask | src/hooks/useLocalStorageTasks.js:91-95 | the list becomes the tasks whose id differs, and is persisted |
| LocalStorageTasks.Toggled | src/hooks/useLocalStorageTasks.js:84-86 | same length; every id, text, priority and timestamp is kept; the flag flips exactly on the tasks carrying the id |
| LocalStorageTasks.Removed | src/hooks/useLocalStorageTasks.js:92 | a task is kept exactly when it was in the list and its id differs from the deleted one |
| LocalStorageTasks.FindById | src/hooks/useLocalStorageTasks.js:88 | finds a task exactly when some task has the id; what it finds is the first task in the list with that id |
| LocalStorageTasks.FindInToggled | src/hooks/useLocalStorageTasks.js:84-88 | looking up the id in the toggled list finds the first task with that id, flipped, or nothing if there was none |
| LocalStorageTasks.ToggleInvolution | src/hooks/useLocalStorageTasks.js:84-86 | toggling the same id twice restores the list |
| LocalStorageTasks.ToggleAbsentUnchanged | src/hooks/useLocalStorageTasks.js:84-86 | toggling an absent id computes the same list |
| LocalStorageTasks.ToggleKeepsDistinct | src/hooks/useLocalStorageTasks.js:84-86 | toggling keeps pairwise distinct ids distinct |
| LocalStorageTasks.RemovedKeepsOrder | src/hooks/useLocalStorageTasks.js:92 | the remaining tasks are a subsequence of the list, in their original order |
| LocalStorageTasks.RemovedCounts | src/hooks/useLocalStorageTasks.js:92 | every copy of a task with another id is kept and every task with the deleted id is dropped (counted with multiplicity) |
| LocalStorageTasks.RemoveAbsentUnchanged | src/hooks/useLocalStorageTasks.js:92 | deleting an absent id leaves the list unchanged |
| LocalStorageTasks.RemoveIdempotent | src/hooks/useLocalStorageTasks.js:92 | deleting twice equals deleting once |
| LocalStorageTasks.RemoveExactlyOne | src/hooks/useLocalStorageTasks.js:92 | with distinct ids, deleting a present id shortens the list by exactly one |
| LocalStorageTasks.RemoveKeepsDistinct | src/hooks/useLocalStorageTasks.js:92 | deleting keeps pairwise distinct ids distinct |
| LocalStorageTasks.AddKeepsDistinct | src/hooks/useLocalStorageTasks.js:69-76 | prepending a task whose id is fresh keeps ids pairwise distinct |
| LocalStorageTasks.AddToggleDeleteRestores | src/hooks/useLocalStorageTasks.js:67-95 | adding a task with a fresh id, toggling it and deleting it gives back the list from before the add |
| JsStrings.TrimEmptyIffBlank | src/hooks/useLocalStorageTasks.js:68 | `text.trim()` is empty (falsy) exactly when every character is ECMAScript whitespace |
| TaskManager.TaskManager.Visible | src/components/TaskManager.jsx:14-18 | the tasks on screen are exactly the stored tasks the current filter shows, never more than are stored |
| TaskManager.ViewSelects | src/components/TaskManager.jsx:14-18 | 'active' keeps exactly the uncompleted tasks, 'completed' exactly the completed ones, any other filter keeps all; every view is an order-preserving subsequence that keeps every copy of a selected task |
| TaskManager.ActiveCompletedPartition | src/components/TaskManager.jsx:14-18 | the sizes of the active and completed views add up to the list's length |
| TaskManager.RemainingIsActiveCount | src/components/TaskManager.jsx:200 | the "tasks remaining" count equals the size of the active view |
| TaskManager.TaskManager.constructor | src/components/TaskManager.jsx:9-12 | empty text, medium priority, filter 'all', over the given store |
| TaskManager.TaskManager.HandleSubmit | src/components/TaskManager.jsx:20-27 | blank text changes nothing (form and store); otherwise the store gains the task with the untrimmed text and chosen priority at its head, and the form resets to empty text and medium priority |
| ApiData.TotalPages | src/components/ApiData.jsx:42 | the page count is the ceiling of n/5: enough pages for n users, and no empty last page |
| ApiData.ShownPageCount | src/components/ApiData.jsx:175 | the page count displayed (totalPages, or 1 when there are none) is at least 1 |
| ApiData.Directory.Paginated | src/components/ApiData.jsx:31-40 | the users on screen are at most five, each a fetched user matching the current search term |
| ApiData.Page | src/components/ApiData.jsx:37-40 | page p holds at most five users, and its i-th user is the user at position (p-1)*5+i of the filtered list |
| ApiData.PagesFromIsSuffix | src/components/ApiData.jsx:37-42 | pages p to the last, concatenated, are exactly the users from index (p-1)*5 on |
| ApiData.PagesCoverAll | src/components/ApiData.jsx:37-42 | pages 1 to totalPages, concatenated, are exactly the filtered users |
| ApiData.RangeLabelMatchesPage | src/components/ApiData.jsx:160-162 | on every existing page, 1 <= lo <= hi <= n, lo is (p-1)*5+1, and hi-lo+1 is the number of users on the page |
| ApiData.JsRemainder | src/components/ApiData.jsx:72 | the remainder stays strictly within (-7, 7); for non-negative ids it is the usual modulus; for negative ids it is not positive and differs from the id by a multiple of 7 (truncating division) |
| ApiData.AvatarColorDefined | src/components/ApiData.jsx:62-73 | a non-negative id gets colours[id mod 7], and ids seven apart get the same colour |
| ApiData.AvatarColorNegative | src/components/ApiData.jsx:72 | a negative id that is not a multiple of 7 indexes below zero and gets no colour |
| ApiData.FirstChars | src/components/ApiData.jsx:56-57 | there are at most as many initials as parts |
| ApiData.FirstCharsSkipsEmpty | src/components/ApiData.jsx:55-57 | empty parts (from leading, trailing or doubled spaces) contribute nothing: the result equals that of the non-empty parts alone |
| ApiData.Initials | src/components/ApiData.jsx:53-59 | at most one character per space-separated part, none of them a lower-case letter |
| ApiData.InitialsOfWords | src/components/ApiData.jsx:53-59 | for non-empty words joined by single spaces, the initials are each word's first letter, uppercased, one per word |
| JsStrings.JoinSplit | src/components/ApiData.jsx:55 | splitting on a character and joining with it gives the string back |
| JsStrings.SplitJoin | src/components/ApiData.jsx:55 | joining separator-free words and splitting again gives the words back |
| JsStrings.IncludesIffOccurs | src/components/ApiData.jsx:33 | `includes` holds exactly when the term occurs at some index of the name |
| ApiData.SearchSelects | src/components/ApiData.jsx:31-35 | the search keeps exactly the users whose lowercased name includes the lowercased term, in their original order, keeping every copy of a matching user |
| ApiData.EmptySearchKeepsAll | src/components/ApiData.jsx:31-35 | an empty search term keeps every user |
| ApiData.Directory.constructor | src/components/ApiData.jsx:9-29 | after the fetch: the fetched users, empty term, page 1, and the page exists |
| ApiData.Directory.Search | src/components/ApiData.jsx:95-98 | a new search term resets the page to 1 |
| ApiData.Directory.PrevPage | src/components/ApiData.jsx:167-168 | goes back one page, never below page 1 |
| ApiData.Directory.NextPage | src/components/ApiData.jsx:179-180 | goes forward one page only while not on the last page, never past totalPages; does nothing with no pages |
| Navbar.ActiveMeaning | src/components/Navbar.jsx:9-10 | the home link is active exactly on '/'; any other link is active exactly when the path starts with it |
| Navbar.ActiveIsNotSegmentAware | src/components/Navbar.jsx:9-10 | '/tasks' is active on '/tasks/new' and also on '/tasksX' |
| Navbar.AtMostOneActive | src/components/Navbar.jsx:9-10 | for any path, at most one of '/', '/tasks' and '/api-data' is active |
| Navbar.NavbarState.constructor | src/components/Navbar.jsx:37-38 | the menu starts closed and the bar unscrolled |
| Navbar.NavbarState.HandleScroll | src/components/Navbar.jsx:42-47 | scrolled becomes scrollY > 10, and the state is written only when that differs from the old value |
| Navbar.NavbarState.ToggleMenu | src/components/Navbar.jsx:102 | the menu button flips isOpen |
| Navbar.NavbarState.CloseMenu | src/components/Navbar.jsx:127-129 | following a mobile link closes the menu |
| Navbar.NavbarState.MobileThemeButton | src/components/Navbar.jsx:132-135 | the mobile theme button toggles the theme, applies it to the old root class set, and closes the menu |
| PriorityBadge.SafePriority | src/components/PriorityBadge.jsx:29-31 | always low, medium or high; a valid priority passes through; a missing or unknown one becomes medium |
| PriorityBadge.StyleLookupHits | src/components/PriorityBadge.jsx:33 | the style lookup always finds an entry, so its fallback is never needed |
| PriorityBadge.DisplayText | src/components/PriorityBadge.jsx:36-41 | a falsy value reads Medium; otherwise the label has the same length, its first character is not a lower-case letter and no later character is an upper-case letter; it is the same letters as the value, up to case |
| PriorityBadge.BadgeForEachPriority | src/components/PriorityBadge.jsx:6-41 | low shows 'Low' with a down arrow, medium 'Medium' with a right arrow, high 'High' with an up arrow |
| ThemeContext.InitialTheme | src/context/ThemeContext.jsx:14-26 | a non-empty saved value is used as it is; otherwise dark exactly when the system prefers dark, else light; never empty |
| ThemeContext.Toggled | src/context/ThemeContext.jsx:65-72 | the result is light or dark, dark exactly when the theme was light, and always differs from the theme |
| ThemeContext.ToggleTwice | src/context/ThemeContext.jsx:67 | toggling twice is the identity exactly on light and dark |
| ThemeContext.AppliedClasses | src/context/ThemeContext.jsx:33-39 | the root carries the theme class and the transition classes |
| ThemeContext.AppliedHasOneMode | src/context/ThemeContext.jsx:33-39 | of light/dark the root carries exactly the theme (when it is one of them), and keeps every other class it had; nothing beyond the theme and the transition classes is added |
| ThemeContext.ThemeProvider.constructor | src/context/ThemeContext.jsx:14-46 | the theme is the resolved initial theme, and it is applied and written to the slot |
| ThemeContext.ThemeProvider.Apply | src/context/ThemeContext.jsx:29-46 | swaps the mode class, adds the transition classes, sets data-theme and writes the theme to the slot |
| ThemeContext.ThemeProvider.ToggleTheme | src/context/ThemeContext.jsx:65-72 | the theme becomes its toggle, isDark holds exactly when it was light, and it is applied and written to the slot |
| ThemeContext.ThemeProvider.SystemChange | src/context/ThemeContext.jsx:54-59 | the theme follows the system only while the slot is falsy; when it does change, the new theme is applied to the old root class set; once the theme has been applied, a system change does nothing |

## Left out

- JSON encoding and the `localStorage` API: a slot holds an already decoded
  list. A slot that parses to something other than a task array (`null`, a
  number) is not modelled; the source would fail later on such a value.
- `Date.now()` ids, `new Date().toISOString()` timestamps, the `window`
  check and `window.matchMedia` are parameters. The model, like the code,
  does not generate unique ids.
- Notifications (`react-hot-toast`) and `console.error`: only what the toggle
  notification reads (the task's new flag, or the throw) is modelled.
- The 150 ms and 200 ms `setTimeout` before toggle and delete, React's render
  scheduling, batching and stale closures: each handler runs to completion in
  sequence.
- Rendering, CSS classes and animation. The style map keeps only each entry's
  colour family and icon. The task page, the directory page, the home page
  (clock, random quote) and the routes are not part of this model.
- `fetchUsers` and the directory's loading and error states: the fetched
  user list is the directory constructor's input.
- The form's input handlers (`setNewTaskText`, `setPriority`, `setFilter`)
  are plain assignments to the `TaskManager` fields.
- Case mapping covers ASCII letters only. A JavaScript string is UTF-16 code
  units, while a Dafny string holds Unicode scalar values, so `part[0]` on a
  surrogate pair is not modelled.
- `getDisplayText`'s non-string branch: the badge always passes a string.
- `scrollY` is a `real`; listener registration and removal are not modelled.
- Writes to the `theme` slot from outside the provider are not modelled.
- The `Slot` abstraction takes `JSON.parse(JSON.stringify(tasks))` to give back
  a list equal to `tasks`; the serialisation round trip itself is not modelled.
- `DefaultTasks`: the source reads the clock once per seed task, so the five
  `createdAt` stamps need not be equal; the model stamps all five with one `now`.
- `ThemeProvider.Apply` and `ThemeProvider.ToggleTheme`: writes to the `theme`
  slot are not guarded (unlike the `tasks` slot), so a failing `setItem` would
  throw out of the effect or updater; the model assumes every theme write
  succeeds, and `SystemChange`'s no-change-once-applied promise relies on that.
- `InitialTheme`: `classList.add` throws on a saved theme containing
  whitespace; the model accepts any saved string and does not model that throw.
