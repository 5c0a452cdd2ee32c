# Daily planning dashboard: the state store and its projections

The dashboard is a single page that keeps one application state: tasks,
habits and notes. It loads that state from the browser's storage when the page
mounts, replaces it on each user intent and derives two read-only projections
for display. This project models that layer in Dafny and proves what it promises:

- the data model (`Task`, `Habit`, `Note`, `AgentState`, `Priority`);
- the seed state (`createInitialState`) and the choice between stored state
  and seed when the page loads;
- the four intents (toggle a task, add a task, capture a note, adjust a habit
  streak) and the quick actions. Each intent is a function from the previous
  state to the next one, with the fresh id and the current time as arguments;
- the completion percentage and the three focus tasks;
- JavaScript's `String.prototype.trim`, which decides what counts as blank input.

Files and modules: `text.dfy` (Text), `domain.dfy` (Domain),
`transitions.dfy` (Transitions), `projections.dfy` (Projections), `seed.dfy`
(Seed), `persistence.dfy` (Persistence), `store.dfy` (Store). Store holds a
thin class: its `state` field stands for the page's `useState` slot, and each
of its methods replaces that field with the result of the matching transition.

Modelling decisions:

- Ids from `safeId()` and timestamps from `Date.now()` are parameters. The
  sample notes' timestamps are computed from the time the page's code was
  loaded; `Seed.InitialState` takes that time as `loadTime`.
- `Math.round((completed / total) * 100)` is computed in integers as
  `(200 * completed + total) / (2 * total)`. For non-negative arguments this is
  rounding half up.
- `Array.prototype.sort` is stable (ECMAScript 2019 onwards). The model sorts
  with a stable insertion sort by priority rank. The proofs show that this sort
  yields the High tasks, then the Medium ones, then the Low ones, each group in
  list order.
- Streaks and timestamps are JavaScript numbers; the model uses unbounded integers.
- Stored data with a schema mismatch does not fall back to the seed. The code
  casts whatever `JSON.parse` returns (`as T`) without checking it, so the
  only fallback on stored data is a parse that throws. The model's
  `ParseOutcome` can only say "threw" or "gave a state".
- Ids are meant to be unique within each collection; the code relies on
  random ids and never checks this. The model states uniqueness as the
  predicate `UniqueIds` and proves that the transitions keep it, given fresh
  ids.
- Strings are sequences of Unicode scalar values (Dafny `char`), whereas
  JavaScript strings are sequences of UTF-16 code units; a lone surrogate
  cannot be represented in the model. `trim` is unaffected, since every
  ECMAScript whitespace character lies in the Basic Multilingual Plane.

## Model

| member | source | states |
|---|---|---|
| `Text.LeadingSpaces` | app/page.tsx:305 | counts the leading whitespace: every character before the count is whitespace and the one at the count, if any, is not |
| `Text.TrailingSpaces` | app/page.tsx:305 | counts the trailing whitespace: every character in the counted tail is whitespace and the one just before it, if any, is not |
| `Text.TrimStart` | app/page.tsx:305 | the result is a suffix of the input that starts with a non-whitespace character (or is empty), and everything dropped is whitespace |
| `Text.TrimEnd` | app/page.tsx:305 | the result is a prefix of the input that ends with a non-whitespace character (or is empty), and everything dropped is whitespace |
| `Text.TrimIsInfix` | app/page.tsx:311-313 | `trim()` returns a contiguous piece of the input, starting where the leading whitespace ends, with only whitespace cut on either side |
| `Text.Trim` | app/page.tsx:305 | `trim()` never lengthens a string, and a non-empty result starts and ends with a non-whitespace character, so no surrounding whitespace is left |
| `Text.TrimEmptyIffAllSpace` | app/page.tsx:305 | a string trims to `""` (the falsy value the blank checks test) exactly when it is whitespace only |
| `Text.TrimIdempotent` | app/page.tsx:311 | trimming an already trimmed string changes nothing |
| `Text.TrimUnchanged` | app/page.tsx:312 | a string with visible first and last characters is its own trim |
| `Domain.PriorityRank` | app/page.tsx:639-643 | `priorityRank` gives a rank of at most 2, 0 exactly for High and 2 exactly for Low |
| `Transitions.ToggleTasks` | app/page.tsx:298-300 | same length; only `completed` can change, and it flips exactly on the tasks whose id matches |
| `Transitions.ToggleTask` | app/page.tsx:295-302 | habits and notes are untouched |
| `Transitions.ToggleUnknownId` | app/page.tsx:295-302 | toggling an id no task has leaves the state equal to before |
| `Transitions.ToggleTwice` | app/page.tsx:295-302 | toggling the same id twice restores the original state |
| `Transitions.ToggleKeepsIds` | app/page.tsx:295-302 | toggling keeps the set of task ids, so unique ids stay unique |
| `Transitions.AddTask` | app/page.tsx:304-321 | blank title: state unchanged; otherwise exactly one task in front (trimmed title, trimmed category or "General", trimmed due or absent, the draft's priority, not completed) followed by the old tasks in order; habits and notes untouched |
| `Transitions.DefaultCategoryTrimmed` | app/page.tsx:312 | the default category "General" is non-empty and already trimmed |
| `Transitions.CategoryOf` | app/page.tsx:312 | a new task's category is "General" when the drafted category is whitespace only and the trimmed draft otherwise; either way it is never blank and carries no surrounding whitespace |
| `Transitions.DueOf` | app/page.tsx:313 | a new task's due label is absent exactly when the drafted label is whitespace only; when present it is the trimmed draft, non-blank and trimmed |
| `Transitions.NewTask` | app/page.tsx:309-316 | the built task has the fresh id and the draft's priority, is not completed, its title is the trimmed drafted title, its category and due label are those of `CategoryOf` and `DueOf`, so the category is never blank and trimmed and a present due label is non-blank and trimmed |
| `Transitions.AddTaskNoOpIffBlank` | app/page.tsx:305-307 | adding leaves the state unchanged exactly when the drafted title is whitespace only |
| `Transitions.AddTaskFieldsTrimmed` | app/page.tsx:309-316 | a new task's title and category are non-blank and carry no surrounding whitespace; a present due label is non-blank and trimmed |
| `Transitions.AddTaskKeepsIdsUnique` | app/page.tsx:309-321 | with an id not already used, task ids stay unique |
| `Transitions.AppendNote` | app/page.tsx:647-659 | exactly one note in front, with the given content, id and timestamp; the old notes follow in order; tasks and habits untouched |
| `Transitions.CaptureNote` | app/page.tsx:331-338 | whitespace-only text: state unchanged; otherwise the trimmed text is prepended as a note stamped with the current time |
| `Transitions.CaptureNoteContentTrimmed` | app/page.tsx:331-336 | a captured note is non-blank and has no surrounding whitespace |
| `Transitions.AppendNoteKeepsNewestFirst` | app/page.tsx:650-657 | if the clock has not gone back since the newest note, the notes stay ordered most recent first |
| `Transitions.AppendNoteKeepsIdsUnique` | app/page.tsx:650-657 | with an id not already used, note ids stay unique |
| `Transitions.RunQuickAction` | app/page.tsx:256-293 | a quick action always prepends exactly one note holding its template verbatim, stamped with the current time |
| `Transitions.Template` | app/page.tsx:262-289 | every quick-action template is non-empty and starts with a visible character |
| `Transitions.TemplateNotBlank` | app/page.tsx:262-289 | no template is blank by the note form's own test: it is not all whitespace and does not trim to `""` |
| `Transitions.BigThreeDiffersFromCapture` | app/page.tsx:262-266 | the "big three" action stores its trailing space, unlike the note form given the same text |
| `Transitions.Max` | app/page.tsx:347 | `Math.max` on integers: the result is at least both arguments and equal to one of them |
| `Transitions.UpdateStreaks` | app/page.tsx:343-350 | same length; only `streak` can change; a matching habit gets `max(0, streak + delta)`, the others keep theirs |
| `Transitions.UpdateHabit` | app/page.tsx:340-352 | tasks and notes are untouched |
| `Transitions.UpdateHabitNeverNegative` | app/page.tsx:347 | an adjusted streak is never negative, and non-negative streaks stay non-negative |
| `Transitions.DecrementAtZeroStays` | app/page.tsx:347 | "-" on a habit at streak 0 leaves it at 0 |
| `Transitions.UpdateHabitUnknownId` | app/page.tsx:340-352 | adjusting an id no habit has leaves the state equal to before |
| `Transitions.IncrementThenDecrement` | app/page.tsx:340-352 | with non-negative streaks, "+" then "-" on a habit restores the state |
| `Transitions.UpdateHabitKeepsIds` | app/page.tsx:340-352 | adjusting keeps the set of habit ids, so unique ids stay unique |
| `Projections.CountCompleted` | app/page.tsx:212 | the completed count is at most the length; it is 0 exactly when none is completed and the length exactly when all are |
| `Projections.Total` | app/page.tsx:211 | the divisor is at least 1 and at least the number of tasks |
| `Projections.Progress` | app/page.tsx:210-214 | the percentage is 100 * completed / total rounded half up, the nearest integer with ties going up as `Math.round` does (total = length, or 1 if empty), and it lies in 0..100 |
| `Projections.RoundedPercent` | app/page.tsx:213 | `(200c + t) / (2t)` is 100c/t rounded half up, within 0..100 |
| `Projections.ProgressExtremes` | app/page.tsx:210-214 | no tasks or none completed gives 0; all of a non-empty list completed gives 100 |
| `Projections.ToggleMovesCountByOne` | app/page.tsx:295-302 | toggling a task with a unique id moves the completed count by exactly one, in the direction of the flip |
| `Projections.UnmatchedCountSame` | app/page.tsx:295-302 | toggling an id no task has keeps the completed count |
| `Projections.Incomplete` | app/page.tsx:219 | the filter keeps every incomplete task of the list and only incomplete tasks of the list, none more often than the list holds it |
| `Projections.IncompleteLength` | app/page.tsx:219 | the filter keeps exactly as many tasks as are not completed |
| `Projections.IncompleteAppend` | app/page.tsx:219 | the filter acts element by element: filtering a concatenation concatenates the filtered parts, so kept tasks stay in list order |
| `Projections.IncompleteKeepsOpenList` | app/page.tsx:219 | with no task completed, the filter keeps the whole list |
| `Projections.OfPriority` | app/page.tsx:220 | a priority group holds only tasks of that priority |
| `Projections.RankOrder` | app/page.tsx:220 | the reference order for the sort (High group, then Medium, then Low, each in list order) is as long as the list; that it is a permutation of the list is `RankOrderPermutes` |
| `Projections.GroupsCover` | app/page.tsx:220 | every task lies in exactly one priority group: the group sizes add up to the list's length |
| `Projections.InsertByRank` | app/page.tsx:220 | insertion adds exactly one element |
| `Projections.SortByRank` | app/page.tsx:220 | the sort keeps the length |
| `Projections.FocusTasks` | app/page.tsx:216-223 | at most 3 focus tasks, and exactly min(3, number of incomplete tasks) |
| `Projections.OfPriorityCons` | app/page.tsx:220 | a task joins the front of its own priority group and leaves the other groups alone |
| `Projections.InsertSkipsLower` | app/page.tsx:220 | insertion passes over a prefix of strictly lower rank |
| `Projections.InsertBeforeHigherRanks` | app/page.tsx:220 | insertion into a list of ranks no lower than the element's puts it in front |
| `Projections.InsertIntoRankOrder` | app/page.tsx:220 | inserting a task into the rank order of the rest gives the rank order of the whole list |
| `Projections.InsertHigh` | app/page.tsx:220 | a High task is inserted in front of the rank order |
| `Projections.InsertMedium` | app/page.tsx:220 | a Medium task is inserted after the High group, at the front of the Medium group |
| `Projections.InsertLow` | app/page.tsx:220 | a Low task is inserted after the High and Medium groups, at the front of the Low group |
| `Projections.SortIsRankOrder` | app/page.tsx:220 | the stable sort by `priorityRank` is exactly High group, then Medium group, then Low group, each in list order |
| `Projections.RankOrderSorted` | app/page.tsx:220 | ranks never decrease along the sorted list |
| `Projections.RankOrderPermutes` | app/page.tsx:220 | the sorted list is a permutation of the input: same tasks, each as often |
| `Projections.OfPriorityAppend` | app/page.tsx:220 | grouping by priority distributes over concatenation |
| `Projections.OfPriorityOfGroup` | app/page.tsx:220 | grouping a group again by its own priority keeps it whole; by another priority empties it |
| `Projections.IncompleteOfPriority` | app/page.tsx:219-220 | dropping completed tasks and grouping by priority commute: either way gives the open tasks of that priority in list order |
| `Projections.RankOrderStable` | app/page.tsx:220 | tasks of equal priority keep their relative order through the sort |
| `Projections.FocusIsRankOrderPrefix` | app/page.tsx:216-223 | the focus list is the first three of: incomplete High tasks, then incomplete Medium, then incomplete Low, each in list order |
| `Projections.FocusSortedAndIncomplete` | app/page.tsx:216-223 | every focus task is an incomplete task of the list, and the focus list is in non-decreasing rank |
| `Projections.FocusIsTopThree` | app/page.tsx:216-223 | an incomplete task left out of the focus list implies three focus tasks, none ranked below it |
| `Seed.InitialState` | app/page.tsx:57-133 | the seed has 4 tasks, all incomplete, 3 habits with non-negative streaks, 2 notes newest first, and unique ids in each collection |
| `Seed.SampleNotes` | app/page.tsx:116-127 | two sample notes with distinct ids, newest first, both stamped before the load time |
| `Seed.SeedProgressScenario` | app/page.tsx:57-90 | on the seed the score is 0%; completing task-1 makes it 25%; undoing brings it back to 0% |
| `Seed.SeedFocus` | app/page.tsx:57-90 | the seed's focus list is task-1, task-3 (High, in list order), then task-2 (Medium) |
| `Seed.SampleTasksIncomplete` | app/page.tsx:57-90 | no sample task is completed, so filtering keeps them all |
| `Seed.SampleRankOrder` | app/page.tsx:57-90 | sorted by rank, the sample tasks are task-1, task-3, task-2, task-4 |
| `Seed.SampleTasksGroups` | app/page.tsx:57-90 | the sample tasks group as High = task-1, task-3; Medium = task-2; Low = task-4 |
| `Persistence.UsesStored` | app/page.tsx:144-155 | no window, a throwing read, nothing stored, an empty string or a throwing parse each rule out the stored state |
| `Persistence.LoadState` | app/page.tsx:142-158 | the stored state is used exactly when there is a window, the read succeeded, and the stored string is present, non-empty and parses; in every other case the seed is used |
| `Persistence.UnusableStorageYieldsSeed` | app/page.tsx:148-157 | a failed read, nothing stored, an empty string or corrupt data all give the seed state (4 tasks, 3 habits) |
| `Store.Dashboard.constructor` | app/page.tsx:196 | the page's state starts as the loaded state |
| `Store.Dashboard.ToggleTask` | app/page.tsx:295-302 | the state becomes its toggled successor; completion flips exactly on matching tasks |
| `Store.Dashboard.AddTask` | app/page.tsx:304-321 | the state becomes its successor; the task count grows by one unless the title is whitespace only |
| `Store.Dashboard.CaptureNote` | app/page.tsx:331-338 | the state becomes its successor; non-blank text adds a note stamped now in front of the old notes |
| `Store.Dashboard.RunQuickAction` | app/page.tsx:256-293 | the state becomes its successor, whose newest note is the action's template |
| `Store.Dashboard.UpdateHabit` | app/page.tsx:340-352 | the state becomes its successor; non-negative streaks stay non-negative |
| `Store.Dashboard.Progress` | app/page.tsx:210-214 | the displayed score lies in 0..100 |
| `Store.Dashboard.Focus` | app/page.tsx:216-223 | at most three focus tags, each an incomplete task of the state |

## Left out

- Writing the state back to storage after each change (app/page.tsx:160-170): browser I/O and `JSON.stringify`. Write failures are only logged, so they never affect the in-memory state.
- `JSON.parse` itself: its outcome is an input (`ParseOutcome`). No serialisation round trip is modelled or claimed.
- Stored JSON that parses but is not a valid state: the source adopts it unchecked (app/page.tsx:151). `ParseOutcome` cannot represent such a value. A consequence in the source, observed by reading and not executed: a stored `"null"` or `"{}"` parses, becomes the state, and the page then fails at app/page.tsx:211 on `state.tasks.length`, so startup can fail despite the intended fallback to the seed.
- The `console.warn` on a failed read or parse (app/page.tsx:153-155): logging is I/O. The model keeps only its effect, the fallback to the seed.
- `safeId()` (app/page.tsx:135-140) and `Date.now()`: random and clock sources, passed in as parameters. The code does not enforce unique ids; the lemmas on id uniqueness assume an unused id.
- The one-second clock tick and `formatHour`/`formatDate` (app/page.tsx:181-192, 205-208): timers and locale formatting.
- Floating-point rounding error in `(completed / total) * 100`: the percentage is computed exactly in integers.
- Streaks and timestamps beyond 2^53, where JavaScript numbers lose precision: the model uses unbounded integers.
- Resetting the task and note forms after a submission (app/page.tsx:323-328, 337): draft UI state.
- Rendering: the JSX tree, animations, icons, styles (`inputStyle`, `priorityAccent`), the static timeline, `RadarRow` and app/layout.tsx.
