# LifeOS dashboard core, modelled in Dafny

LifeOS is a personal dashboard for two users, João and Myrrena. It is a single-page
application: tasks on a kanban board, finances, meals and workouts, studies. This project
models the parts of it that hold sequential logic, and proves what they promise.

- **The reactive store** (`zustand.ts`), in `zustand.dfy`.
  - `create` keeps one state record and an insertion-ordered set of listeners.
  - `setState` shallow-merges a partial record onto the state. The partial is either given, or computed from the current state. Every listener is then called once with the new and the previous state.
  - `subscribe`, its unsubscribe function and `destroy` edit the listener set.
  - `persist` merges a parsed stored copy over the creator's state when the store is created. It also replaces `api.setState` with a version that writes the whole state back to storage. The `set` the creator received before that replacement writes nothing.
- **The domain data store** (`dataStore.ts`), in `data_store.dfy`.
  - It holds ten collections.
  - Mutators: add (append with a fresh id), update (merge a partial record into the records with an id), delete (filter out an id).
  - Readers: the per-user filters and `getMealsByDate`.
- **The user and theme store** (`userStore.ts`), in `user_store.dfy`.
  - Actions: `setUser`, `toggleTheme` and `setTheme`.
  - The document's `dark` class is a ghost flag.
  - `getCurrentUserProfile` is a lookup with a fallback.
- **The router** (`react-router-dom.tsx`), in `router.dfy`.
  - `BrowserRouter` holds the location and the session history: a sequence of entries and a current position.
  - `navigate` normalises the path, then either replaces the current entry or pushes a new one.
  - `popstate` moves to another entry.
  - `Route` matching and `NavLink` activity are predicates on the pathname.
- **The data table** (`DataTable.tsx`), in `data_table.dfy`, runs a filter → sort → slice pipeline:
  - a case-insensitive search over chosen keys;
  - a three-state sort toggle and the comparator's order, with the sort itself as a stable insertion sort;
  - pagination, with the first, previous, next and last buttons;
  - new rows from the parent, which keep the search term, the page and the sort.
- **The tasks page** (`Tarefas.tsx`), in `tarefas.dfy`.
  - The kanban status columns.
  - The add-or-edit submit, the edit dialog and its reset.
  - Drag-and-drop between columns.
- **The workout page** (`Treinos.tsx`), in `treinos.dfy`.
  - The exercise rows of the form: append, remove at an index, update one field. `updateExercise` copies the rows into a new array and assigns one slot.
  - The submit, which keeps the named rows and parses their numbers.
  - The selected-day and marked-day filters.

`common.dfy` holds the JavaScript array and string helpers the modules share:
- `filter`, `some` and `includes`;
- `toLowerCase`;
- `String(n)`, and `parseInt(…) || 0`.

`types.dfy` holds the entity records and enumerations of `src/types/index.ts`. A `Date` is a count of milliseconds of local wall-clock time; its calendar day is its Euclidean quotient by 86 400 000.

## Model

| member | source | states |
|---|---|---|
| Common.FilterAppend | src/pages/Tarefas.tsx:124-126 | filtering distributes over concatenation, so a filter keeps the elements' relative order |
| Common.FilterMultiset | src/pages/Tarefas.tsx:124-126 | each element occurs in a filter's result as often as in the input if it passes, and not at all otherwise |
| Common.FilterComplement | src/stores/dataStore.ts:114-118 | a filter and its complement split the input: their lengths add up to the input's |
| Common.FilterFilter | src/stores/dataStore.ts:170-175 | filtering twice is filtering once by the conjunction |
| Common.AnyIffFilterNonEmpty | src/pages/fitness/Treinos.tsx:90-92 | `some(p)` holds exactly when `filter(p)` is non-empty |
| Common.ContainsIff | src/components/ui/DataTable.tsx:51 | `includes(t)` holds exactly when `t` occurs at some position |
| Common.ToLowerIdempotent | src/components/ui/DataTable.tsx:51 | lower-casing twice is lower-casing once |
| Common.BlankParsesToZero | src/pages/fitness/Treinos.tsx:69 | `parseInt(s)`, or 0 when it fails, is 0 for an empty or all-blank field |
| Common.IntToStringParses | src/pages/fitness/Treinos.tsx:77-78 | `parseInt(String(i))` gives `i` back for every integer |
| Common.ParseIntOrZero | src/pages/fitness/Treinos.tsx:77-78 | `parseInt(s)`, or 0 when it fails, is 0 for a field with no digit at all |
| Common.LeadingJunkIsZero | src/pages/fitness/Treinos.tsx:77-78 | a field starting with a character that is neither white space, a sign nor a digit reads as 0, whatever follows |
| Common.DigitsThenText | src/pages/fitness/Treinos.tsx:77-78 | digits followed by text that does not start with a digit read as the digits' value |
| Common.ParseExamples | src/pages/fitness/Treinos.tsx:77-78 | "a1" reads as 0 and "3x10" as 3 |
| Zustand.Merge | src/lib/zustand.ts:25 | `{ ...s, ...p }` has the keys of both; every key of `p` takes `p`'s value; every other key keeps its value |
| Zustand.PartialOf | src/lib/zustand.ts:24 | a given partial record is merged as it is; an updater is applied to the current state and its result merged |
| Zustand.Calls | src/lib/zustand.ts:26 | one call per listener, in the set's insertion order, the `j`th to the `j`th listener with the new and the previous state |
| Zustand.Spread | src/lib/zustand.ts:79 | a parsed object contributes its own fields; `null`, numbers and booleans contribute none |
| Zustand.CallsOnce | src/lib/zustand.ts:26 | with a duplicate-free listener set, one update calls every listener exactly once, with the new and the previous state, and calls no one else |
| Zustand.FilterKeepsDistinct | src/lib/zustand.ts:33 | deleting a listener keeps the listener set free of duplicates |
| Zustand.Persistable | src/lib/zustand.ts:90 | the top-level fields that survive `JSON.stringify` are exactly the non-function ones, with their values |
| Zustand.Restore | src/lib/zustand.ts:73-83 | no stored string, an empty one or an unparseable one leaves the creator's state; a parsed object's fields override the creator's, and the other fields keep their values; a stored value that parses to anything but an object (`null`, a number, a boolean) also leaves the creator's state |
| Zustand.ReloadRestoresWrittenState | src/lib/zustand.ts:73-91 | a store re-created against what a persisted store last wrote starts from that state's serializable fields merged over the creator's; the creator's functions survive |
| Zustand.Storage.SetItem | src/lib/zustand.ts:90 | `setItem` stores the value under the key and leaves the other keys alone |
| Zustand.Storage.GetItem | src/lib/zustand.ts:73 | the stored string when the key is present, `null` otherwise |
| Zustand.Store.Create | src/lib/zustand.ts:18-41 | the creator's state is the first state; the listener set is empty; nothing persists |
| Zustand.Store.CreatePersisted | src/lib/zustand.ts:65-95 | the first state is `Restore` of the creator's state and the stored string |
| Zustand.Store.GetState | src/lib/zustand.ts:29 | `getState` returns the current state |
| Zustand.Store.SetState | src/lib/zustand.ts:22-27 | the new state merges the partial, or the updater's result on the old state; the listener calls made are exactly the set's calls with (new, previous); the set stays duplicate-free |
| Zustand.Store.ApiSetState | src/lib/zustand.ts:86-91 | the same update, then the whole new state is written under the store's name when persisted; without persistence storage is unchanged |
| Zustand.Store.Subscribe | src/lib/zustand.ts:31-32 | a new listener is appended; a known one leaves the set unchanged |
| Zustand.Store.Unsubscribe | src/lib/zustand.ts:33 | exactly that listener is removed; the others stay, in order |
| Zustand.Store.Destroy | src/lib/zustand.ts:36 | the listener set is empty |
| Zustand.SubscribeThenSet | src/lib/zustand.ts:22-33 | a listener subscribed to a fresh store is called once by `setState({ x: v })` with a state holding `x: v` and the creator's state, and once more by an identity update, with that state as both new and previous |
| DataStore.WithoutId | src/stores/dataStore.ts:114-118 | the records kept are exactly those whose id differs |
| DataStore.UpdateId | src/stores/dataStore.ts:108-112 | same length; records with the id are merged with the patch; every other record is unchanged |
| DataStore.ByUser | src/stores/dataStore.ts:120 | the records kept are exactly the user's |
| DataStore.AddThenByUser | src/stores/dataStore.ts:99-106 | after an add, the owner's reading is the old reading plus the new record at its end; other users' readings are unchanged |
| DataStore.DeleteLength | src/stores/dataStore.ts:114-118 | delete shortens the collection by exactly the number of records carrying the id |
| DataStore.DeleteUniqueId | src/stores/dataStore.ts:114-118 | with unique ids, deleting a present id removes one record, and deleting an absent id changes nothing |
| DataStore.DeleteAfterAdd | src/stores/dataStore.ts:99-118 | deleting a record just added under a fresh id restores the collection |
| DataStore.UpdateUnknownId | src/stores/dataStore.ts:108-112 | an update with an id no record carries changes nothing |
| DataStore.UpdateThenByUser | src/stores/dataStore.ts:108-120 | an update that keeps owners commutes with the per-user reading |
| DataStore.DeleteAfterUpdate | src/stores/dataStore.ts:108-118 | an update that keeps ids, then a delete of that id, equals the delete alone |
| DataStore.MergeTask | src/stores/dataStore.ts:110 | `{ ...t, ...p }` field by field: each of id, title, description, status, priority, due date, creation time and owner takes the patch's value when present and keeps the record's otherwise |
| DataStore.MergeTransaction | src/stores/dataStore.ts:134 | `{ ...t, ...p }` field by field: each of id, description, amount, type, category, date, account and owner takes the patch's value when present and keeps the transaction's otherwise |
| DataStore.MergeNothing | src/stores/dataStore.ts:110 | an empty patch leaves a task unchanged |
| DataStore.Store.constructor | src/stores/dataStore.ts:85-96 | the store starts from the seed collections |
| DataStore.Store.AddTask | src/stores/dataStore.ts:99-106 | exactly one task is appended, with the fresh id and creation time; the earlier tasks are unchanged |
| DataStore.Store.UpdateTask | src/stores/dataStore.ts:108-112 | same length; the tasks with the id are merged with the patch; the others are unchanged |
| DataStore.Store.DeleteTask | src/stores/dataStore.ts:114-118 | the tasks left are exactly those with a different id |
| DataStore.Store.TasksByUser | src/stores/dataStore.ts:120 | exactly the user's tasks |
| DataStore.Store.AddTransaction | src/stores/dataStore.ts:123-129 | one transaction is appended under the fresh id |
| DataStore.Store.UpdateTransaction | src/stores/dataStore.ts:131-137 | the id's transactions are merged with the patch; the length is unchanged |
| DataStore.Store.DeleteTransaction | src/stores/dataStore.ts:139-143 | the transactions left are exactly those with a different id |
| DataStore.Store.TransactionsByUser | src/stores/dataStore.ts:145 | exactly the user's transactions |
| DataStore.Store.AccountsByUser | src/stores/dataStore.ts:148 | exactly the user's accounts |
| DataStore.Store.FinancialGoalsByUser | src/stores/dataStore.ts:151 | exactly the user's financial goals |
| DataStore.Store.AddMeal | src/stores/dataStore.ts:154-160 | one meal is appended under the fresh id |
| DataStore.Store.DeleteMeal | src/stores/dataStore.ts:162-166 | the meals left are exactly those with a different id |
| DataStore.Store.MealsByUser | src/stores/dataStore.ts:168 | exactly the user's meals |
| DataStore.Store.MealsByDate | src/stores/dataStore.ts:170-175 | exactly the user's meals on the date's calendar day, in order: the user's meals filtered by day |
| DataStore.Store.AddWorkout | src/stores/dataStore.ts:178-184 | one workout is appended under the fresh id |
| DataStore.Store.DeleteWorkout | src/stores/dataStore.ts:186-190 | the workouts left are exactly those with a different id |
| DataStore.Store.WorkoutsByUser | src/stores/dataStore.ts:192 | exactly the user's workouts |
| DataStore.Store.AddMeasurement | src/stores/dataStore.ts:195-203 | one measurement is appended under the fresh id |
| DataStore.Store.DeleteMeasurement | src/stores/dataStore.ts:205-209 | the measurements left are exactly those with a different id |
| DataStore.Store.MeasurementsByUser | src/stores/dataStore.ts:211-212 | exactly the user's measurements |
| DataStore.Store.FitnessGoalsByUser | src/stores/dataStore.ts:215-216 | exactly the user's fitness goals |
| DataStore.Store.SubjectsByUser | src/stores/dataStore.ts:219-220 | exactly the user's subjects |
| DataStore.Store.AddStudySession | src/stores/dataStore.ts:223-231 | one study session is appended under the fresh id |
| DataStore.Store.DeleteStudySession | src/stores/dataStore.ts:233-237 | the study sessions left are exactly those with a different id |
| DataStore.Store.StudySessionsByUser | src/stores/dataStore.ts:239-240 | exactly the user's study sessions |
| DataStore.AddThenDeleteScenario | src/stores/dataStore.ts:99-120 | for a user with no tasks, adding one and deleting it by its fresh id restores the collection and the empty reading |
| UserStore.UsersData | src/stores/userStore.ts:14-27 | two profiles, João's first, then Myrrena's |
| UserStore.Toggled | src/stores/userStore.ts:39 | the toggled theme differs from the current one |
| UserStore.ToggledTwice | src/stores/userStore.ts:38-42 | toggling twice restores the theme |
| UserStore.FindIndex | src/stores/userStore.ts:50 | `findIndex`: no earlier profile has the name; a found index holds it |
| UserStore.ProfileOf | src/stores/userStore.ts:50 | when some profile has the name, the result is the first such profile in the list; otherwise the fallback is the first fixed profile |
| UserStore.ProfileOfUsersData | src/stores/userStore.ts:14-51 | with the fixed profiles every user finds their own profile, and the fallback is never taken |
| UserStore.UserStore.constructor | src/stores/userStore.ts:31-34 | the initial state is João, the light theme and the fixed profiles |
| UserStore.UserStore.SetUser | src/stores/userStore.ts:36 | the current user is set; nothing else changes |
| UserStore.UserStore.ToggleTheme | src/stores/userStore.ts:38-42 | the theme flips, and the dark class is on exactly when the new theme is dark |
| UserStore.UserStore.SetTheme | src/stores/userStore.ts:44-47 | the theme is set, and the dark class is on exactly when it is dark |
| UserStore.UserStore.CurrentUserProfile | src/stores/userStore.ts:49-51 | the first profile in the list with the current user's name, or the first fixed profile when there is none |
| UserStore.ThemeScenario | src/stores/userStore.ts:36-47 | toggling twice gives back the starting theme with the dark class in step with it; setting dark once and twice give the same theme; switching user afterwards keeps the dark theme and class |
| Router.Normalize | src/lib/react-router-dom.tsx:27 | the pathname starts with '/': it is `to` itself or '/' + `to` |
| Router.NormalizeRooted | src/lib/react-router-dom.tsx:27 | `to` is unchanged exactly when it starts with '/'; normalising is idempotent |
| Router.RouteMatchesIff | src/lib/react-router-dom.tsx:66-78 | a pathless route never renders; an empty path renders only at ''; any other path renders exactly at pathnames it is a character prefix of, and '/' also at '' |
| Router.RouteMatches | src/lib/react-router-dom.tsx:71-72 | a route renders only with a path, and only where that path is a prefix of the pathname or is '/' at the empty pathname |
| Router.NavLinkActive | src/lib/react-router-dom.tsx:102 | an active link's target is a route path that renders at the current pathname |
| Router.RoutePrefixExamples | src/lib/react-router-dom.tsx:71-72 | no segment boundary is checked ('/fin' matches '/financeiro'); '/' matches every navigated pathname |
| Router.NestedPageExample | src/lib/react-router-dom.tsx:71-102 | at a nested page, the section's route renders while the section's link is inactive |
| Router.NavLinkActiveAfterNavigate | src/lib/react-router-dom.tsx:102-107 | after following a link, it is active exactly when its target starts with '/' |
| Router.BrowserRouter.constructor | src/lib/react-router-dom.tsx:20-24 | the initial location is the browser's, with '/' for an empty pathname |
| Router.BrowserRouter.Navigate | src/lib/react-router-dom.tsx:26-38 | the new location has the normalised pathname and empty search and hash; replace overwrites the current entry; push drops the entries after it and appends one; earlier entries stay |
| Router.BrowserRouter.PopState | src/lib/react-router-dom.tsx:41-51 | the location becomes the entry moved to |
| Router.BrowserRouter.FollowLink | src/lib/react-router-dom.tsx:104-107 | a push-navigation to `to` |
| Router.BackAfterPush | src/lib/react-router-dom.tsx:26-51 | a replace, a push and a step back leave the location at the replaced entry, the history two entries from the old position on, both that location, and the position where it was |
| DataTable.FilterRows | src/components/ui/DataTable.tsx:47-54 | without search or with an empty term, the data unchanged; otherwise exactly the rows where some key's lower-cased text contains the lower-cased term; no keys, no rows; never longer than the data |
| DataTable.CellString | src/components/ui/DataTable.tsx:50-51 | `String(item[key])`: a missing field is "undefined", a text field itself, a number field a string `parseInt` reads back as that number |
| DataTable.Hit | src/components/ui/DataTable.tsx:51 | a key hits exactly when the lower-cased term occurs at some position of the field's lower-cased text |
| DataTable.MatchesSearch | src/components/ui/DataTable.tsx:49-52 | a row passes exactly when some search key hits |
| DataTable.SearchIgnoresCase | src/components/ui/DataTable.tsx:51 | a term and its lower-case form select the same rows in the same order |
| DataTable.NextSort | src/components/ui/DataTable.tsx:75-85 | a new column sorts ascending; ascending turns descending; descending turns unsorted |
| DataTable.ThreeClicksCycle | src/components/ui/DataTable.tsx:75-85 | three clicks on a column not yet sorted by it end unsorted; the cycle has period three |
| DataTable.StrLessIrreflexive | src/components/ui/DataTable.tsx:62-63 | no string is below itself |
| DataTable.StrLessTransitive | src/components/ui/DataTable.tsx:62-63 | string `<` is transitive |
| DataTable.StrLessTotal | src/components/ui/DataTable.tsx:62-63 | any two different strings are ordered one way or the other |
| DataTable.Less | src/components/ui/DataTable.tsx:62-63 | only cells of one kind are ordered |
| DataTable.SortValue | src/components/ui/DataTable.tsx:59-60 | a present field is its own sort value; a missing field sorts as '', below every non-empty text |
| DataTable.Compare | src/components/ui/DataTable.tsx:58-65 | the comparator returns -1, 0 or 1 |
| DataTable.CompareAntisymmetric | src/components/ui/DataTable.tsx:58-65 | swapping the rows negates the comparison |
| DataTable.PrecedesTransitive | src/components/ui/DataTable.tsx:58-65 | "sorts strictly before" is transitive |
| DataTable.Insert | src/components/ui/DataTable.tsx:58 | inserting adds exactly that row (multiset) |
| DataTable.SortRows | src/components/ui/DataTable.tsx:58-65 | the sorted rows are a permutation of the input |
| DataTable.InsertSorted | src/components/ui/DataTable.tsx:58-65 | inserting into sorted rows keeps them sorted |
| DataTable.SortRowsSorted | src/components/ui/DataTable.tsx:57-66 | the result is sorted: ascending, no later value is below an earlier one; descending, none is above |
| DataTable.SortedData | src/components/ui/DataTable.tsx:57-66 | a permutation of the filtered rows; the rows themselves without a sort |
| DataTable.TotalPages | src/components/ui/DataTable.tsx:69 | the fewest pages that hold all rows; zero exactly when there are no rows |
| DataTable.JsSlice | src/components/ui/DataTable.tsx:70-73 | `slice` from a non-negative start is the rows from start to end, clipped to the array |
| DataTable.Page | src/components/ui/DataTable.tsx:70-73 | at most a page of rows; page p is the rows from (p-1)·size to p·size, clipped |
| DataTable.PagesUpToPrefix | src/components/ui/DataTable.tsx:69-73 | pages 1 to k concatenated are the rows before page k+1 |
| DataTable.PagesCoverRows | src/components/ui/DataTable.tsx:69-73 | all the pages in order are exactly the rows |
| DataTable.RowOnItsPage | src/components/ui/DataTable.tsx:70-73 | row i is on page i div size + 1, at position i mod size |
| DataTable.ShownRangeMatchesPage | src/components/ui/DataTable.tsx:156-157 | on every existing page the caption's range counts exactly the rows the page shows |
| DataTable.ShownRangeEnd | src/components/ui/DataTable.tsx:157 | the caption's last row number is the page's end or the row count, whichever is smaller |
| DataTable.PageNonEmptyIff | src/components/ui/DataTable.tsx:69-73 | a page shows some row exactly when it is no later than the last page |
| DataTable.TableState.constructor | src/components/ui/DataTable.tsx:34-44 | the defaults (searchable, no keys, 10 rows per page), an empty term, page 1 (in range), no sort |
| DataTable.TableState.Shown | src/components/ui/DataTable.tsx:69-73 | at most a page of rows, all from the filtered data |
| DataTable.TableState.Filtered | src/components/ui/DataTable.tsx:47-54 | never more rows than the data; all the data with an empty term |
| DataTable.TableState.Sorted | src/components/ui/DataTable.tsx:57-66 | a permutation of the filtered rows; those rows themselves without a sort |
| DataTable.TableState.TotalPageCount | src/components/ui/DataTable.tsx:69 | the fewest pages that hold the filtered rows; zero exactly when none passes |
| DataTable.TableState.ShownNonEmptyIff | src/components/ui/DataTable.tsx:69-73 | with the page in range, some row is on screen exactly when some row passes the search; past the last page none is |
| DataTable.TableState.SetData | src/components/ui/DataTable.tsx:31-40 | new rows from the parent replace the data; the term, the page and the sort stay as they were |
| DataTable.TableState.SetDataResetPage | src/components/ui/DataTable.tsx:95-98 | new rows with a return to page 1, as typing does, leave the page in range |
| DataTable.StalePageAfterNewData | src/components/ui/DataTable.tsx:69-73 | from page 3 of 25 rows, 5 new rows leave no row on screen though 5 pass the search, with one page only, so no pager |
| DataTable.NewDataResetPage | src/components/ui/DataTable.tsx:69-73 | the same steps with the page reset show all 5 rows |
| DataTable.TableState.SetSearchTerm | src/components/ui/DataTable.tsx:95-98 | the term is set and the page returns to 1, which is in range |
| DataTable.TableState.HandleSort | src/components/ui/DataTable.tsx:75-85 | the sort advances by `NextSort`; the page count is unchanged, and so is whether the page is in range |
| DataTable.TableState.FirstPage | src/components/ui/DataTable.tsx:164 | page 1, which is in range |
| DataTable.TableState.PrevPage | src/components/ui/DataTable.tsx:172 | one page back, never below 1; a page in range stays in range |
| DataTable.TableState.NextPage | src/components/ui/DataTable.tsx:183 | one page on, never beyond the last, so in range |
| DataTable.TableState.LastPage | src/components/ui/DataTable.tsx:191 | the last page, which is in range |
| Tarefas.DueDateAsWrittenShiftsDay | src/pages/Tarefas.tsx:83 | west of Greenwich the saved due date falls on the day before the one picked, and each edit-save moves it one day more |
| Tarefas.DueDateAsWrittenExample | src/pages/Tarefas.tsx:83 | three hours west, day 20000 is saved as day 19999 |
| Tarefas.DueDateAsWritten | src/pages/Tarefas.tsx:83 | `new Date('yyyy-MM-dd')` read as midnight UTC falls on the picked local day at an offset from 0 to just under a day, and on the day before at a negative offset |
| Tarefas.DueDate | src/pages/Tarefas.tsx:83 | the intended due date falls on the picked day |
| Tarefas.DueDateRoundTrip | src/pages/Tarefas.tsx:97-106 | editing a task and saving it unchanged keeps its due day |
| Tarefas.TasksByStatus | src/pages/Tarefas.tsx:124-126 | exactly the tasks with that status |
| Tarefas.KanbanPartition | src/pages/Tarefas.tsx:356-373 | the three columns together hold every task exactly once |
| Tarefas.TarefasPage.Tasks | src/pages/Tarefas.tsx:56 | exactly the current user's tasks |
| Tarefas.EditPatch | src/pages/Tarefas.tsx:70-75 | an edit sends the form's title, description and priority, and no status, id, owner or creation time; its due date is the picked day at a non-negative UTC offset and the day before at a negative one |
| Tarefas.NewTask | src/pages/Tarefas.tsx:78-85 | a new task is pending, owned by the current user, with the form's title, description and priority; its due date is the picked day at a non-negative UTC offset and the day before at a negative one |
| Tarefas.StatusPatch | src/pages/Tarefas.tsx:119 | a drop sends the column's status |
| Tarefas.EditKeepsColumns | src/pages/Tarefas.tsx:69-76 | an edit changes no status, owner or id; each of the user's columns after the edit is the column before it, updated |
| Tarefas.UpdateThenStatus | src/pages/Tarefas.tsx:124-126 | a patch without a status commutes with reading a column |
| Tarefas.DropMovesTask | src/pages/Tarefas.tsx:116-122 | a drop gives the dropped id's tasks the column's status and leaves every other task as it was |
| Tarefas.AddedTaskIsLastPending | src/pages/Tarefas.tsx:77-86 | a new task lands at the end of its owner's pending column |
| Tarefas.TarefasPage.constructor | src/pages/Tarefas.tsx:52-64 | dialog closed, nothing edited or dragged, a blank form due today, at the browser's UTC offset |
| Tarefas.BlankForm | src/pages/Tarefas.tsx:58-63 | the cleared form: empty title and description, medium priority, due the given day |
| Tarefas.TarefasPage.HandleSubmit | src/pages/Tarefas.tsx:66-95 | an edit patches the edited task with `EditPatch`; an add appends `NewTask` of the current user; both parse the due date as the page does, at the browser's UTC offset; the form resets and the dialog closes |
| Tarefas.TarefasPage.HandleEdit | src/pages/Tarefas.tsx:97-106 | the edited task's fields go into the form, a missing description as ''; the dialog opens |
| Tarefas.TarefasPage.HandleDragStart | src/pages/Tarefas.tsx:108-110 | that task becomes the dragged one |
| Tarefas.TarefasPage.HandleDrop | src/pages/Tarefas.tsx:116-122 | a dragged task with another status gets the column's status; otherwise the tasks are unchanged; the drag always ends |
| Tarefas.TarefasPage.OnOpenChange | src/pages/Tarefas.tsx:240-251 | closing forgets the edited task and resets the form; opening changes neither |
| Treinos.SetField | src/pages/fitness/Treinos.tsx:61 | `{ ...row, [field]: value }` sets that field alone |
| Treinos.RemoveAt | src/pages/fitness/Treinos.tsx:55 | row `i` is dropped and the others keep their order; an index out of range changes nothing |
| Treinos.RemoveKeepsFirstRow | src/pages/fitness/Treinos.tsx:144 | removing below the first row keeps the first row first |
| Treinos.Exercises | src/pages/fitness/Treinos.tsx:72-80 | one exercise per named row, in order, each with its fresh id, its name, and sets and reps read by `parseInt`, 0 when unparseable; no weight when the field is empty, and `parseFloat` of the field otherwise |
| Treinos.ExerciseOf | src/pages/fitness/Treinos.tsx:74-80 | one exercise keeps the row's name and gets its fresh id; blank sets or reps become 0; no weight exactly when the field is empty |
| Treinos.Submitted | src/pages/fitness/Treinos.tsx:67-81 | the submitted workout has the fresh id, the typed name, the selected date, the current user, the duration read by `parseInt` (0 when unparseable), and as exercises `Exercises` of the rows: one per named row |
| Treinos.ExerciseCount | src/pages/fitness/Treinos.tsx:73 | the exercise count is the row count less the unnamed rows; the blank form gives none |
| Treinos.WorkoutsOnDay | src/pages/fitness/Treinos.tsx:34-36 | exactly the workouts on the selected calendar day |
| Treinos.TreinosPage.SelectedDayWorkouts | src/pages/fitness/Treinos.tsx:34-36 | exactly the current user's workouts on the selected calendar day |
| Treinos.HasWorkoutOnDay | src/pages/fitness/Treinos.tsx:90-92 | true exactly when some workout falls on the day |
| Treinos.MarkedIffListed | src/pages/fitness/Treinos.tsx:90-92 | a day is marked exactly when selecting it lists some workout |
| Treinos.AddedWorkoutMarksDay | src/pages/fitness/Treinos.tsx:67-71 | a workout added for a user marks its day in that user's calendar |
| Treinos.TreinosPage.constructor | src/pages/fitness/Treinos.tsx:25-43 | today selected, dialog closed, an empty form with one blank row |
| Treinos.TreinosPage.AddExercise | src/pages/fitness/Treinos.tsx:45-50 | one blank row appended; the others unchanged |
| Treinos.TreinosPage.RemoveExercise | src/pages/fitness/Treinos.tsx:52-57 | the rows without row `i` |
| Treinos.TreinosPage.UpdateExercise | src/pages/fitness/Treinos.tsx:59-63 | a copy of the rows, with only field `f` of row `i` changed |
| Treinos.TreinosPage.HandleSubmit | src/pages/fitness/Treinos.tsx:65-88 | one workout is appended: the typed name, the named rows as exercises, the selected day, the parsed duration, the current user; the day is then marked; the form resets to one blank row and the dialog closes |

## Left out

- Rendering, the charts and the `useStore` hook's re-render trigger (`zustand.ts` lines 43-56) are not modelled. Hook state is modelled as fields that the handlers assign.
- Listener bodies are not modelled, so a listener that re-enters `setState` or unsubscribes during a notification is not covered. A listener is an identity, and a call to it is an entry in the `delivered` log.
- `JSON.parse` and `JSON.stringify` are given functions (the `Json` record). Their round trip is a precondition of `Zustand.ReloadRestoresWrittenState`, not a proof. A parsed array or string spread into the state is treated as contributing no fields.
- `Zustand.Store.ApiSetState` is the only setter that writes storage. `userStore.ts` line 29 calls `create` with no creator, which does not match its signature, so the `create(persist(…))` wiring of the user store is not modelled. Its actions are transitions of `UserStore.UserStore`.
- The theme bootstrap in `userStore.ts` lines 60-68 is not modelled: it is storage I/O at load time.
- Fresh ids (`Math.random`) and `new Date()` are parameters. The source does not make ids unique, so uniqueness is a precondition where a lemma needs it.
- `parseInt` is modelled in base 10 only; a "0x" prefix, which `parseInt` without a radix reads as hexadecimal, reads here as 0.
- `parseFloat` is a given function.
- `Common.LowerChar` lower-cases ASCII and Latin-1 letters only, not every Unicode letter.
- Strings compare by `char`, whereas JavaScript compares UTF-16 code units. The two orders agree below U+10000.
- `DataTable.Less`: a text cell and a number cell are unordered. JavaScript would compare them by converting to numbers.
- `DataTable.SortRows` is a stable insertion sort. The comparator is consistent on cells of one kind; with mixed kinds, the order `Array.prototype.sort` produces is implementation-defined.
- The search reads a cell as text or an integer. Fractional numbers, dates printed by `String(date)` and nested objects are not modelled.
- `DataTable.TableState.constructor` requires a positive page size; a zero or negative `pageSize` prop is not modelled.
- `Router.BrowserRouter.Navigate`: a navigate target holding '?' or '#' is not split into search and hash, because the source does not split it either. The history entries are whatever `window.history` stores.
- Navigate: the pathname is kept as the string given. `history.pushState` would resolve '.' and '..' segments and refuse a cross-origin '//host' target; the app's links are plain absolute paths.
- `Treinos.TreinosPage.UpdateExercise` requires an index inside the rows; the page only passes indices of rendered rows.
- The text-input setters of the forms, the calendar's month navigation and date-fns formatting are not modelled. A 'yyyy-MM-dd' string is modelled by its day number.
- Deleting a workout from the page and the list-view toggle of the tasks page only call modelled store operations or change presentation.
- A patch field set explicitly to `undefined` (which `{ ...t, ...p }` would copy) is modelled as absent.
- Persistable: only top-level function fields are dropped. `JSON.stringify` also drops functions nested in objects and writes `null` for functions in arrays; no state the app stores holds such values.
- The tasks page keeps the due-date parse as written (midnight UTC, see "## Findings"). The browser's UTC offset is a constant of the page, so a change of offset while the page is open (daylight saving) is not modelled.

## Findings

| source | as written | input that shows it | evidently intended | confidence | as-written member | corrected member |
|---|---|---|---|---|---|---|
| src/pages/Tarefas.tsx:83 | the due date is `new Date(formData.dueDate)` on a 'yyyy-MM-dd' string made by `format` in local time; such a string parses as midnight UTC | a user at UTC-3 picks day 20000: it is saved at 21:00 local time on day 19999, and each edit-save moves it one day earlier | the due date falls on the picked local day, so an unchanged edit keeps it | high, not executed | Tarefas.DueDateAsWrittenShiftsDay | Tarefas.DueDateRoundTrip |
| src/components/ui/DataTable.tsx:95-98 | the page returns to 1 only when the search term changes; new `data` from a parent that keeps the table mounted (the transactions page filters by type and category) leaves the page as it was | on page 3 of 25 rows, a filter leaves 5 rows: rows 20 to 29 of 5 are none, so nothing is listed and, with one page, the pager that would lead back is hidden | the page stays in range when the data changes, so rows that pass the search are shown | high, not executed | DataTable.StalePageAfterNewData | DataTable.TableState.SetDataResetPage |
