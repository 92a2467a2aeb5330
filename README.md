# Persona-style self-tracking engine, modelled in Dafny

This project models the domain engine of a browser self-tracking app styled after
the game Persona. The app turns discrete events into derived state and bounded logs:

- **Stats.** Performing an action adds points to five stats. Each stat has a
  rank level computed from ordered thresholds, and a progress value towards the
  next rank.
- **Coops.** Interactions with a relationship add points. A fixed ten-level
  table gives the rank, and each coop keeps a log of at most 100 entries.
- **Mementos.** Ideas move between depths 1 and 3, one step at a time, and can
  be turned into a todo.
- **Todos.** Tasks belong to a date and have a completion flag.
- **History.** A shared log, newest first, capped at 500 entries.

All state lives in the browser's local key-value store. `Storage.Store` models
that store as one object with a field per key: `stats`, `actions`, `history`,
`settings`, `coops`, `mementos` and `todos`. Every engine operation is a method
that reads a field, changes the value and writes it back, as the JavaScript does
with `getX()` / `saveX()`.

The keys `stats`, `actions`, `history` and `settings` are `Option`s. The code
tells a missing key apart from a stored empty array: `[]` is truthy in
JavaScript, so `getStats()` falls back to the defaults only when the key is absent.
The memento and todo getters return a fresh `[]` for a missing key. For those two
keys an absent key and an empty list look the same to every reader, so they are
plain sequences.

The coop getter is different. For a missing key, `getCoops` returns the page's
single `DEFAULT_COOPS` array (js/coop.js:28,33), not a fresh `[]`. `addCoop`
pushes onto whatever `getCoops` returned. `executeCoopAction` and
`updateCoopNote` change that array's records in place. So while the key is absent,
these operations also change `DEFAULT_COOPS`.

The store models the coop key as an `Option` (`coops`), and models the array as a
field of its own (`defaultCoops`, initially empty). `GetCoops()` is
`coops.GetOr(defaultCoops)`, and `deleteAllCoops` sets the key to `None`. A
coop added before the first save therefore survives `deleteAllCoops`; see
"## Findings".

The clock is not modelled. Every `Date.now()` value is a parameter `now: nat`. History
entry ids are that number, and the other ids are built from it as the source does (`'coop_' + now`). Every ISO time string
is a parameter `timestamp`. Progress percentages are exact `real` quotients.

Module layout, one per source file plus shared helpers:

| module | source |
|---|---|
| `Stats` | js/stats.js |
| `Actions` | js/actions.js |
| `History`, `Storage` | js/storage.js |
| `Coop` | js/coop.js |
| `Mementos` | js/mementos.js |
| `Todo` | js/todo.js |
| `Ranks` | the rank scan shared by js/stats.js and js/coop.js |
| `Seqs`, `Text`, `Wrappers` | `find`/`filter`/`unshift`+`pop`, `join`, decimal ids, `null` |

Each operation that changes a list has a pure function in its engine module that
says what the new list is: `Todo.Toggled`, `Coop.Interacted`,
`Mementos.DepthChanged` and so on. The properties are proved about those
functions. The `Store` method's contract then ties the new field to that function
of the old field. The source's loops are methods with loop invariants, proved
against recursive specification functions:

- `Stats.CalculateRankLevel` and `Coop.GetCoopRank` against `Ranks.RankLevel`;
- `Stats.CalculateTotalLevel` against `Stats.TotalLevel`;
- the `forEach` of `executeAction`, `Actions.ApplyActionEffects`, against `Actions.ApplyEffects`.

## Model

| member | source | states |
|---|---|---|
| `Ranks.RankLevel` | js/stats.js:11-16 | Returns the largest index whose threshold the value reaches, or 0 when it reaches none. The result is below the threshold count, and the value is below every later threshold. |
| `Ranks.RankLevelUnique` | js/stats.js:11-16 | An index the value reaches, with no later index reached, is the rank level. |
| `Ranks.RankLevelMonotone` | js/stats.js:11-16 | The rank level never decreases as the value grows, whatever the order of the thresholds. |
| `Ranks.RankLevelBelowNext` | js/stats.js:38-45 | Below the top level, the value is strictly less than the next threshold. |
| `Ranks.ClampedPercent` | js/stats.js:40-43 | Always lies in [0, 100]. For any non-zero denominator, of either sign, it equals the exact quotient times 100 when the quotient is in [0, 1], 0 when the quotient is negative and 100 when it exceeds 1. A zero denominator gives 0 or 100, as ±Infinity clamps in JavaScript. |
| `Stats.CalculateRankLevel` | js/stats.js:7-17 | The downward loop returns `RankLevel` of the stat's thresholds, falling back to `[0,34,82,126,192]`. It is the largest reached index, or 0. |
| `Stats.RankName` | js/stats.js:20-24 | Gives the name at the level when it is present and non-empty, and the first name otherwise. Gives none exactly when there are no names. Falls back to `Lv1`..`Lv5`. |
| `Stats.CalculateProgress` | js/stats.js:27-48 | `currentLevel` is level+1 and the percentage is in [0,100]. At the top level: 100, no next rank, 0 remaining. Below it: `remaining = next - value >= 1`, the next rank's name, and the exact interpolation when the current threshold is reached. A value below the current threshold, which only a hand-edited stat can have, gives 0, or 100 when the next threshold is lower. |
| `Stats.TotalLevel` | js/stats.js:51-57 | The sum of one-based levels is at least the number of stats. |
| `Stats.CalculateTotalLevel` | js/stats.js:51-57 | The accumulating loop returns `TotalLevel`. |
| `Stats.TotalLevelBounds` | js/stats.js:51-57 | With at most five thresholds per stat, n stats total between n and 5n. |
| `Stats.FindStat` | js/stats.js:62 | Returns the index of the first stat with that id, so no earlier stat has it. Returns none exactly when no stat has it. |
| `Stats.ClampedAdd` | js/stats.js:64 | `max(0, value + amount)`: the sum when it is non-negative, and exactly 0 when it is negative (3 - 1000 gives 0). |
| `Stats.Credited` | js/stats.js:62-66 | Only the chosen stat's value changes. It becomes the clamped sum, and every other stat is unchanged. |
| `Storage.Store.AddToStat` | js/stats.js:60-69 | An unknown id returns null and stores nothing. Otherwise it saves the default-filled stats with the found stat credited and returns that stat, which has a non-negative value. |
| `Actions.ApplyActionEffects` | js/actions.js:19-29 | The `forEach` loop computes `ApplyEffects`: the effects applied in order, each clamped. |
| `Actions.ApplyEffectsKeepsShape` | js/actions.js:19-24 | Applying effects changes values only. Ids, names, icons, ranks, thresholds and order stay. |
| `Actions.AppliedEffectsAreResolved` | js/actions.js:20-28 | `appliedEffects` is exactly the effects whose stat exists, in order, each carrying that stat's name. Dangling ids are skipped. |
| `Actions.ApplyEffectsLeavesOthers` | js/actions.js:19-24 | A stat no effect names is unchanged. |
| `Actions.ApplyEffectsClamps` | js/actions.js:21 | Every stat is either unchanged or non-negative afterwards. |
| `Actions.SequentialClampExample` | js/actions.js:19-24 | Effects on the same stat clamp one at a time: 3, then -5, then +2 gives 2. |
| `Actions.FindAction` | js/actions.js:8 | Returns the index of the first template with that id, so no earlier template has it. Returns none exactly when none has it. |
| `Storage.Store.ExecuteAction` | js/actions.js:6-44 | An unknown id returns null and changes nothing. Otherwise the stats become `ApplyEffects` of the filled stats. Exactly one stamped `ActionEntry` with id, name, icon and applied effects is recorded, and the action with its applied effects is returned. |
| `Actions.Updated` | js/actions.js:95 | The template at the index gets the new name, icon and effects and keeps its id. Every other template is unchanged. |
| `Storage.Store.AddAction` | js/actions.js:77-87 | Appends and returns `Action('a' + now, name, icon, effects)`. |
| `Storage.Store.UpdateAction` | js/actions.js:91-100 | A missing id returns null and saves nothing. Otherwise the template is replaced in place, keeping its id and position. |
| `Actions.WithoutAction` | js/actions.js:103-108 | The result is a subsequence with no template of that id. Every template with another id is kept with all its copies: each element's count is unchanged when it is kept and 0 otherwise. |
| `Storage.Store.DeleteAction` | js/actions.js:103-108 | Saves and returns `WithoutAction` of the current templates. |
| `History.Stamped` | js/storage.js:155-159 | The minted id and timestamp replace the caller's. Variant and payload are kept. |
| `History.Recorded` | js/storage.js:153-164 | The stamped entry comes first and older entries follow in order. At 500 or more, exactly the oldest is dropped. A log of at most 500 stays at most 500. |
| `Storage.Store.AddHistoryEntry` | js/storage.js:153-165 | The stored log becomes `Recorded` of the current log, and the 500 bound is kept. |
| `Seqs.PushFrontCapped` | js/storage.js:155-163 | The new element comes first. Nothing is dropped below the cap, exactly the last is dropped at or over it, and the cap is kept. |
| `Storage.DefaultStatsWellFormed` | js/storage.js:14-55 | Five default stats with distinct ids and value 0. Each has five names and five thresholds that start at 0 and strictly increase. |
| `Storage.DefaultActionsResolve` | js/storage.js:58-71 | Every effect of a default action names a default stat. |
| `Storage.FilledStat` | js/storage.js:117-124 | Present `ranks`/`thresholds` are kept. Missing ones come from the default with the same id, else `[]`. Every other field is unchanged. |
| `Storage.StatsView` | js/storage.js:112-125 | With nothing stored, the default stats. Otherwise each stored stat filled, with the same length and order. |
| `Storage.StatsViewIdempotent` | js/storage.js:117-124 | Filling what `getStats` returned changes nothing. |
| `Storage.ActionsView` | js/storage.js:133-135 | `getActions`: the defaults exactly when nothing is stored, otherwise the stored templates, even an empty list. |
| `Storage.HistoryView` | js/storage.js:143-145 | `getHistory`: the empty log when nothing is stored, otherwise the stored log. |
| `Storage.Exported` | js/storage.js:175-182 | Every field of the document is present and holds what `getStats`, `getActions` and `getHistory` return, so each exported stat has its names and thresholds filled in. |
| `Storage.Store.ExportData` | js/storage.js:175-182 | The store's document carries its three getters' results and the given time. |
| `Storage.Imported` | js/storage.js:187-189 | A present field replaces the stored value, and an absent one leaves it. |
| `Storage.ExportImportRoundTrip` | js/storage.js:175-195 | Importing the exported document keeps `getStats`, `getActions` and `getHistory` unchanged. |
| `Storage.ReadingOnDefaults` | js/storage.js:59 | On the defaults, action a1 raises knowledge from 0 to 3 and reports exactly `{knowledge, 知識, 3}`. |
| `Storage.Store.InitializeStorage` | js/storage.js:96-109 | Each missing key gets its default. Present keys are unchanged. |
| `Storage.Store.ResetAllData` | js/storage.js:168-172 | Writes default stats and actions and an empty history. Its frame leaves settings and the other keys untouched. |
| `Storage.Store.ImportData` | js/storage.js:185-195 | A null document returns false and writes nothing. Otherwise it returns true and each present field is written. |
| `Storage.Store.constructor` | js/storage.js:74-82 | An empty store, with every keyed read absent. The page's `DEFAULT_COOPS` array starts empty (js/coop.js:28). |
| `Coop.CoopTableWellFormed` | js/coop.js:24-25 | Ten thresholds and ten names. The thresholds start at 0 and strictly increase. |
| `Coop.CoopRank` | js/coop.js:101-108 | The rank lies in [0,9]. For points >= 0 its threshold is reached, and below 9 the next threshold is not. |
| `Coop.GetCoopRank` | js/coop.js:101-108 | The downward loop returns `CoopRank`. |
| `Coop.CoopRankMonotone` | js/coop.js:101-108 | More points never give a lower rank. |
| `Coop.CoopRankName` | js/coop.js:111-114 | Returns the table's name for the rank: "Rank r+1" at each rank r below 9, and "Rank MAX" exactly at rank 9. |
| `Coop.CoopProgress` | js/coop.js:117-132 | At rank 9: `{100, 0, null}`. Otherwise the percentage is in [0,100], `remaining = next - points > 0`, the next rank's name, and the exact interpolation for points >= 0. |
| `Coop.FindCoop` | js/coop.js:67 | Returns the index of the first coop with that id, so no earlier coop has it. Returns none exactly when none has it. |
| `Coop.FindCoopAction` | js/coop.js:68 | Returns a catalogue entry with that id, or none exactly when the kind is unknown. |
| `Coop.CoopActionPoints` | js/coop.js:7-13 | Every interaction kind is worth 1 to 4 points. |
| `Coop.Interacted` | js/coop.js:72-87 | Points grow by exactly the action's points. The log entry `{actionId, actionName, points}` comes first, the oldest log is dropped past 100, and the 100 bound is kept. No other field changes. |
| `Coop.GiftExample` | js/coop.js:68 | Looking up `gift` finds the entry worth 2 points. |
| `Coop.RankUpExamples` | js/coop.js:91-97 | Going from 3 to 5 points, as a gift does, moves rank 0 to 1. Going from 4 to 6 is also a rank-up. |
| `Storage.Store.GetCoops` | js/coop.js:31-34 | The saved list when the key is present, otherwise the page's `DEFAULT_COOPS` array as it now stands. |
| `Storage.Store.ExecuteCoopAction` | js/coop.js:65-98 | An unknown coop or kind returns null and stores nothing. Otherwise only the found coop in `getCoops()` becomes `Interacted`, the list is saved and, with the key absent, also becomes `DEFAULT_COOPS`, and `rankUp` holds exactly when the new rank exceeds the old one. |
| `Coop.NewCoop` | js/coop.js:44-52 | A new record has 0 points, empty logs and the given fields. |
| `Storage.Store.AddCoop` | js/coop.js:42-56 | Appends the new record with id `'coop_' + now` to `getCoops()`, saves and returns it. With the key absent, `DEFAULT_COOPS` gains the record too. |
| `Coop.WithoutCoop` | js/coop.js:59-62 | The result is a subsequence with no record of that id. Every other record is kept with all its copies. |
| `Storage.Store.DeleteCoop` | js/coop.js:59-62 | Saves `WithoutCoop` of `getCoops()`. `DEFAULT_COOPS` is untouched, since `filter` builds a new array. |
| `Coop.WithNote` | js/coop.js:135-142 | Only the note of the found coop changes. An unknown id changes nothing. |
| `Storage.Store.UpdateCoopNote` | js/coop.js:135-142 | An unknown id saves nothing. Otherwise saves `WithNote` of `getCoops()`, which with the key absent also becomes `DEFAULT_COOPS`. |
| `Storage.Store.DeleteAllCoops` | js/coop.js:171-173 | The key is removed, so `getCoops()` returns `DEFAULT_COOPS`. |
| `Storage.DeleteAllCoopsKeepsEarlierCoop` | js/coop.js:28-56 | On a fresh store, after add A, delete all, add B: the listing after delete all is `[A]` and the saved list is exactly `[A, B]`. |
| `Storage.Store.ClearAllCoops` | js/coop.js:171-173 | Corrected delete all: afterwards `getCoops()` is empty. |
| `Storage.ClearAllCoopsForgetsEarlierCoop` | js/coop.js:171-173 | The same steps with the corrected clear list nothing after the clear and save only `[B]`. |
| `Mementos.NewMemento` | js/mementos.js:41-49 | A new item has depth 1, status active and the given content, tags and times. |
| `Storage.Store.AddMemento` | js/mementos.js:40-54 | Puts the new item with id `'mem_' + now` first. The existing items follow unchanged. |
| `Mementos.FindMemento` | js/mementos.js:59 | Returns the index of the first item with that id, so no earlier item has it. Returns none exactly when none has it. |
| `Mementos.Edited` | js/mementos.js:57-67 | Only content, tags and `updatedAt` of the found item change. A missing id changes nothing. |
| `Storage.Store.UpdateMemento` | js/mementos.js:57-67 | The list becomes `Edited`. Returns the edited item, or undefined. |
| `Mementos.DepthChanged` | js/mementos.js:70-83 | Succeeds exactly when the item exists and 1 <= depth+delta <= 3. Then only that item's depth and `updatedAt` change. |
| `Mementos.DepthChangedKeepsRange` | js/mementos.js:74-78 | If all depths are in [1,3] before, they are after. |
| `Mementos.SurfaceExamples` | js/mementos.js:74-78 | Surfacing at depth 1 is refused. From depth 2 it gives depth 1. |
| `Storage.Store.ChangeMementoDepth` | js/mementos.js:70-83 | Returns true exactly when `DepthChanged` succeeds, and only then does the list change. Keeps depths in [1,3]. |
| `Mementos.WithoutMemento` | js/mementos.js:86-96 | The result is a subsequence with no item of that id. Every other item is kept with all its copies. |
| `Storage.Store.DeleteMemento` | js/mementos.js:86-96 | The list becomes `WithoutMemento`. It is unchanged when the id is absent. |
| `Mementos.TaskTextExamples` | js/mementos.js:105 | The todo text is `[tag1/tag2] content`, and `[] content` with no tags. |
| `Mementos.MarkedConverted` | js/mementos.js:108-109 | Only the item's status (now converted) and `updatedAt` change. |
| `Mementos.ConvertedStillFound` | js/mementos.js:100-114 | A converted item is still found by id, so converting it again succeeds again. |
| `Storage.Store.ConvertMementoToTask` | js/mementos.js:100-114 | For an existing id, appends one todo `[tags] content` with the given date and marks the item converted. An unknown id returns false and changes nothing. |
| `Mementos.DepthListing` | js/mementos.js:118 | Exactly the active items at that depth, in stored order, each with as many copies as the list holds. |
| `Todo.TodosByDate` | js/todo.js:21-24 | Exactly the todos with that date string, in insertion order, each with as many copies as the list holds. |
| `Todo.NewTodo` | js/todo.js:29-35 | A new todo is not completed and has the given text and date. |
| `Todo.AddedTodoListedLast` | js/todo.js:27-39 | An appended todo is listed last for its date. |
| `Storage.Store.AddTodo` | js/todo.js:27-39 | Appends and returns the todo with id `'todo_' + now`, leaving the others unchanged. |
| `Todo.FindTodo` | js/todo.js:44 | Returns the index of the first todo with that id, so no earlier todo has it. Returns none exactly when none has it. |
| `Todo.Toggled` | js/todo.js:42-50 | Only the found todo's `completed` flips. An unknown id changes nothing. |
| `Todo.ToggleTwice` | js/todo.js:42-50 | Toggling twice restores the list. |
| `Storage.Store.ToggleTodo` | js/todo.js:42-50 | The list becomes `Toggled`. Returns the flipped todo, or undefined. |
| `Todo.WithoutTodo` | js/todo.js:53-57 | The result is a subsequence with no todo of that id. Every other todo is kept with all its copies. |
| `Storage.Store.DeleteTodo` | js/todo.js:53-57 | The list becomes `WithoutTodo`. |
| `Todo.EscapeChar` | js/todo.js:81-88 | A special character becomes an entity starting with `&`. Any other character is kept. The output has none of `< > " '`. |
| `Todo.Escaped` | js/todo.js:81-89 | The output has none of `< > " '` and is no shorter than the input. |
| `Todo.EscapeHtml` | js/todo.js:79-90 | Returns `''` for a missing or empty string, and never contains `< > " '`. |
| `Todo.EscapedPlainText` | js/todo.js:81-89 | Text without special characters is unchanged. |
| `Todo.UnescapeEscaped` | js/todo.js:81-89 | Decoding the five entities gives back the original text, so escaping loses nothing. |
| `Text.Join` | js/mementos.js:105 | `join` of no parts is empty and of one part is that part. The joined text is as long as all parts plus one separator between each two neighbours. |
| `Text.JoinAppend` | js/mementos.js:105 | Joining reads left to right: one more part appends a separator and that part. |
| `Seqs.FilterCounts` | js/todo.js:23 | `filter` keeps every copy of a kept element and no copy of a dropped one. |
| `Text.DecimalString` | js/coop.js:45 | The id suffix is a non-empty string of decimal digits. |
| `Text.DecimalStringInverse` | js/coop.js:45 | The digits read back as the clock value, so distinct clock values give distinct ids. |

## Left out

- Persistence: `localStorage`, `JSON.parse`/`JSON.stringify` and the try/catch blocks of `loadData`/`saveData` are not modelled. A read gives the field's value and a write replaces it.
- Storage.Store.AddHistoryEntry: does not return the boolean of `saveHistory`. A write cannot fail in the model, where it would always be true.
- Malformed stored data is not modelled. A key whose JSON is `null`, or is not an array, does not occur. Imported documents are typed: a field is absent or holds records of the right shape.
- Aliasing of the stats and actions defaults: when `stats` or `actions` is absent, the JavaScript returns the `DEFAULT_STATS`/`DEFAULT_ACTIONS` array itself. `executeAction`, `addToStat`, `addAction` and `updateAction` would then mutate the in-memory constant. The model treats defaults as immutable values. `initializeStorage` at start-up keeps these keys present.
- Clock: `Date.now()` and `new Date().toISOString()` are parameters (`now`, `timestamp`). The source reads the clock separately for a new memento's `createdAt` and `updatedAt` (js/mementos.js:48-49), and in a conversion separately for the todo's `createdAt` (js/todo.js:34) and the memento's `updatedAt` (js/mementos.js:109). The model passes one `timestamp` to each operation, so it treats as equal two timestamps the source may take a millisecond apart.
- Progress percentages are exact rationals (`real`), not IEEE doubles. NaN (0/0) is unreachable: `Ranks.RankLevelBelowNext` rules it out.
- `null` and `undefined` results are both `None`. This covers `nextRank` when the rank name is missing and the return of `updateMemento`/`toggleTodo` for an unknown id.
- `convertMementoToTask` checks `typeof addTodo === 'function'`. The model takes it as true, since js/todo.js is always loaded with js/mementos.js.
- Default parameters (`note = ''` of `addCoop`, `tags = []` of `addMemento`) are explicit arguments.
- `COOP_CATEGORIES` and `MEMENTOS_DEPTHS` are labels used only by rendering. The category is kept as the string the caller gives.
- Every `render*` function, `renderStarChart` (floating-point trigonometry), js/app.js (DOM wiring, file import/export through Blob and FileReader), js/calendar.js, the date grouping of js/history.js, and js/money.js (its `getMoney`/`updateMoney` are not defined in any of the files). Money entries still exist as a `HistoryEntry` variant, because the history log stores them.
- Stat and point values are mathematical integers, and the model assumes they stay below 2^53 in magnitude. JavaScript numbers are doubles. The stat editor (js/app.js:543) and the action-effect editor (js/app.js:644) store any integer the user types, so values can pass that bound. Beyond it JavaScript rounds sums where the model does not: an effect of 10^16 applied twice and then 3 added gives 2·10^16+4 in JavaScript and 2·10^16+3 in the model.

## Findings

| source | as written | input that shows it | evidently intended | confidence | as-written member | corrected member |
|---|---|---|---|---|---|---|
| js/coop.js:28-33,42-56,171-173 | With the key absent, `getCoops` returns the shared `DEFAULT_COOPS` array, and `addCoop` pushes onto it before saving. `deleteAllCoops` only removes the key, so `getCoops` then returns `DEFAULT_COOPS`, which still holds those coops. | A fresh store; `addCoop("A", …)`, `deleteAllCoops()`, `addCoop("B", …)`. After the delete all, `A` is listed, and the final saved list is `[A, B]`. | After deleting all coops none remains, and the next `addCoop` saves `[B]`. | not executed | `Storage.DeleteAllCoopsKeepsEarlierCoop` (over `Storage.Store.DeleteAllCoops`) | `Storage.ClearAllCoopsForgetsEarlierCoop` (over `Storage.Store.ClearAllCoops`) |

`Storage.Store.DeleteAllCoops` models the code as written. `Storage.Store.ClearAllCoops` is the corrected operation: it saves an empty list instead of removing the key. No other operation of the model calls either one.
