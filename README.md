# ethos: the verified logic layer

ethos is a personal productivity app. It has four pages that keep a list each:

- the daily **time schedule**;
- the **self-learning topics**;
- the **workout log**, with one home and one gym section;
- the **spending tracker**.

Each list lives in React state and is saved to local storage. Each page changes its list only through its event handlers: add with a fresh id, toggle completed, delete by id, and edit by id. The workout and expense forms and the inline workout editor validate their text fields with a chain of early-return checks. The spending page also derives three things from its list:

- a chart of amounts grouped by day or by month;
- a newest-first list;
- a PDF report of a range of days, paginated line by line.

A small image helper computes the geometry of an avatar crop and turns a `data:` URL into the bytes of a file.

This project models that layer in Dafny and proves what the code promises.

- A page's state is a `class` whose fields are the page's `useState` variables. Each handler is a method with `modifies this`, and the method's `ensures` gives the whole new state. Each list transform (`map`, `filter`, spread) is a function. The methods are stated against those functions, and lemmas prove the frame and uniqueness properties about them.
- A form's checks are a function returning an `Outcome`. The `Outcome` is either the first failed check or the emitted record. The submit method is proved to follow it, and lemmas characterise it in both directions.
- The report loop, the chart's accumulation loop and the byte-copy loop of `dataURLtoFile` are methods with loop invariants. Each is proved equal to a recursive specification, and the properties are proved about that specification.
- JavaScript's own semantics are modelled where the code depends on them:
  - `trim` and its white-space set;
  - `parseInt` without a radix, including the `0x` prefix;
  - `Number#toString` for integers;
  - `split` on one character;
  - the lazy regular expression `/:(.*?);/`;
  - the stable `Array#sort`;
  - the insertion order of `Object.keys`.

Modules follow the source files:

| module | file |
|---|---|
| `TimeSchedule` | `time_schedule.dfy` |
| `SelfLearningTopics` | `self_learning.dfy` |
| `WorkoutTypeSection` | `workout_section.dfy` |
| `WorkoutForm` | `workout_form.dfy` |
| `WorkoutList` | `workout_list.dfy` |
| `SpendingTracker` | `spending_tracker.dfy` |
| `ExpenseForm` | `expense_form.dfy` |
| `ExpenseList` | `expense_list.dfy` |
| `SpendingChart` | `spending_chart.dfy` |
| `DownloadSpendingPdf` | `spending_report.dfy` |
| `ImageUtils` | `image_utils.dfy` |

Shared modules:

- `Common`: ids, `Option`, `Result`, toasts.
- `Text`: `trim`, `parseInt`, integer `toString`.
- `Calendar`: days and the three date-fns formats.
- `Lists`: the id-keyed `map` and `filter` every page uses.
- `Sorting`: a stable sort with a numeric key.

Foreign inputs become parameters:

- `crypto.randomUUID()` is `freshId`.
- `parseFloat` is `string -> Option<real>`, with `None` for NaN.
- `Number#toString` for non-integers is `showReal`.
- `atob` is `string -> Option<string>`, with `None` when it throws.
- `new Date()` is `today`.
- The jsPDF page height is `pageHeight`.
- The list read from local storage is `stored`.

## Model

| member | source | states |
|---|---|---|
| Text.TrimStart | src/pages/TimeSchedule.tsx:45 | The result is a suffix of the input. Every character dropped is ECMAScript white space, and the result does not start with white space. |
| Text.TrimEnd | src/pages/TimeSchedule.tsx:45 | The result is a prefix of the input. Every character dropped is white space, and the result does not end with white space. |
| Text.BlankIffAllWhite | src/pages/TimeSchedule.tsx:45 | `s.trim() === ""` holds exactly when every character of `s` is white space, the empty text included. |
| Text.Decimal | src/components/workout/WorkoutList.tsx:41-42 | The decimal text of a natural number (what `toString` writes below 10^21) is non-empty and made of digits, with no leading zero. |
| Text.DigitPrefix | src/components/workout/WorkoutForm.tsx:40-41 | `parseInt` reads the longest run of digits at the front: every character taken is a digit, and the next one is not. |
| Text.ParseIntShow | src/components/workout/WorkoutList.tsx:41-48 | Reading back the decimal text of an integer gives the integer, negative ones included: `parseInt(n.toString()) === n` wherever `toString` writes decimal digits (magnitude below 10^21). |
| Calendar.DayNumberOrder | src/components/spending/ExpenseList.tsx:17 | The day number orders days as the calendar does and tells different days apart, so it can stand for `getTime()` in comparisons. |
| Calendar.Iso | src/components/spending/ExpenseForm.tsx:58 | `yyyy-MM-dd` is ten characters with `-` at positions 4 and 7. |
| Calendar.IsoInjective | src/components/spending/DownloadSpendingPDF.tsx:37-38 | Two days have the same `yyyy-MM-dd` text exactly when they are the same day. |
| Calendar.MonthDay | src/components/spending/SpendingChart.tsx:29 | `MMM dd` is six characters. |
| Calendar.MonthYear | src/components/spending/SpendingChart.tsx:31 | `MMM yyyy` is eight characters. |
| Calendar.MonthDayEqual | src/components/spending/SpendingChart.tsx:29 | Two days have the same `MMM dd` text exactly when month and day of month agree, whatever the year. |
| Calendar.MonthYearEqual | src/components/spending/SpendingChart.tsx:31 | Two days have the same `MMM yyyy` text exactly when month and year agree. |
| Lists.UpdateWhere | src/pages/TimeSchedule.tsx:57-59 | Same length. Entry `i` is rewritten when its id matches and is left as it is otherwise. |
| Lists.Filter | src/pages/TimeSchedule.tsx:65 | Every result is an accepted entry of the input. Every accepted entry is in the result. The result is a sub-multiset of the input. |
| Lists.FilterCount | src/pages/TimeSchedule.tsx:65 | `filter` keeps each accepted value exactly as often as it occurs and drops the others. |
| Lists.KeptPositions | src/pages/TimeSchedule.tsx:65 | The accepted positions are increasing, each is accepted, and all of them are listed. |
| Lists.FilterInOrder | src/pages/TimeSchedule.tsx:65 | The k-th entry `filter` keeps is the input's entry at the k-th accepted position, so relative order is kept. |
| Lists.Without | src/pages/TimeSchedule.tsx:65 | Deleting by id leaves only entries with another id, and every one of them. |
| Lists.WithoutInOrder | src/pages/TimeSchedule.tsx:64-65 | The survivors of a delete are exactly the entries with another id, in their original order. |
| Lists.AppendKeepsUniqueIds | src/pages/TimeSchedule.tsx:49-50 | Appending an entry whose id is unused keeps the ids unique. |
| Lists.UpdateKeepsUniqueIds | src/pages/TimeSchedule.tsx:57-59 | A `map` that does not touch ids keeps the ids unique. |
| Lists.FilterKeepsUniqueIds | src/pages/TimeSchedule.tsx:65 | A `filter` keeps the ids unique. |
| Sorting.Insert | src/components/spending/ExpenseList.tsx:17 | Inserting into a sorted list gives a sorted list with the same entries plus the new one. |
| Sorting.Sort | src/components/spending/ExpenseList.tsx:17 | The result is sorted by the key in the chosen direction and is a permutation of the input. |
| Sorting.SortAsc | src/components/spending/DownloadSpendingPDF.tsx:40 | `sort((a, b) => key(a) - key(b))` gives keys in non-decreasing order and a permutation of the input. |
| Sorting.SortDesc | src/components/spending/ExpenseList.tsx:17 | `sort((a, b) => key(b) - key(a))` gives keys in non-increasing order and a permutation of the input. |
| Sorting.InsertWithKey | src/components/spending/ExpenseList.tsx:17 | Among the entries with any one key, the inserted entry comes first (when it has that key) and the others keep their order. |
| Sorting.SortStable | src/components/spending/ExpenseList.tsx:17 | The sort is stable: for every key value, the entries with that key keep their input order. |
| Sorting.SortAscStable | src/components/spending/DownloadSpendingPDF.tsx:40 | The ascending sort is stable. |
| Sorting.SortDescStable | src/components/spending/ExpenseList.tsx:17 | The descending sort is stable. |
| TimeSchedule.InitialDailyTasksShape | src/pages/TimeSchedule.tsx:22-30 | The predefined day is seven tasks, none completed, with distinct ids. |
| TimeSchedule.Toggled | src/pages/TimeSchedule.tsx:55-60 | Same length. Only the `completed` flag of the entries with the id flips; ids and texts stay. |
| TimeSchedule.Renamed | src/pages/TimeSchedule.tsx:79-83 | Same length. Only the text of the entries with the id changes; ids and flags stay. |
| TimeSchedule.ToggleTwice | src/pages/TimeSchedule.tsx:55-60 | Toggling the same id twice restores the list. |
| TimeSchedule.HandlersKeepIdsUnique | src/pages/TimeSchedule.tsx:44-87 | Toggle, rename and delete keep ids unique, and so does adding a task under an unused id. |
| TimeSchedule.Page.constructor | src/pages/TimeSchedule.tsx:33-38 | The list is the stored one, or the predefined day when nothing valid is stored. The input is empty and no task is being edited. |
| TimeSchedule.Page.AddTask | src/pages/TimeSchedule.tsx:44-53 | A blank input raises the error and changes nothing. Otherwise it appends `{freshId, text, false}` at the end, keeps the earlier entries, clears the input and reports success. |
| TimeSchedule.Page.ToggleComplete | src/pages/TimeSchedule.tsx:55-62 | The list becomes `Toggled(old list, id)`, an info toast is raised, and every other field is kept. |
| TimeSchedule.Page.DeleteTask | src/pages/TimeSchedule.tsx:64-67 | The list becomes `Without(old list, id)` and the other fields are kept. |
| TimeSchedule.Page.EditTask | src/pages/TimeSchedule.tsx:69-72 | The editor opens on the id with the given text; the list and the input are kept. |
| TimeSchedule.Page.SaveEdit | src/pages/TimeSchedule.tsx:74-87 | A blank text raises the error and leaves the list and the edit state as they were, so the editor stays open. Otherwise it renames the matching tasks, closes the editor and clears its text. |
| SelfLearningTopics.Toggled | src/pages/SelfLearningTopics.tsx:61-66 | Same length. Only the `completed` flag of the matching topics flips. |
| SelfLearningTopics.Edited | src/pages/SelfLearningTopics.tsx:86-92 | Same length. Only title and description of the matching topics change; id and flag stay. |
| SelfLearningTopics.ToggleTwice | src/pages/SelfLearningTopics.tsx:61-66 | Toggling twice restores the list. |
| SelfLearningTopics.EditUnchanged | src/pages/SelfLearningTopics.tsx:75-92 | With unique ids, saving a topic's own title and description leaves the list unchanged. |
| SelfLearningTopics.HandlersKeepIdsUnique | src/pages/SelfLearningTopics.tsx:46-97 | Every handler keeps ids unique; adding does so provided the new id is unused. |
| SelfLearningTopics.Page.constructor | src/pages/SelfLearningTopics.tsx:30-40 | The list is the stored one, or empty. All inputs are empty and no topic is being edited. |
| SelfLearningTopics.Page.ClearNewTopic | src/pages/SelfLearningTopics.tsx:56-57 | Both add inputs become empty. |
| SelfLearningTopics.Page.CloseEditor | src/pages/SelfLearningTopics.tsx:93-95 | The editor is closed and its two inputs are empty. |
| SelfLearningTopics.Page.AddTopic | src/pages/SelfLearningTopics.tsx:46-59 | A blank title or description raises the error and changes nothing. Otherwise it appends one uncompleted topic at the end and clears both inputs. The edit state is kept. |
| SelfLearningTopics.Page.ToggleComplete | src/pages/SelfLearningTopics.tsx:61-68 | The list becomes `Toggled(old list, id)`, an info toast is raised, and the other fields are kept. |
| SelfLearningTopics.Page.DeleteTopic | src/pages/SelfLearningTopics.tsx:70-73 | The list becomes `Without(old list, id)` and the other fields are kept. |
| SelfLearningTopics.Page.EditTopic | src/pages/SelfLearningTopics.tsx:75-79 | The editor opens on the id with the given title and description. |
| SelfLearningTopics.Page.SaveEdit | src/pages/SelfLearningTopics.tsx:81-97 | A blank title or description leaves the list and all three edit fields unchanged. Otherwise it edits the matching topics and resets the three edit fields. |
| WorkoutForm.FieldsCheck | src/components/workout/WorkoutForm.tsx:44-59 | No check fails exactly when the name is not blank, sets and reps are positive numbers, and a gym workout has a positive weight. It never reports the date. |
| WorkoutForm.FieldsCheckOrder | src/components/workout/WorkoutForm.tsx:44-59 | Each message is raised exactly when its own check fails and every earlier check passes: name, then sets, then reps, then the gym weight. |
| WorkoutForm.SubmitOutcomeCharacterised | src/components/workout/WorkoutForm.tsx:38-71 | A submit succeeds exactly when all five checks pass. It then emits the name, the parsed sets and reps, the parsed weight for gym, no weight for home whatever was typed, and the picked day. A missing date after passing fields is rejected with its own message. |
| WorkoutForm.SubmittedIsSound | src/components/workout/WorkoutForm.tsx:44-71 | Every emitted record has a visible name and positive sets and reps. It has a positive weight when gym and no weight when home. |
| WorkoutForm.Form.constructor | src/components/workout/WorkoutForm.tsx:32-36 | The text fields are empty and the date picker is on today. |
| WorkoutForm.Form.Reset | src/components/workout/WorkoutForm.tsx:73-77 | The four texts become empty and the date becomes today. |
| WorkoutForm.Form.Submit | src/components/workout/WorkoutForm.tsx:38-79 | On the first failed check it raises that check's message, emits nothing and changes no field. On success it emits the outcome's record, resets the fields and raises the success toast. |
| WorkoutList.SortedWorkouts | src/components/workout/WorkoutList.tsx:36 | The display list is a permutation of the workouts with no day before a later one: newest first. |
| WorkoutList.SortedWorkoutsStable | src/components/workout/WorkoutList.tsx:36 | Workouts of the same day keep their stored order. |
| WorkoutList.PlaceholderIffEmpty | src/components/workout/WorkoutList.tsx:84-85 | The placeholder shows exactly when there are no workouts. |
| WorkoutList.SaveEditAgreesWithForm | src/components/workout/WorkoutList.tsx:51-73 | The editor rejects exactly what the form rejects, when a date is picked, and with the same message. When it saves, it carries the same name, sets, reps and weight the form would emit. |
| WorkoutList.SavedIsSound | src/components/workout/WorkoutList.tsx:51-73 | Every update the editor emits has no id and carries a sound name, sets, reps and weight. |
| WorkoutList.EditRoundTrip | src/components/workout/WorkoutList.tsx:38-73 | Opening the editor on a sound workout and saving at once emits that workout's own name, sets, reps and weight. This needs `parseFloat` to read back the weight's text. |
| WorkoutList.SoundShowsWeightOnGymOnly | src/components/workout/WorkoutList.tsx:154 | For sound records, the ` at …kg` suffix shows exactly on gym workouts. |
| WorkoutList.Editor.constructor | src/components/workout/WorkoutList.tsx:30-34 | Nothing is being edited and all edit texts are empty. |
| WorkoutList.Editor.EditClick | src/components/workout/WorkoutList.tsx:38-44 | The editor opens on the workout's id with its name, the decimal text of sets and reps, and the weight's text, or "" when there is none. |
| WorkoutList.Editor.SaveEdit | src/components/workout/WorkoutList.tsx:46-76 | On a failed check it raises its message, calls nothing and stays in edit mode. On success it emits `(id, patch)`, leaves edit mode and raises the success toast. The texts are kept in both cases. |
| WorkoutTypeSection.StorageKeysDistinct | src/components/workout/WorkoutTypeSection.tsx:13 | The keys are `workoutLog_homeWorkouts` and `workoutLog_gymWorkouts`, and they differ. |
| WorkoutTypeSection.Logged | src/components/workout/WorkoutTypeSection.tsx:24 | The added record carries the emitted fields unchanged, the fresh id, and `completed: false`. |
| WorkoutTypeSection.Toggled | src/components/workout/WorkoutTypeSection.tsx:27-33 | Same length. Only the matching workouts change, and only in `completed`. |
| WorkoutTypeSection.MergedProperties | src/components/workout/WorkoutTypeSection.tsx:42 | The object spread gives each of the seven keys the update's value when the update holds that key and the workout's own value otherwise. The empty update changes nothing, and merging twice is merging once. |
| WorkoutTypeSection.Edited | src/components/workout/WorkoutTypeSection.tsx:39-45 | Same length. The matching workouts get the update merged in; the others are unchanged. |
| WorkoutTypeSection.EditWithoutChangesKeepsLog | src/components/workout/WorkoutTypeSection.tsx:39-45 | Opening the editor on a sound entry and saving at once leaves the whole log unchanged. |
| WorkoutTypeSection.EditKeepingEntryKeepsLog | src/components/workout/WorkoutTypeSection.tsx:39-45 | With unique ids, an update that leaves the entry as it is leaves the log as it is. |
| WorkoutTypeSection.ToggleKeepsLogSound | src/components/workout/WorkoutTypeSection.tsx:27-33 | Toggling keeps every workout sound. |
| WorkoutTypeSection.DeleteKeepsLogSound | src/components/workout/WorkoutTypeSection.tsx:35-37 | Deleting keeps every workout sound. |
| WorkoutTypeSection.AddKeepsLogSound | src/components/workout/WorkoutTypeSection.tsx:22-25 | Appending a sound record keeps the log sound. |
| WorkoutTypeSection.EditKeepsLogSound | src/components/workout/WorkoutTypeSection.tsx:39-45 | Merging an update the editor saved keeps the log sound. |
| WorkoutTypeSection.HandlersKeepLogSound | src/components/workout/WorkoutTypeSection.tsx:22-45 | The section's handler does not validate. Still, a sound log stays sound when records come from the form and updates from the editor. |
| WorkoutTypeSection.HandlersKeepIdsUnique | src/components/workout/WorkoutTypeSection.tsx:22-45 | Toggle, delete, adding under an unused id, and an update without an id all keep ids unique. |
| WorkoutTypeSection.Section.constructor | src/components/workout/WorkoutTypeSection.tsx:13-16 | The log is the stored list, or empty. |
| WorkoutTypeSection.Section.AddWorkout | src/components/workout/WorkoutTypeSection.tsx:22-25 | It appends exactly the logged record at the end, with no check. |
| WorkoutTypeSection.Section.ToggleComplete | src/components/workout/WorkoutTypeSection.tsx:27-33 | The log becomes `Toggled(old log, id)`. |
| WorkoutTypeSection.Section.DeleteWorkout | src/components/workout/WorkoutTypeSection.tsx:35-37 | The log becomes `Without(old log, id)`. |
| WorkoutTypeSection.Section.EditWorkout | src/components/workout/WorkoutTypeSection.tsx:39-45 | The log becomes `Edited(old log, id, patch)`. |
| SpendingTracker.Recorded | src/pages/SpendingTracker.tsx:34 | The added expense carries the fresh id and the emitted amount, category and day unchanged. |
| SpendingTracker.TotalSpentAppend | src/components/spending/DownloadSpendingPDF.tsx:77 | Adding an expense adds its amount to the total. |
| SpendingTracker.HandlersKeepIdsUnique | src/pages/SpendingTracker.tsx:32-41 | Deleting, and adding under an unused id, keep ids unique. |
| SpendingTracker.Page.constructor | src/pages/SpendingTracker.tsx:23-26 | The list is the stored one, or empty, and the view is daily. |
| SpendingTracker.Page.AddExpense | src/pages/SpendingTracker.tsx:32-36 | It appends the recorded expense at the end, with no check, and reports success. The view mode is kept. |
| SpendingTracker.Page.DeleteExpense | src/pages/SpendingTracker.tsx:38-41 | The list becomes `Without(old list, id)` and the view mode is kept. |
| SpendingTracker.Page.ChangeViewMode | src/pages/SpendingTracker.tsx:56 | An empty value keeps the mode, so a mode is always selected. `daily` and `monthly` select that mode. |
| ExpenseForm.SubmitOutcomeCharacterised | src/components/spending/ExpenseForm.tsx:40-59 | A submit succeeds exactly when the amount parses positive, a category is set and a day is picked. Each error is raised exactly when its own check fails and the earlier ones pass. The emitted expense is the parsed amount, the category and the day. |
| ExpenseForm.CategoryMembershipNotChecked | src/components/spending/ExpenseForm.tsx:46-49 | Any non-empty category passes like one from the list, e.g. `Travel`, which is not in the list. |
| ExpenseForm.Form.constructor | src/components/spending/ExpenseForm.tsx:34-36 | The amount and category are empty and the date is today. |
| ExpenseForm.Form.Submit | src/components/spending/ExpenseForm.tsx:38-64 | On failure it raises that check's message, emits nothing and keeps every field. On success it emits the expense, resets amount and category to "" and the date to today, and raises no toast. |
| ExpenseList.SortedExpenses | src/components/spending/ExpenseList.tsx:17 | The display list is a permutation of the expenses, newest day first. The page's list itself is a value and is not reordered. |
| ExpenseList.SortedExpensesStable | src/components/spending/ExpenseList.tsx:17 | Expenses of the same day keep their stored order. |
| ExpenseList.PlaceholderIffEmpty | src/components/spending/ExpenseList.tsx:25-26 | The placeholder shows exactly when there are no expenses. |
| SpendingChart.ChartKeyEqual | src/components/spending/SpendingChart.tsx:28-32 | Two days share a monthly bar exactly when month and year agree. They share a daily bar exactly when month and day agree, so the same date in different years is merged. |
| SpendingChart.Keys | src/components/spending/SpendingChart.tsx:33-37 | The keys `Object.keys` lists are pairwise distinct. There are no more of them than expenses, and every expense's group is among them. |
| SpendingChart.KeysAreGroups | src/components/spending/SpendingChart.tsx:33-37 | Every listed key is the group of some expense. |
| SpendingChart.TotalForIsGroupTotal | src/components/spending/SpendingChart.tsx:25-34 | A key's accumulated value is the total of the expenses that map to that key. |
| SpendingChart.Points | src/components/spending/SpendingChart.tsx:37-41 | There is one point per key, in key order, named by the key and holding its group's total. |
| SpendingChart.TallyStep | src/components/spending/SpendingChart.tsx:33 | One accumulation step (the key's old total, or 0 when it has none, plus the amount; a new key goes last) keeps the dictionary and its key order equal to the tally of the expenses seen. |
| SpendingChart.Tally | src/components/spending/SpendingChart.tsx:25-34 | After the `forEach`, the dictionary holds exactly the keys of the expenses, in first-seen order, each with its group's total. |
| SpendingChart.AggregateData | src/components/spending/SpendingChart.tsx:22-41 | The array built from the dictionary is the chart data of the expenses and the mode. |
| SpendingChart.ChartTotalsSum | src/components/spending/SpendingChart.tsx:25-41 | The totals of the bars add up to everything spent. |
| SpendingChart.EveryGroupHasBar | src/components/spending/SpendingChart.tsx:37-41 | Every expense's group has a bar. |
| SpendingChart.EveryBarIsAGroup | src/components/spending/SpendingChart.tsx:37-41 | Every bar is the group of some expense. |
| SpendingChart.ChartBarsAreGroups | src/components/spending/SpendingChart.tsx:37-41 | The bar names are pairwise distinct and there is one bar per group, so there are no more bars than expenses. |
| SpendingChart.ChartBarTotals | src/components/spending/SpendingChart.tsx:25-41 | Each bar's total is the sum of the amounts of the expenses of its group. |
| SpendingChart.ChartEmptyIff | src/components/spending/SpendingChart.tsx:54-60 | The chart data is empty, and the placeholder shows, exactly when there are no expenses. |
| DownloadSpendingPdf.InRangeInclusive | src/components/spending/DownloadSpendingPDF.tsx:34-39 | The filter keeps an expense exactly when its day lies between start and end, both included. |
| DownloadSpendingPdf.SelectedCounts | src/components/spending/DownloadSpendingPDF.tsx:34-40 | Each expense in the range is listed as often as it is stored; nothing else is listed. |
| DownloadSpendingPdf.SelectedInRange | src/components/spending/DownloadSpendingPDF.tsx:34-39 | Every listed expense lies in the range. |
| DownloadSpendingPdf.SelectedChronological | src/components/spending/DownloadSpendingPDF.tsx:40 | The listed expenses are oldest first. |
| DownloadSpendingPdf.SelectedStable | src/components/spending/DownloadSpendingPDF.tsx:40 | Expenses of the same day keep their stored order. |
| DownloadSpendingPdf.FlowStep | src/components/spending/DownloadSpendingPDF.tsx:63-79 | One more expense extends the layout by the lines written for it and moves the cursor once. |
| DownloadSpendingPdf.EntriesOfWritten | src/components/spending/DownloadSpendingPDF.tsx:64-76 | The lines written for one expense, with or without a page break, hold exactly one entry, for that expense. |
| DownloadSpendingPdf.FlowListsEntries | src/components/spending/DownloadSpendingPDF.tsx:63-79 | The loop writes exactly one entry line per expense, in order. |
| DownloadSpendingPdf.EntriesFit | src/components/spending/DownloadSpendingPDF.tsx:64-70 | No entry line comes within two lines of the bottom margin, given a page tall enough for a heading and one entry. |
| DownloadSpendingPdf.FlowPages | src/components/spending/DownloadSpendingPDF.tsx:63-70 | Pages never go back, and each expense adds at most one page. |
| DownloadSpendingPdf.FileName | src/components/spending/DownloadSpendingPDF.tsx:85 | The file name is 44 characters. |
| DownloadSpendingPdf.FileNameInjective | src/components/spending/DownloadSpendingPDF.tsx:85 | Two reports have the same file name exactly when they cover the same start and end. |
| DownloadSpendingPdf.LayoutEntries | src/components/spending/DownloadSpendingPDF.tsx:53-83 | The document's entry lines are exactly the selected expenses, in order. |
| DownloadSpendingPdf.LayoutContents | src/components/spending/DownloadSpendingPDF.tsx:53-83 | The document starts with the title and the range, lists exactly the expenses in order, and ends with their total. |
| DownloadSpendingPdf.LayoutFits | src/components/spending/DownloadSpendingPDF.tsx:47-79 | The document has 1 to n+1 pages and every line is on one of them. No entry is written within two lines of the bottom margin. |
| DownloadSpendingPdf.WriteReport | src/components/spending/DownloadSpendingPDF.tsx:47-85 | The `yPos` loop with its page breaks and running total produces exactly the layout. |
| DownloadSpendingPdf.SelectedNonEmpty | src/components/spending/DownloadSpendingPDF.tsx:42-45 | There is something to report exactly when some expense lies in the range. |
| DownloadSpendingPdf.DownloadedIff | src/components/spending/DownloadSpendingPDF.tsx:24-45 | A report is saved exactly when both days are chosen, the end is not before the start, and some expense lies in the range. |
| DownloadSpendingPdf.DownloadReport | src/components/spending/DownloadSpendingPDF.tsx:24-87 | Each outcome raises its own toast. It produces a report only on success, and that report is the layout of the selected expenses. |
| ImageUtils.PlanCrop | src/lib/imageUtils.ts:10-45 | It fails exactly when there is no 2d context, with that message. Otherwise: the canvas side is twice the longer side; the image is drawn centred and inside the canvas; the draw position equals the offset; the read rectangle is the crop shifted by the offset with its size kept; the output has the crop's size. |
| ImageUtils.CropInsideImageStaysOnCanvas | src/lib/imageUtils.ts:34-41 | A crop inside the image is read from inside the canvas. |
| ImageUtils.IndexOf | src/lib/imageUtils.ts:59 | The index found holds the separator, and none comes before it; `None` means there is no separator. |
| ImageUtils.Split | src/lib/imageUtils.ts:59 | `split` gives at least one piece, and no piece holds the separator. |
| ImageUtils.JoinSplit | src/lib/imageUtils.ts:59 | Joining the pieces with the separator gives back the text. |
| ImageUtils.SplitJoin | src/lib/imageUtils.ts:59 | Splitting pieces joined by a separator they do not contain gives back those pieces. |
| ImageUtils.SemicolonFrom | src/lib/imageUtils.ts:60 | It finds the one `;` the lazy `.*?` reaches, or reports that none is reachable. |
| ImageUtils.MatchFrom | src/lib/imageUtils.ts:60 | It finds the leftmost match of `/:(.*?);/`, or reports that none exists. |
| ImageUtils.MimeOfCharacterised | src/lib/imageUtils.ts:60-61 | The mime type is the text between the leftmost matching `:` and its `;`, or `image/jpeg` when nothing matches. |
| ImageUtils.ReachesUnique | src/lib/imageUtils.ts:60 | A match's `;` is determined by its `:`. |
| ImageUtils.MimeOfDataHeader | src/lib/imageUtils.ts:60-61 | The header `data:<type>;base64` gives `<type>`. |
| ImageUtils.DataUrlParts | src/lib/imageUtils.ts:59-62 | With no comma in the URL, the mime type is read from the whole URL and the payload is "undefined". Otherwise the mime type is read from the text before the first comma. The payload is then a comma-free prefix of the text after it, ending at the next comma or at the end. |
| ImageUtils.DataUrlToFile | src/lib/imageUtils.ts:58-69 | When `atob` throws, so does the function. Otherwise the file has the given name and the extracted mime type, and one byte per decoded character: the code modulo 256. |
| ImageUtils.BytesKeepByteStrings | src/lib/imageUtils.ts:62-66 | For a byte string, as `atob` returns, every byte is exactly the character's code. |

## Left out

- Local storage (`src/lib/localStorage.ts` is not part of this model). Loading is the constructors' `stored` parameter, with `None` when the key is missing or the JSON is invalid. The save effects are not modelled.
- Toasts are returned values; the sonner library is not modelled.
- Rendering: JSX, the component library, and the jsPDF font and drawing calls are not modelled. The report is modelled as the list of lines written, with the page and `yPos` of each.
- `toFixed(2)` and date-fns `PPP` formatting are not modelled. Report lines keep the expense, the range or the total as values; the texts they would print are not modelled.
- `crypto.randomUUID` is the `freshId` parameter. Uniqueness of ids is proved under the assumption that the new id is unused.
- Floating point is not modelled. Amounts and weights are exact `real`s, so rounding in the running totals and NaN or Infinity amounts are not modelled.
- `parseFloat`, `Number#toString` for non-integers and `atob` are parameters. For `atob`, `None` stands for the `InvalidCharacterError` it throws.
- `Text.ParseInt`: the result is an exact integer, so the precision lost on integers beyond 2^53 is not modelled.
- `Text.IntToString`: writes decimal digits for every integer. JavaScript writes integers of magnitude 10^21 or more in exponent form (`1e+21`), and `parseInt` reads that back as 1. That form is not modelled, so `Text.ParseIntShow` and `WorkoutList.EditRoundTrip` describe the program only for sets and reps below 10^21 in magnitude.
- Dates are calendar days from year 0 to 9999. This model does not represent times of day, time zones or date-fns string parsing. `Calendar.DayNumber` stands for `getTime()` in comparisons, and `Calendar.Iso` for the stored `yyyy-MM-dd` text. Date fields of records are those days rather than strings.
- `SpendingChart.AggregateData`: stops before the final `sort` of the chart data (`SpendingChart.tsx:42-47`). That comparator parses strings such as `Jan 01` with `new Date`, which is implementation-defined. The bars are therefore stated in `Object.keys` order, the first-seen order of their keys.
- `ImageUtils.PlanCrop`: rotation and the canvas calls (`drawImage`, `getImageData`, `putImageData`, `toBlob`, `createObjectURL`) are not modelled. Only the geometry is. Sizes are exact reals, so the truncation of a non-integer `canvas.width` and `canvas.height` to an integer is not modelled. A missing 2d context is an `Err` result rather than a thrown exception.
- `createImage`, the asynchronous image loading, is not modelled.
- The code neither clamps an out-of-canvas crop nor rejects it; the model follows the code. `ImageUtils.CropInsideImageStaysOnCanvas` states when the read stays on the canvas.
- Dafny characters are Unicode scalar values, while JavaScript strings are UTF-16 code units. Lengths and positions in text with characters beyond U+FFFF are therefore not modelled; the byte strings `atob` returns are unaffected.
- The wiring of the list rows is not modelled: the blur and Enter events that call the editor's save, and the extra second argument a row's checkbox passes to `onToggleComplete`, which the section ignores.
- `DownloadSpendingPdf.DownloadReport`: `pageHeight` is a parameter. The jsPDF default A4 page is 297 units high, and `LayoutFits` holds for any page of at least 48.
- `SpendingTracker.Page.ChangeViewMode`: its precondition restricts the value to the three strings the toggle group can hand over. The handler's TypeScript type allows no others.
