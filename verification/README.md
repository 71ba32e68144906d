# Task Manager core, modelled in Dafny

The Task Manager app lets a user type a name, pick a date on a month
calendar, and keep a list of tasks for that date. A task has a title, a
description, an importance flag, a month and a day. All of its logic sits
in Compose callbacks in `MainActivity.kt`. This project lifts that logic out
and models it in Dafny:

- **Task store** (`tasks.dfy`, module `Tasks`). The `Task` record and the
  view model's list of tasks. The list is a class whose `seq` field is
  updated in place. It supports three changes: `add` appends; `tasks[i] =`
  overwrites one position; `remove` drops the first equal element. Two
  specification functions describe what the screen does with them: `Edited`
  looks a task up by title, description, day and month, and `RemovedFirst`
  uses equality on all five fields.
- **Day query** (`query.dfy`, module `DayQuery`). `filter` on month and day,
  then a stable `sortedByDescending { isImportant }`. The Kotlin collection
  operations it uses are in `lists.dfy` (module `Lists`). The sort is
  modelled as an insertion sort on a Boolean key. It is proved equal to "the
  important tasks, then the others, each group in input order".
- **Calendar arithmetic** (`calendar.dfy`, module `Calendar`; `grid.dfy`,
  module `CalendarGrid`). This is the part of `java.time` the calendar
  uses: `Month`, `LocalDate` (a date that `LocalDate.of` accepts), leap
  years, `lengthOfMonth`, `toEpochDay` and the ISO day of the week. It
  follows the proleptic Gregorian calendar of ISO 8601:2004, section 3.2.1,
  with Monday = 1 … Sunday = 7 as in section 3.2.2. From these come the
  grid's leading blanks, its day cells with their "has task" flag, the
  date a click selects, and the year picker's seven years.
- **Screens** (`screens.dfy`, module `Screens`). Three classes hold the
  `var` state the composables keep. `AppScreen` holds the router's three
  flags, the name and the selected date; `Shown()` reads the flags in the
  `when`'s priority order. `CalendarScreen` holds the year and month on
  show. `TaskListScreen` holds the add/edit dialog's form and writes to
  the store.

The model follows the code as written, including two behaviours the
authors evidently did not intend (see "## Findings"):

- The calendar flag compares `task.day` with the 0-based cell index.
- The edit key ignores `isImportant`.

One further fact about the code the model keeps:

- Removal compares all five fields, as data-class equality does.

Other facts the model makes explicit:

- `showTaskListScreen` starts false and is only ever assigned false.
  `AppScreen.Valid` records this.
- Cancelling the dialog keeps the edit snapshot. A later "Add Task" then
  edits instead of adding (`CancelledEditScenario`).

## Model

| member | source | states |
|---|---|---|
| `Calendar.Month.Value` | app/src/main/java/com/example/taskmanager/MainActivity.kt:170-171 | `Month.value` lies in 1..12 |
| `Calendar.LengthOfMonth` | app/src/main/java/com/example/taskmanager/MainActivity.kt:170 | a month has 28 to 31 days; February has 29 in a Gregorian leap year and 28 otherwise; other months have at least 30 |
| `Calendar.DayOfWeek` | app/src/main/java/com/example/taskmanager/MainActivity.kt:171 | the ISO day of the week lies in 1..7 (Monday = 1) |
| `Calendar.MonthFollows` | app/src/main/java/com/example/taskmanager/MainActivity.kt:170-171 | each month begins the day after the previous month ends; December ends where the year ends |
| `Calendar.YearFollows` | app/src/main/java/com/example/taskmanager/MainActivity.kt:170-171 | each year begins where the previous one ends (365 or 366 days later) |
| `Calendar.NextDayIsOneLater` | app/src/main/java/com/example/taskmanager/MainActivity.kt:171 | the next calendar date, across month and year ends, is exactly one epoch day later |
| `Calendar.DayOfWeekAdvances` | app/src/main/java/com/example/taskmanager/MainActivity.kt:171 | the day of the week of the next date is one more, Sunday wrapping to Monday; with the anchors this determines the weekday of every date |
| `Calendar.DayOfWeekInMonth` | app/src/main/java/com/example/taskmanager/MainActivity.kt:171-178 | day k + 1 of a month falls k weekdays after the 1st |
| `Calendar.DayOfWeekAnchors` | app/src/main/java/com/example/taskmanager/MainActivity.kt:171 | 1970-01-01 is epoch day 0 and a Thursday; 2024-01-01 is a Monday |
| `Lists.Filter` | app/src/main/java/com/example/taskmanager/MainActivity.kt:197 | `filter` keeps exactly the elements satisfying the predicate and is no longer than its input |
| `Lists.FilterMultiset` | app/src/main/java/com/example/taskmanager/MainActivity.kt:197 | `filter` keeps every copy of a satisfying element and no copy of another |
| `Lists.IndexOfFirst` | app/src/main/java/com/example/taskmanager/MainActivity.kt:245 | `indexOfFirst` is -1 exactly when no element matches; otherwise it is a matching index with no match before it |
| `Lists.SortedByDescending` | app/src/main/java/com/example/taskmanager/MainActivity.kt:198 | `sortedByDescending` on a Boolean key returns a permutation of its input with every true-key element before every false-key one |
| `Lists.PartitionMultiset` | app/src/main/java/com/example/taskmanager/MainActivity.kt:198 | splitting by a predicate and its negation loses and duplicates nothing |
| `Lists.SortedIsPartition` | app/src/main/java/com/example/taskmanager/MainActivity.kt:198 | the stable sort on a Boolean key, descending, equals the true-key elements followed by the false-key ones, each group in input order |
| `Tasks.Edited` | app/src/main/java/com/example/taskmanager/MainActivity.kt:244-254 | an edit keeps the length; it overwrites the first task whose title, description, day and month equal the snapshot's, and only that position; with no such task the list is unchanged |
| `Tasks.EditIgnoresImportance` | app/src/main/java/com/example/taskmanager/MainActivity.kt:245 | the snapshot's `isImportant` does not affect which task is edited |
| `Tasks.RemovedFirst` | app/src/main/java/com/example/taskmanager/MainActivity.kt:312 | remove drops the first element equal on all five fields and keeps the others in order; an absent task leaves the list unchanged; the multiset loses one copy |
| `Tasks.TaskViewModel.constructor` | app/src/main/java/com/example/taskmanager/MainActivity.kt:45-47 | the store starts empty |
| `Tasks.TaskViewModel.Add` | app/src/main/java/com/example/taskmanager/MainActivity.kt:256-264 | `add` appends exactly one task at the end and changes nothing before it |
| `Tasks.TaskViewModel.Set` | app/src/main/java/com/example/taskmanager/MainActivity.kt:247-253 | indexed assignment changes that one position only |
| `Tasks.TaskViewModel.Remove` | app/src/main/java/com/example/taskmanager/MainActivity.kt:312 | `remove` reports whether the task was present and leaves the list as `RemovedFirst` describes |
| `Tasks.EditHitsEarlierTwin` | app/src/main/java/com/example/taskmanager/MainActivity.kt:245-253 | counterexample: editing the important twin of an earlier task, without change, overwrites the earlier task |
| `Tasks.EditedExact` | app/src/main/java/com/example/taskmanager/MainActivity.kt:245-253 | corrected edit: the replacement takes the position of the first task equal to the snapshot on all five fields, every other position unchanged; the multiset loses one copy of the edited task and gains the replacement; an absent task leaves the list unchanged |
| `Tasks.ExactEditKeepsTwins` | app/src/main/java/com/example/taskmanager/MainActivity.kt:245-253 | with the corrected edit, the twin scenario changes nothing |
| `DayQuery.Query` | app/src/main/java/com/example/taskmanager/MainActivity.kt:195-200 | the query holds exactly the stored tasks of that month and day, with their multiplicities; every important task comes before every other |
| `DayQuery.QueryFacts` | app/src/main/java/com/example/taskmanager/MainActivity.kt:197-198 | the query is that day's important tasks followed by its other tasks |
| `DayQuery.QueryIsStable` | app/src/main/java/com/example/taskmanager/MainActivity.kt:198 | within the important tasks, and within the others, the query keeps store order |
| `DayQuery.QueryAfterAdd` | app/src/main/java/com/example/taskmanager/MainActivity.kt:195-264 | an added task appears once more in its own day's query and in no other |
| `DayQuery.PayBillsThenBirthday` | app/src/main/java/com/example/taskmanager/MainActivity.kt:195-200 | "Pay bills" then the important "Birthday" on March 5 are listed as [Birthday, Pay bills] |
| `CalendarGrid.LeadingBlanks` | app/src/main/java/com/example/taskmanager/MainActivity.kt:171-174 | the grid opens with between 0 and 6 blanks, one fewer than the 1st's ISO weekday |
| `CalendarGrid.Grid` | app/src/main/java/com/example/taskmanager/MainActivity.kt:173-179 | the grid has the leading blanks followed by one day cell per day of the month, labelled 1 upwards |
| `CalendarGrid.DayHasTask` | app/src/main/java/com/example/taskmanager/MainActivity.kt:177 | as written, the flag for 0-based index `index` is set exactly when the filter for that month and day `index` keeps a task |
| `CalendarGrid.YearRange` | app/src/main/java/com/example/taskmanager/MainActivity.kt:404 | the year picker offers 7 consecutive years, ascending from currentYear - 3 to currentYear + 3, and no others |
| `CalendarGrid.ColumnIsDayOfWeek` | app/src/main/java/com/example/taskmanager/MainActivity.kt:141-178 | every day cell sits under the weekday header ("Mon" … "Sun") of the date it shows |
| `CalendarGrid.FlagShowsPreviousDay` | app/src/main/java/com/example/taskmanager/MainActivity.kt:175-178 | as written, the cell labelled d + 1 is flagged exactly when day d's list is non-empty |
| `CalendarGrid.FlagMissesTaskDay` | app/src/main/java/com/example/taskmanager/MainActivity.kt:177-178 | counterexample: with one task on March 5, cell 5 is unflagged and cell 6 is flagged |
| `CalendarGrid.IntendedFlagMatchesList` | app/src/main/java/com/example/taskmanager/MainActivity.kt:177-178 | the corrected flag is set exactly when the list the cell opens is non-empty |
| `CalendarGrid.GridExamples` | app/src/main/java/com/example/taskmanager/MainActivity.kt:170-174 | February has 29 days in 2024 and 28 in 2023; May 2024 starts on a Wednesday, so its grid opens with 2 blanks |
| `Screens.DisplayName` | app/src/main/java/com/example/taskmanager/MainActivity.kt:288 | the greeting's name is never blank: "Guest" for a blank name, otherwise the name itself |
| `Screens.AppScreen.Shown` | app/src/main/java/com/example/taskmanager/MainActivity.kt:84-102 | the welcome screen shows exactly when its flag is set; otherwise the calendar exactly when its flag is set; otherwise the task list |
| `Screens.AppScreen.TaskListArguments` | app/src/main/java/com/example/taskmanager/MainActivity.kt:100 | the task list gets the user's name and the month and day of the selected date, which form a valid date of its year |
| `Screens.AppScreen.constructor` | app/src/main/java/com/example/taskmanager/MainActivity.kt:71-75 | the app starts on the welcome screen with an empty name and today's date |
| `Screens.AppScreen.NameEntered` | app/src/main/java/com/example/taskmanager/MainActivity.kt:86-90 | entering a name stores it verbatim and shows the calendar; the welcome screen is left for good; the tasks are untouched |
| `Screens.AppScreen.DateSelected` | app/src/main/java/com/example/taskmanager/MainActivity.kt:93-96 | selecting a date stores it and moves from the calendar to the task list; the tasks are untouched |
| `Screens.AppScreen.Back` | app/src/main/java/com/example/taskmanager/MainActivity.kt:78-81 | back from the task list shows the calendar, never the welcome screen; name, date and tasks are kept |
| `Screens.CalendarScreen.constructor` | app/src/main/java/com/example/taskmanager/MainActivity.kt:137-138 | the calendar opens on the current year and month |
| `Screens.CalendarScreen.YearChange` | app/src/main/java/com/example/taskmanager/MainActivity.kt:148 | picking a year, one of the seven the picker offers, changes the year only |
| `Screens.CalendarScreen.MonthChange` | app/src/main/java/com/example/taskmanager/MainActivity.kt:149 | picking a month changes the month only |
| `Screens.CalendarScreen.DayClick` | app/src/main/java/com/example/taskmanager/MainActivity.kt:178 | clicking day cell d selects (year, month, d + 1), the day its label shows, which falls on its column's weekday |
| `Screens.TaskListScreen.constructor` | app/src/main/java/com/example/taskmanager/MainActivity.kt:189-206 | the screen starts with no task being edited, empty fields and the dialog closed |
| `Screens.TaskListScreen.SortedTasks` | app/src/main/java/com/example/taskmanager/MainActivity.kt:195-200 | the list shows exactly the stored tasks of the screen's month and day, important ones first, recomputed from the store |
| `Screens.TaskListScreen.Greeting` | app/src/main/java/com/example/taskmanager/MainActivity.kt:288 | the heading is "Welcome, " followed by a name that is never blank: the user's name, or "Guest" for a blank one |
| `Screens.TaskListScreen.DialogTitle` | app/src/main/java/com/example/taskmanager/MainActivity.kt:218 | the dialog is titled with the title of the task being edited, or "New Task" when none is; `TaskEditClick` and `Confirm` prove which title each leaves, and `CancelledEditScenario` that a cancelled edit keeps its title |
| `Screens.TaskListScreen.FormTask` | app/src/main/java/com/example/taskmanager/MainActivity.kt:247-263 | the task confirm writes carries the three form fields and falls on the screen's month and day |
| `Screens.TaskListScreen.SetShowDialog` | app/src/main/java/com/example/taskmanager/MainActivity.kt:208-210 | opening or closing the dialog (also dismiss and Cancel) changes nothing else |
| `Screens.TaskListScreen.TitleChange` | app/src/main/java/com/example/taskmanager/MainActivity.kt:223 | typing in the title field changes the title only |
| `Screens.TaskListScreen.DescriptionChange` | app/src/main/java/com/example/taskmanager/MainActivity.kt:228 | typing in the description field changes the description only |
| `Screens.TaskListScreen.ImportantChange` | app/src/main/java/com/example/taskmanager/MainActivity.kt:234 | the checkbox changes the importance flag only |
| `Screens.TaskListScreen.TaskEditClick` | app/src/main/java/com/example/taskmanager/MainActivity.kt:302-309 | opening a task for editing remembers it, pre-fills all three fields from it and opens the dialog |
| `Screens.TaskListScreen.Confirm` | app/src/main/java/com/example/taskmanager/MainActivity.kt:242-272 | with no task being edited, confirm appends the form's task on the screen's day, which then shows in the list; while editing, the store becomes `Edited`; the form is reset either way |
| `Screens.TaskListScreen.TaskRemoveClick` | app/src/main/java/com/example/taskmanager/MainActivity.kt:310-314 | the delete button removes the first equal task, closes the dialog and keeps the form |
| `Screens.PayBillsScenario` | app/src/main/java/com/example/taskmanager/MainActivity.kt:84-100 | entering a name, picking March 5 and adding "Pay bills" then an important "Birthday" lists Birthday first |
| `Screens.CancelledEditScenario` | app/src/main/java/com/example/taskmanager/MainActivity.kt:278 | cancelling an edit keeps its snapshot, so the next "Add Task" overwrites that task and appends nothing |

## Findings

| source | as written | input that shows it | evidently intended | confidence | as-written member | corrected member |
|---|---|---|---|---|---|---|
| app/src/main/java/com/example/taskmanager/MainActivity.kt:177 | the flag compares `task.day` with the 0-based cell index `day`, while the cell shows and opens `day + 1` | one task on March 5: the cell labelled 5 is not flagged; the cell labelled 6, whose list is empty, is | flag the cell whose own list is non-empty (`task.day == day + 1`) | high; not executed | `CalendarGrid.FlagMissesTaskDay` (with `CalendarGrid.FlagShowsPreviousDay` for all inputs) | `CalendarGrid.IntendedFlagMatchesList` |
| app/src/main/java/com/example/taskmanager/MainActivity.kt:245 | the edit looks the task up by title, description, day and month, not by `isImportant` | store [Pay bills, the same task marked important]; edit the important one and confirm unchanged: the store becomes two copies of the important task | overwrite the task the user opened | medium; not executed | `Tasks.EditHitsEarlierTwin` | `Tasks.EditedExact` |

The corrected members are proved beside the as-written ones. The screens
(`Grid`, `TaskListScreen.Confirm`) keep the code's behaviour.

## Left out

- Compose rendering and layout: `Column`, `LazyColumn`, `LazyVerticalGrid`, `Card`, `DayCell`, `TaskItem`, colours, dialog composition. This is presentation with no logic beyond the flags modelled.
- `MainActivity.onCreate`, the `ViewModel` lifecycle, the theme and `@RequiresApi`. This is Android plumbing.
- `LocalDate.now()` and `Year.now()` read the clock. They are the `today` parameter of the `AppScreen` and `CalendarScreen` constructors.
- `Log.d` and the joined year string at lines 408-409. These are output only.
- Month display names (`getDisplayName`) depend on the locale.
- `remember` and `derivedStateOf` caching: the query is recomputed from the current store on every read (`TaskListScreen.SortedTasks`). Compose discards a screen's `remember`ed state when the screen leaves composition. The model gets the same effect only when a caller builds a new `TaskListScreen` for each visit, as `PayBillsScenario` does.
- `WelcomeScreen`'s text field state: the typed name reaches the model as the argument of `NameEntered`.
- The month and year dialogs' visibility flags (`showMonthDialog`, `showYearDialog`) are presentation. Their choices are modelled as `MonthChange` and `YearChange`.
- Years and days are unbounded integers. Kotlin's 32-bit `Int` and `LocalDate`'s year limit of ±999,999,999, beyond which `LocalDate.of` throws, are not modelled.
- `sortedByDescending` is modelled for the Boolean key the source uses only.
