# FocusTime task engine, modelled in Dafny

FocusTime is a browser task tracker. Users add long-running tasks with an expected duration. A timer counts
the days spent on each active task. Users mark tasks complete or reopen them, delete them, and read a
statistics panel. This project models the engine under the user interface:

- the four handlers that turn the task list into a new one (`App`, from `src/App.js`);
- the statistics panel's derivation: partitions, totals, time saved, efficiency score, longest active task,
  overall progress and completion rate (`Statistics`, from `src/components/Statistics.js`);
- the day-count label `formatDays` (`Format`). Three components hold identical copies of it; the model
  defines it once and cites the task item's copy;
- the timer's day-accrual rule, its manual controls and its progress message (`Timer`, from
  `src/components/Timer.js`). The pure rules are functions on a `State` value. Class `DayCounter` holds
  the component's two state variables and updates them in methods proved against those functions;
- the task item's due-date badge, progress percentage and gating of controls (`TaskItem`, from
  `src/components/TaskItem.js`);
- the task form: JavaScript `trim`, the submit guard, the new-task record, and the form state that submission
  resets (`TaskForm`, from `src/components/TaskForm.js`).

Helper modules: `Wrappers` (an `Option` for `null`), `Numbers` (exact `Math.round`, floor and ceiling of
a quotient, `Math.min`) and `Tasks` (the task record and the status strings).

Conventions:

- Instants are integer milliseconds. The current instant `now` is a parameter.
- The current calendar day (`new Date().toDateString()`) is an abstract day number, `today`.
- A due date is stored as the text the user typed, as the application does. Readers turn it into an instant
  through a parameter `instant: string -> int`, which stands for JavaScript date parsing.
- Statuses are the stored strings. Every status the application writes is "active" or "completed", but a
  loaded list could hold another string, and the handlers treat every non-"active" status alike.
- All arithmetic is exact: `int` for counts and `real` for quotients. `Math.round(x)` is `floor(x + 1/2)`.

In these places the model follows the code rather than a stricter reading of it:

- Adding a task does not check `expectedDays`; the form only offers positive values.
- Updating or toggling an id that no task carries is a no-op, not an error.
- Efficiency is 1 for any `expectedDays <= 0`, not only for 0.
- The completion rate is shown only when some task is completed, not whenever the list is non-empty.
- A negative `daysSinceCreation` (a creation instant in the future) is not clamped to 0. It is only
  compared with `daysSpent`, so it never lowers a non-negative count (`Timer.FutureCreationChangesNothing`).

## Model

| member | source | states |
|---|---|---|
| `App.AddTask` | src/App.js:23-25 | the result is the old list with the new task appended: one longer, earlier entries unchanged and in order |
| `App.TimeUpdate` | src/App.js:27-31 | same length; every task with the id gets the new `daysSpent` and keeps every other field; every other task is unchanged |
| `App.CompleteTask` | src/App.js:33-41 | same length; a matching "active" task becomes "completed" stamped with `now`; any other matching status becomes "active" with no stamp; other fields and other tasks unchanged |
| `App.DeleteTask` | src/App.js:43-45 | drops exactly the tasks with the id: the result holds no such task, keeps every other task, and is shorter by the number of matches |
| `App.TimeUpdateMissingId` | src/App.js:27-31 | an id no task carries leaves the list identical |
| `App.CompleteTaskMissingId` | src/App.js:33-41 | an id no task carries leaves the list identical |
| `App.CompleteTaskTwice` | src/App.js:35-38 | with known statuses, toggling twice restores every status; the stamp is cleared for a task that was active and re-stamped for one that was completed |
| `App.DeleteMissingId` | src/App.js:43-45 | deleting an id no task carries is a no-op |
| `App.DeleteAppend` | src/App.js:44 | deletion distributes over concatenation, so the remaining tasks keep their order |
| `App.DeleteIdempotent` | src/App.js:44 | deleting the same id twice equals deleting it once |
| `App.FirstOfTwoUpdatesLost` | src/App.js:27-31 | two count updates issued from one render to a two-task list: the first task keeps its stored count and only the second update survives |
| `App.UpdatesInTurn` | src/App.js:27-31 | applying updates one after another changes only `daysSpent` and keeps the length |
| `App.UpdatesInTurnAllLand` | src/App.js:27-31 | applied in turn, each update sets the count of the tasks with its id, unless a later update names the same id |
| `App.TwoUpdatesInTurnBothLand` | src/App.js:27-31 | applied in turn, both updates of the two-task case reach the list |
| `Statistics.WithStatus` | src/components/Statistics.js:4-5 | the filtered list holds exactly the tasks of the list with the given status |
| `Statistics.WithStatusAppend` | src/components/Statistics.js:4-5 | the status filter keeps list order (it distributes over concatenation) |
| `Statistics.PartitionCount` | src/components/Statistics.js:4-5 | when every status is "active" or "completed", the completed and active counts add up to the total |
| `Statistics.Overdue` | src/components/Statistics.js:6-10 | every overdue task is in the list, active, has a non-empty due date, and that date is before `now`; every such active task is overdue |
| `Statistics.TotalExpectedDays` | src/components/Statistics.js:12 | with every target at least one day, the planned total is at least the number of tasks |
| `Statistics.TotalDaysSpent` | src/components/Statistics.js:13 | with no negative count, the total days spent is non-negative |
| `Statistics.Saved` | src/components/Statistics.js:15-18 | one task's contribution is its underrun `expectedDays - daysSpent` when positive and 0 otherwise |
| `Statistics.SavedSum` | src/components/Statistics.js:15-18 | the reduce that skips non-positive differences never yields a negative sum |
| `Statistics.TimeSaved` | src/components/Statistics.js:15-18 | time saved is never negative |
| `Statistics.Efficiency` | src/components/Statistics.js:30-31 | per-task efficiency is at most 1; it is 1 when `expectedDays <= 0` or when the target is met; it is non-negative when `daysSpent` is |
| `Statistics.EfficiencySum` | src/components/Statistics.js:29-32 | the summed efficiency is at most the number of tasks, and non-negative when no count is negative |
| `Statistics.ProductivityScore` | src/components/Statistics.js:27-34 | 0 when nothing is completed; never above 100; non-negative when no completed task has a negative count |
| `Statistics.LongestIndex` | src/components/Statistics.js:38-40 | the reduce ends on a position whose `daysSpent` is at least every other's and strictly above every earlier one's (first wins on ties) |
| `Statistics.LongestActiveTask` | src/components/Statistics.js:36-41 | absent exactly when no task is active; otherwise an active task of the list with the most days, the earliest on ties |
| `Statistics.OverallProgress` | src/components/Statistics.js:88 | never above 100; 0 when the planned total is not positive; non-negative when days spent are; exactly 100 when the days spent reach the plan |
| `Statistics.CompletionRate` | src/components/Statistics.js:109-121 | present exactly when some task is completed; then between 0 and 100, and 100 when every task is completed |
| `Statistics.AddTaskPartitions` | src/App.js:23-25 | adding a task appends it to its own partition and leaves the other unchanged |
| `Statistics.AddTaskTotals` | src/components/Statistics.js:12-18 | adding a task raises the two totals by its own figures and time saved by its own saving if it is completed |
| `Statistics.TimeUpdateKeepsPartition` | src/App.js:27-31 | updating days spent leaves the completed and active counts unchanged |
| `Statistics.CompleteTaskMovesOne` | src/App.js:33-41 | completing the one active task with an id moves exactly one task from the active count to the completed count |
| `Statistics.OverrunAndEarlyExample` | src/components/Statistics.js:15-34 | an overrun (10 planned, 15 spent) plus an early finish (10 planned, 5 spent) gives 5 days saved and a score of 75 |
| `Format.FormatDays` | src/components/TaskItem.js:7-12 | exactly 1 is "1 day"; other values below 7 are days; 7 to 29 are the nearest whole weeks (1 to 4); 30 and above are the nearest whole months (at least 1) |
| `Timer.Mounted` | src/components/Timer.js:4-5 | a freshly shown timer starts from the task's stored days and has never updated |
| `Timer.DaysSinceCreation` | src/components/Timer.js:16-17 | the whole days elapsed since creation, rounded down; negative exactly when creation lies in the future |
| `Timer.CheckDay` | src/components/Timer.js:9-26 | the state changes exactly when not yet updated today and behind the calendar; it then jumps to the days since creation, marked today; it never decreases |
| `Timer.AddDay` | src/components/Timer.js:35-40 | one more day, marked as updated today |
| `Timer.RemoveDay` | src/components/Timer.js:42-49 | one day fewer, marked today, when positive; otherwise nothing changes; a non-negative count stays non-negative |
| `Timer.DaysSinceCreationMonotone` | src/components/Timer.js:17 | elapsed whole days never go down as time advances |
| `Timer.RunChecksBounds` | src/components/Timer.js:8-33 | any chronological run of automatic checks never lowers the count and never takes it past the whole days elapsed at the last check |
| `Timer.CheckDayOncePerDay` | src/components/Timer.js:14-23 | after the check fires, running it again on the same day changes nothing |
| `Timer.FutureCreationChangesNothing` | src/components/Timer.js:17-19 | a creation instant in the future never changes a non-negative count |
| `Timer.ManualControlsKeepNonNegative` | src/components/Timer.js:35-49 | both manual controls keep a non-negative count non-negative |
| `Timer.AddThenRemove` | src/components/Timer.js:35-49 | adding a day and removing it restores the count |
| `Timer.ProgressMessage` | src/components/Timer.js:58-67 | for a positive target each message covers its band (0; below a quarter; then quarter by quarter; target reached); for a zero target the JavaScript infinity/NaN outcome |
| `Timer.DayCounter.constructor` | src/components/Timer.js:3-5 | the timer state starts as `Mounted` of its task |
| `Timer.DayCounter.CheckDayCompletion` | src/components/Timer.js:9-26 | the new state is `CheckDay` of the old one; the new count is reported exactly when the check fired |
| `Timer.DayCounter.ManuallyAddDay` | src/components/Timer.js:35-40 | the new state is `AddDay` of the old one, and the new count is reported |
| `Timer.DayCounter.ManuallyRemoveDay` | src/components/Timer.js:42-49 | the new state is `RemoveDay` of the old one; the new count is reported only when the old count was positive |
| `TaskItem.DaysUntilDue` | src/components/TaskItem.js:14-21 | absent exactly without a due date; otherwise the time to the due instant in days, rounded up |
| `TaskItem.Classify` | src/components/TaskItem.js:27-35 | "time-over" exactly for 0 or fewer days, "time-warning" for 1 to 3, "time-neutral" above 3; "Overdue by" the absolute value when negative, "Due today" at 0 |
| `TaskItem.DueDateStatus` | src/components/TaskItem.js:23-36 | no badge exactly when there is no due date |
| `TaskItem.ProgressPercentage` | src/components/TaskItem.js:38-41 | 0 for a zero target; never above 100; non-negative for a positive target and non-negative count; exactly 100 when the target is met |
| `TaskItem.ProgressPercentageMonotone` | src/components/TaskItem.js:38-41 | for a positive target, more days spent never lowers the percentage |
| `TaskItem.ControlsOf` | src/components/TaskItem.js:110-142 | the timer is shown exactly for an active task; "Mark Complete" exactly for an active task, "Reopen Task" otherwise; the completion date exactly for a completed, stamped task |
| `TaskItem.OverdueShowsTimeOver` | src/components/TaskItem.js:23-36 | a task the statistics count as overdue shows a "time-over" badge |
| `TaskItem.OverdueBadgeIsCounted` | src/components/TaskItem.js:27-28 | an active task whose badge reads "Overdue by" is counted as overdue by the statistics |
| `TaskItem.CompleteTaskSwitchesControls` | src/components/TaskItem.js:110-133 | toggling a task shows the timer exactly when it was hidden, and a newly completed task shows its completion date |
| `TaskForm.Trim` | src/components/TaskForm.js:11 | the trimmed text is empty exactly when every character is white space; otherwise it starts and ends with non-white-space |
| `TaskForm.NewTask` | src/components/TaskForm.js:13-23 | the record keeps the fields as typed (untrimmed name); it has no days spent, is active, was created `now`, has no completion stamp, and has no due date exactly when the date field is empty |
| `TaskForm.SubmittedTaskJoinsActive` | src/components/TaskForm.js:13-23 | a submitted task joins the end of the active tasks; completed tasks, time saved and days spent are unchanged; a longest active task exists; its timer is shown and starts at 0 |
| `TaskForm.Form.constructor` | src/components/TaskForm.js:4-7 | the form starts blank, with the one-week default |
| `TaskForm.Form.EditName` | src/components/TaskForm.js:49 | typing sets the name field to the typed text |
| `TaskForm.Form.EditDescription` | src/components/TaskForm.js:60 | typing sets the description field to the typed text |
| `TaskForm.Form.EditDueDate` | src/components/TaskForm.js:100 | picking a date sets the due-date field to its text |
| `TaskForm.Form.SelectExpectedDays` | src/components/TaskForm.js:80-90 | the selector holds one of its offered values |
| `TaskForm.Form.Submit` | src/components/TaskForm.js:9-30 | a blank name adds nothing and changes nothing; otherwise it returns the new record and resets every field, with the target at 7 days; a returned record's target is at least one day |

## Left out

- App.TimeUpdate, Timer.DayCounter.CheckDayCompletion: the model applies count updates one after another,
  each to the current list (`App.UpdatesInTurn`). In the application, every handler maps the list
  captured by the render that created it, so of several updates issued from one render only the last
  survives (`App.UpdatesFromOneRender`, and the finding below). The timer whose update was lost still
  shows its new count, with `lastUpdated` set to today, so it does not retry that day.

- Loading the list from browser storage and saving it there, with JSON encoding (src/App.js:10-21). This is
  storage I/O; the model's `seq<Task>` is the value that would be saved.
- Hourly scheduling with `setInterval`/`clearInterval` and the effect's re-registration (src/components/Timer.js:28-33).
  The caller invokes `CheckDayCompletion` with the current instant; `RunChecks` models a sequence of such calls.
- JavaScript `Date`: parsing due-date text (a parameter here), `toDateString` (the abstract `today`),
  `toISOString`, `toLocaleDateString`, time zones and `getMinDate` (src/components/TaskForm.js:33-37).
  Unparseable date text (an invalid date, compared as NaN) is not modelled: `instant` is total.
- The uniqueness of `Date.now()` identifiers (src/components/TaskForm.js:14). Identifiers are given, and every
  handler is specified for all tasks carrying the id.
- Rendering: JSX, styles, the description toggle (src/components/TaskItem.js:5, 56-69), `EmptyStateIcon`
  (src/App.js:88-94), the timer's own progress bar width (src/components/Timer.js:82) and the conversion of
  numbers into label text. Labels are datatypes that carry their number.
- IEEE-754 rounding of `/` and `Math.round`. The model is exact; only the infinities and NaN that a zero
  target produces in the progress message are modelled.
- The `onComplete` property that the task item passes to the timer; the timer never calls it.
- Changes to a task's properties while its timer is shown. `DayCounter` keeps the id, creation instant and
  target it was mounted with.
- Timer.ProgressMessage: for a negative target the message is computed as the component does, but the contract
  states nothing about it.
- Statistics.Overdue: the contract is stated as set membership. Order and multiplicity are not stated for
  this filter, unlike the status filter (`Statistics.WithStatusAppend`).

## Findings

| source | as written | input that shows it | evidently intended | confidence | as-written member | corrected member |
|---|---|---|---|---|---|---|
| src/App.js:27-31 | `setTasks(tasks.map(...))` maps the list captured at render. Each timer's initial check (src/components/Timer.js:30) calls the handler of the same render, so the second update overwrites the first | two active tasks `a`, `b` with distinct ids, both behind the calendar at load: updates `(a.id, x)` then `(b.id, y)` leave `a` with its old count | every update reaches the list (a functional state update, `setTasks(prev => prev.map(...))`) | medium, not executed | `App.FirstOfTwoUpdatesLost` | `App.UpdatesInTurnAllLand` |
