# Task scheduler core, modelled in Dafny

This project models the scheduling and execution core of the Drupal `task_ui` module:

- the per-task state record (`TaskState`) and its write-through persistence into the State API key/value store;
- the due-time computation of a task (`isDue` / `isDueNext`): interval windows anchored at the first execution time, immediate retry after a failed run, and alignment to the 60-second cron tick;
- the transitions the `Task` entity offers, and how it puts itself on its queue (a task whose status is Queued is not offered again);
- the execution pipeline of a worker (`processItem`). It starts the task, runs the worker, turns a return value or exception into a `Result`, stops the task and dispatches one completion event. The code as written fails on a Result with errors; see "## Findings";
- the `Result` record, the administrative run/enable/disable actions, and the value handling of the task form.

Modules:

| module | file | models |
|---|---|---|
| `Wrappers` | wrappers.dfy | `Option`, PHP's "value or NULL" |
| `Arith` | arith.dfy | exact `\floor(a / b)` and `\ceil(a / b)` |
| `Values` | values.dfy | PHP values (NULL, bool, int, string, array, date object) and PHP truthiness |
| `Results` | result.dfy | src/Queue/Result.php |
| `States` | task_state.dfy | src/Queue/TaskState.php and the State API store |
| `Schedule` | schedule.dfy | the due computations of src/Entity/Task.php |
| `Tasks` | task.dfy | the rest of src/Entity/Task.php, `QueueItem`, the cron queue |
| `Workers` | worker.dfy | src/Queue/TaskQueueWorkerBase.php |
| `Controller` | controller.dfy | src/Controller/TaskController.php |
| `Forms` | task_form.dfy | src/Form/TaskForm.php |

The clock is a parameter: `now` for the due computations and `startedAt` for an execution. Three things are oracle parameters:

- the worker's own `run` is an `Outcome`: it returned an optional Result, threw a `TaskException`, or threw another exception;
- whether the queue backend accepts an item is a `bool`;
- the entity the task storage resolves for a queue item is passed to `ProcessItem`.

Completion events and the worker's calls of `run` are recorded in ghost logs of the worker object.

The model follows the code where its behaviour may surprise:

- `Task::enable` sets Idle and `setHasStarted` sets Running from any status. Only the controller checks the current status first.
- `queue()` has no Idle check: a Disabled or Running task that is not Queued is queued too.
- Disabling a Queued task and enabling it again makes it Idle while its item stays on the queue, so `queue()` can add a second item for the same task.
- A worker's `run` that returns normally counts as a successful execution even when its Result carries errors.

## Model

| member | source | states |
|---|---|---|
| `Results.Result.constructor` | src/Queue/Result.php:25-27 | `errors()` is exactly the list given (empty by default); the result is successful iff that list is empty |
| `Results.Result.Successful` | src/Queue/Result.php:32-37 | successful iff the error list is empty |
| `Results.Result.AddError` | src/Queue/Result.php:52-54 | the error is appended at the end, earlier errors keep their order, and the result is no longer successful |
| `States.StateKey` | src/Queue/TaskState.php:164 | the state key is `'task_ui.task.'` followed by the task id, which can be read back from the key |
| `States.StateKeyInjective` | src/Queue/TaskState.php:164 | two task ids share a state key iff they are equal, so one task's save or delete never touches another task's record |
| `States.ImportedRecord` | src/Queue/TaskState.php:180-186 | import yields the stored record, or Disabled with both timestamps 0 when the key is absent |
| `States.ImportSaveIsIdentity` | src/Queue/TaskState.php:185-193 | writing back an imported record leaves the store unchanged |
| `States.StateStore.Get` | src/Queue/TaskState.php:181 | a lookup is absent exactly for keys not in the store |
| `States.StateStore.Set` | src/Queue/TaskState.php:192 | sets one key, leaves all others |
| `States.StateStore.Delete` | src/Queue/TaskState.php:199 | removes one key, leaves all others |
| `States.TaskState.constructor` | src/Queue/TaskState.php:163-169 | id is the task's key; status and timestamps are as given (Disabled, 0, 0 by default); the record is written to the store under the id and nothing else changes |
| `States.TaskState.Import` | src/Queue/TaskState.php:180-186 | an absent key yields Disabled/0/0 and writes it; a present key reproduces status and both timestamps exactly and leaves the store unchanged |
| `States.TaskState.ToArray` | src/Queue/TaskState.php:211-217 | the stored record of status, last execution and last successful execution; `Save` and `SaveThenImport` state what it round-trips |
| `States.TaskState.Save` | src/Queue/TaskState.php:191-193 | the store holds `{status, lastExec, lastSuccess}` of the object under its id; other keys unchanged |
| `States.TaskState.Delete` | src/Queue/TaskState.php:198-200 | removes exactly the state's key |
| `States.TaskState.SetStatus` | src/Queue/TaskState.php:96-107 | one of the four constants is set and persisted; any other value leaves object and store unchanged; timestamps never change |
| `States.TaskState.SetLastExecution` | src/Queue/TaskState.php:125-128 | changes only lastExecution, then persists |
| `States.TaskState.SetLastSuccessfulExecution` | src/Queue/TaskState.php:146-149 | changes only lastSuccessfulExecution, then persists |
| `States.SaveThenImport` | src/Queue/TaskState.php:180-193 | import after save reproduces status and both timestamps, and the re-import leaves the saved record as it was |
| `Arith.FloorDiv` | src/Entity/Task.php:275 | the quotient q satisfies `q*b <= a < q*b + b` for a positive divisor, and the mirrored bounds for a negative one |
| `Arith.CeilDiv` | src/Entity/Task.php:313 | the quotient q satisfies `q*b - b < a <= q*b` |
| `Schedule.WindowStart` | src/Entity/Task.php:274-276 | for a positive interval, the window start lies a whole number of intervals after first_exec, and `start <= now < start + interval` |
| `Schedule.WindowStartUnique` | src/Entity/Task.php:275-276 | if now lies in window k, the computed window start is exactly `first_exec + k*interval` |
| `Schedule.WindowStartMonotone` | src/Entity/Task.php:275-276 | a later clock reading never gets an earlier window start |
| `Schedule.CronTick` | src/Entity/Task.php:313-314 | the tick is the first cron time at or after now: `now <= tick < now + 60`, and it lies a whole number of minutes after the window start |
| `Schedule.IsDue` | src/Entity/Task.php:264-281 | due only when enabled and not Queued; a one-time task only before its first run and strictly after first_exec; a task whose last run succeeded only if that run began before the current window |
| `Schedule.IsEnabled` | src/Entity/Task.php:148-150 | any status but Disabled; used by the lemmas on isDue and isDueNext |
| `Schedule.IsRecurring` | src/Entity/Task.php:218-220 | the interval is positive |
| `Schedule.HasRun` | src/Entity/Task.php:327-329 | the last execution is not the never-executed marker 0 |
| `Schedule.HasRunSince` | src/Entity/Task.php:340-342 | the last execution is at or after the timestamp |
| `Schedule.LastExecutionSucceeded` | src/Entity/Task.php:350-355 | the task has run and its last successful execution equals its last execution |
| `Schedule.IsQueueing` | src/Entity/Task.php:366-368 | the status is Queued |
| `Schedule.IsRunning` | src/Entity/Task.php:376-378 | the status is Running |
| `Schedule.IsDueNext` | src/Entity/Task.php:294-319 | FALSE iff disabled, Queued, or one-time and already run. Division by zero iff a never-run one-time task has interval 0 and first_exec <= now. Any timestamp returned is >= now |
| `Schedule.DisabledOrQueuedNeverDue` | src/Entity/Task.php:264-296 | a Disabled or Queued task is never due and has no next time, whatever its timestamps |
| `Schedule.NeverRunDue` | src/Entity/Task.php:267-303 | an enabled, unqueued, never-run task is due iff now > first_exec; if first_exec is in the future it is the next time |
| `Schedule.OneTimeRunsOnce` | src/Entity/Task.php:270-296 | once run, a one-time task is never due again and has no next time |
| `Schedule.RetryAfterFailure` | src/Entity/Task.php:271-272 | a recurring task whose last run failed is due at once, whatever the interval; its next time is within the coming minute |
| `Schedule.DueInWindow` | src/Entity/Task.php:274-277 | a recurring task whose last run succeeded is due in window k iff it last ran before that window began |
| `Schedule.NextWindowIsFirstDueTime` | src/Entity/Task.php:309-310 | when such a task is not due, the next time is the following window's start, which is after now and aligned to first_exec. From now on, the task is due exactly from that time |
| `Schedule.DueMeansNextCronTick` | src/Entity/Task.php:312-314 | when a recurring task is due, the next time is the coming cron tick: within 60 s of now, aligned to the window start |
| `Schedule.OverdueFirstRunNextCronTick` | src/Entity/Task.php:306-314 | a task with a non-zero interval (negative, one-time, included) that never ran and whose first_exec <= now is next run at the coming cron tick: within 60 s of now, aligned to the window start |
| `Schedule.RunningIsLikeIdle` | src/Entity/Task.php:264-319 | for any task and any clock reading, a Running task has the same isDue and isDueNext answers as the same task Idle |
| `Schedule.RunningTaskCanBeDue` | src/Entity/Task.php:264-281 | isDue does not exclude a Running task: one still running at 1199 with window start 1100 and last run at 1050 is due |
| `Schedule.WorkedExample` | src/Entity/Task.php:274-277 | first_exec 1000, interval 100, now 1199: window start 1100. Last run at 1050: due. Last run at 1150 and succeeded: not due, next time 1200 |
| `Tasks.ItemQueue.CreateItem` | src/Entity/Task.php:385 | the item is appended iff the queue accepts it, and the answer says so |
| `Tasks.Task.constructor` | src/Entity/Task.php:125-130 | the entity imports its state: stored record or fresh Disabled/0/0 state, written back |
| `Tasks.Task.IsEnabled` | src/Entity/Task.php:138-150 | `status()` / `isEnabled()` read from the task's own state |
| `Tasks.Task.IsDue` | src/Entity/Task.php:264-281 | `Schedule.IsDue` applied to the task's configuration and current state |
| `Tasks.Task.IsDueNext` | src/Entity/Task.php:294-319 | `Schedule.IsDueNext` applied to the task's configuration and current state |
| `Tasks.Task.Enable` | src/Entity/Task.php:155-157 | status becomes Idle unconditionally; timestamps unchanged; persisted |
| `Tasks.Task.Disable` | src/Entity/Task.php:162-164 | status becomes Disabled unconditionally; timestamps unchanged; persisted |
| `Tasks.Task.SetHasStarted` | src/Entity/Task.php:192-194 | status becomes Running unconditionally; timestamps unchanged; persisted |
| `Tasks.Task.SetHasStopped` | src/Entity/Task.php:204-210 | status Idle and lastExecution = t always; lastSuccessfulExecution = t only on success; persisted |
| `Tasks.Task.GetParams` | src/Entity/Task.php:427-432 | unset parameters read, and are stored, as the empty array; set ones are returned as they are |
| `Tasks.Task.ToQueueableItem` | src/Entity/Task.php:407-409 | the item carries the task id and its (lazily initialised) parameters |
| `Tasks.Task.Queue` | src/Entity/Task.php:383-389 | on a Queued task nothing happens and no item is created. Otherwise an item is offered. If accepted, it is appended and the status becomes Queued, whatever it was. If rejected, neither the status nor the store changes |
| `Tasks.Task.Delete` | src/Entity/Task.php:171-174 | the task's state key leaves the store; other keys stay |
| `Workers.TaskQueueWorker.Run` | src/Queue/TaskQueueWorkerBase.php:132 | the worker's `run` ends as the outcome says; each call is logged with the task's status at that moment |
| `Workers.TaskQueueWorker.ProcessItem` | src/Queue/TaskQueueWorkerBase.php:137-174 | the intended behaviour; see the notes after this table |
| `Workers.TaskQueueWorker.ProcessItemAsWritten` | src/Queue/TaskQueueWorkerBase.php:137-174 | as written. It escapes with an `\Error` exactly when `run` returned a Result with errors; the task is then stopped as successful but no event is dispatched. Every other path ends with one event and the same Result and state as `ProcessItem` |
| `Workers.ErrorResultEscapesProcessing` | src/Queue/TaskQueueWorkerBase.php:147-153 | a concrete run returning `Result(["x"])` at 1000 escapes with no completion event, and the store records 1000 as the last successful execution |
| `Controller.ErrorMessages` | src/Controller/TaskController.php:44-46 | one error message per error, same order |
| `Controller.RunMessages` | src/Controller/TaskController.php:35-47 | a successful result gives one status message; otherwise one warning followed by one error message per error, in order |
| `Controller.ReportResult` | src/Controller/TaskController.php:35-47 | the messages emitted for a result are exactly `RunMessages` of its errors |
| `Controller.Run` | src/Controller/TaskController.php:30-51 | see the notes after this table |
| `Controller.RunRestoringStoredState` | src/Controller/TaskController.php:30-51 | corrected manual run. Afterwards the store holds the status from before the run (Idle if that was not a valid constant), lastExecution = startedAt, and lastSuccessfulExecution = startedAt iff run returned. This holds whichever entity object the worker executed |
| `Controller.ManualRunForgetsExecution` | src/Controller/TaskController.php:48 | a concrete manual run on two distinct entity objects for one task dispatches one completion event, yet leaves lastExec 0 (never executed) in the store |
| `Controller.DisableEnableRequeues` | src/Controller/TaskController.php:87-97 | a concrete task that is enabled, queued, disabled, enabled again and then due is offered to `queue()` again: two items for the same task end on the queue |
| `Controller.Enable` | src/Controller/TaskController.php:64-74 | an enabled task is left unchanged (state and store) with an "already enabled" message; a disabled one becomes Idle, persisted, with a "has been enabled" message |
| `Controller.Disable` | src/Controller/TaskController.php:87-97 | a disabled task is left unchanged with an "already disabled" message; an enabled one becomes Disabled, persisted, with a "has been disabled" message |
| `Forms.NextQuarterHour` | src/Form/TaskForm.php:164 | the result is a multiple of 900 and `t <= r < t + 900` |
| `Forms.NextQuarterHourKeepsAligned` | src/Form/TaskForm.php:164 | a timestamp already on a quarter hour is unchanged |
| `Forms.NextQuarterHourIdempotent` | src/Form/TaskForm.php:164 | rounding twice equals rounding once |
| `Forms.RoundToNextQuarterHour` | src/Form/TaskForm.php:163-167 | moves the given date object itself to the next quarter hour and returns that same object |
| `Forms.SubmittedInterval` | src/Form/TaskForm.php:176-178 | `minutes * 60` when is_recurring is truthy, else 0; positive iff recurring with a positive frequency |
| `Forms.SubmittedParams` | src/Form/TaskForm.php:180-186 | the selected worker's sub-array when the submitted params are an array holding that key, otherwise the raw value |
| `Forms.DefaultIsRecurring` | src/Form/TaskForm.php:100 | 0 or 1; 1 iff the task is new or recurring |
| `Forms.DefaultIntervalMinutes` | src/Form/TaskForm.php:113 | 1440 for a new or one-time task, otherwise interval/60 exactly |
| `Forms.EditShowsSubmittedSchedule` | src/Form/TaskForm.php:100-178 | editing a saved task shows the "is recurring" choice and frequency it was submitted with (a one-time task shows the daily default) |
| `Forms.SubmittedValues` | src/Form/TaskForm.php:175-197 | key by key: is_recurring removed, interval in seconds, params narrowed, first_exec the rounded timestamp (a multiple of 900), enabled as given, every other key unchanged |
| `Forms.SubmitForm` | src/Form/TaskForm.php:172-202 | the form values become `SubmittedValues` with enabled = TRUE for a new task, else the task's current `status()`; the submitted date object is moved to the quarter hour |

Notes on two rows:

- `Workers.TaskQueueWorker.ProcessItem` (the warning for a Result with errors logged with the task id formatted into the message):
  - `run` is called exactly once, while the task is Running.
  - On return, the task is Idle with lastExecution = startedAt on every path.
  - lastSuccessfulExecution = startedAt iff `run` returned, even with errors in its Result.
  - The result is the one `run` returned, or a new empty Result if it returned nothing. On a TaskException it is the exception's Result, or a new `[message]` Result if the exception had none. On any other exception it is a new `[message]` Result.
  - Exactly one completion event, carrying the task and the returned Result, is appended to the event log.
  - The store holds the final state; no other key changes.
- `Controller.Run`:
  - It runs the task whatever its status, through the intended `ProcessItem`.
  - The messages are `RunMessages` of the dispatched Result.
  - If the worker ran the controller's own state object, the status read before the run is restored (Idle if it was not one of the four constants), and the run's timestamps stay.
  - Otherwise the worker's object ends Idle with the run's timestamps. If the pre-run status was one of the four constants, the controller's stale object is then saved back over the store, and the run's timestamps are lost. Any other pre-run status is ignored by `setStatus`, so the run's record stays.
  - No other key of the store changes.

## Left out

- Clock reads (`new DrupalDateTime()`) are parameters. first_exec is an integer timestamp rather than a date object (`firstExecutes`).
- PHP's float arithmetic in `\floor`, `\ceil` and `/` is modelled as exact integer floor and ceiling division. The one exception is the frequency default `interval / 60`, modelled as an exact `real`. Float precision is not modelled.
- `Schedule.IsDueNext` returns an explicit `DivisionByZero` in the one case where PHP divides by a zero interval. That case is a never-run one-time task whose first_exec has passed. A negative interval is computed exactly, as PHP does.
- The worker's own `run` body is outside the model. It is assumed not to touch the task's state. PHP `\Error` throwables from `run`, which `catch (\Exception)` does not catch, are not modelled.
- The storage load in `processItem` is the `task` parameter of `ProcessItem`. A task that cannot be loaded (NULL) is not modelled, and the model requires that the task id matches the item.
- src/Entity/Storage/TaskStorage.php is not part of this model. That covers queue factory and worker plugin wiring. Its `createWorker` turns a plugin exception into NULL, and `doCreate` then dereferences that NULL.
- `Task` does not hold its worker plugin. The controller receives the worker as a parameter.
- Logging (src/Log/LoggerTrait.php and the notice/warning/error calls in `processItem`) is a no-op, except that `ProcessItemAsWritten` models the TypeError of the warning call.
- `Workers.TaskQueueWorker.ProcessItem` dispatches an event and returns on every path, which is the intended behaviour. As written, a Result with errors makes the warning call at src/Queue/TaskQueueWorkerBase.php:152 throw. `ProcessItemAsWritten` models that path. `Controller.Run` is modelled over the intended `ProcessItem`. As written, such a run would also abort the controller's `run` before its messages and before the status restore at src/Controller/TaskController.php:48.
- Translation, redirects and render arrays are not modelled: `buildForm` apart from its two defaults, and src/TaskListBuilder.php.
- Entity configuration persistence is not modelled: `$task->save()` in the controller, `parent::submitForm`, `parent::delete` in `Task::delete`.
- The event dispatcher is a ghost log of `CompletionEvent(task, result)`. Subscribers are not modelled.
- Concurrency is not modelled. A single sequential caller is assumed, so the race between parallel cron runs in `queue()` is out of scope.
- Trivial getters without behaviour are not modelled separately: `id`, `getStatus`, `getName`, `getInterval`, `getQueue`, `getWorker`. `getState` is covered because the constructor always imports the state and it is never replaced.
- `States.TaskState.SetStatus`: the status is a string, so PHP's loose `in_array` comparison on non-string arguments is not modelled. `TRUE` would pass the guard in any PHP version, and `0` would pass it under PHP 7.
- `Forms.SubmittedParams`: a truthy non-array params value is kept as it is. That follows PHP 7, where `array_key_exists` on a non-array returns NULL; PHP 8 throws a TypeError instead.
- `Forms.SubmitForm`: select values are integers, not numeric strings. The form's required fields give a string worker id and, when recurring, an integer frequency. The `first_exec` element is not required. Cleared, it submits NULL, and `roundToNextQuarterHour(NULL)` then throws a TypeError. The model requires a submitted date and does not cover that case.

## Findings

| source | as written | input that shows it | evidently intended | confidence | as-written member | corrected member |
|---|---|---|---|---|---|---|
| src/Controller/TaskController.php:48 | `run` restores the status through the controller's own `TaskState` object. Its `save()` writes that object's pre-run timestamps back over the ones `processItem` just recorded | a manual run where the worker's storage load returns a different entity object for the same task: task "report", never run, started at 1000. The completion event is dispatched, but the store then says lastExec 0 | restore only the pre-run status and keep the timestamps of the run | medium: depends on the entity storage returning a distinct object to the worker; not executed | `Controller.Run`, `Controller.ManualRunForgetsExecution` | `Controller.RunRestoringStoredState` |
| src/Queue/TaskQueueWorkerBase.php:152 | the `warning` call for a Result with errors passes the task id as its second argument, the PSR-3 `array $context` (src/Log/LoggerTrait.php:36 types it `array`). PHP raises a TypeError, an `\Error` that neither catch block takes | `run` returns `Result(["x"])` at 1000: the task is stored as successfully executed at 1000, but no completion event is dispatched and `processItem` returns nothing | format the id into the message with `sprintf`, as the two notice calls do, so the warning is logged and the event dispatched | high: a string passed to an `array` parameter is a TypeError in PHP 7 and 8; not executed | `Workers.TaskQueueWorker.ProcessItemAsWritten`, `Workers.ErrorResultEscapesProcessing` | `Workers.TaskQueueWorker.ProcessItem` |
