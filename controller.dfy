/**
 * The administrative actions on a task (src/Controller/TaskController.php):
 * run it now, enable it, disable it. Messages are what the messenger shows;
 * redirects and translation are left out.
 */
module Controller {
  import opened Wrappers
  import opened Results
  import opened States
  import opened Tasks
  import opened Workers

  datatype Message = Status(text: string) | Warning(text: string) | Error(text: string)

  function FinishedOk(taskName: string): string { "Task " + taskName + " finished successfully." }

  function FinishedWithErrors(taskName: string): string { "Task " + taskName + " finished with errors." }

  /** One error message per error, in the same order. */
  function ErrorMessages(errors: seq<string>): (ms: seq<Message>)
    ensures |ms| == |errors|
    ensures forall i :: 0 <= i < |errors| ==> ms[i] == Error(errors[i])
  {
    if errors == [] then [] else ErrorMessages(errors[..|errors| - 1]) + [Error(errors[|errors| - 1])]
  }

  /**
   * What a manual run reports: one status message for a successful Result,
   * otherwise one warning followed by the Result's errors in order.
   */
  function RunMessages(taskName: string, errors: seq<string>): (ms: seq<Message>)
    ensures errors == [] ==> ms == [Status(FinishedOk(taskName))]
    ensures errors != [] ==> |ms| == |errors| + 1 && ms[0] == Warning(FinishedWithErrors(taskName))
    ensures errors != [] ==> forall i :: 0 <= i < |errors| ==> ms[i + 1] == Error(errors[i])
  {
    if errors == [] then [Status(FinishedOk(taskName))]
    else [Warning(FinishedWithErrors(taskName))] + ErrorMessages(errors)
  }

  /** The messenger calls of `run()` for a finished execution, in order. */
  method ReportResult(taskName: string, result: Result) returns (messages: seq<Message>)
    ensures messages == RunMessages(taskName, result.Errors())
  {
    if result.Successful() {
      messages := [Status(FinishedOk(taskName))];
    } else {
      messages := [Warning(FinishedWithErrors(taskName))];
      var errors := result.Errors();
      var i := 0;
      while i < |errors|
        invariant 0 <= i <= |errors|
        invariant messages == [Warning(FinishedWithErrors(taskName))] + ErrorMessages(errors[..i])
      {
        assert errors[..i + 1][..i] == errors[..i];
        messages := messages + [Error(errors[i])];
        i := i + 1;
      }
      assert errors[..i] == errors;
    }
  }

  /**
   * `run($task)`: executes the task through its worker whatever its status
   * (Disabled and Queued tasks included), reports the Result, then sets the
   * status read before the run back on the controller's own state object.
   *
   * `loaded` is the entity the worker's storage resolves for the task id; it
   * may or may not be the controller's own object. When it is, the status is
   * restored and the run's timestamps stay. When it is not, the final save of
   * the controller's (stale) state object writes the pre-run timestamps back
   * over the ones the run recorded.
   */
  method Run(task: Task, worker: TaskQueueWorker, loaded: Task, outcome: Outcome, startedAt: int)
    returns (messages: seq<Message>)
    requires task.Valid() && loaded.Valid() && loaded.id == task.id
    requires loaded.state.store == task.state.store
    modifies task, worker, task.state, loaded.state, task.state.store
    ensures |worker.events| == |old(worker.events)| + 1 && worker.events[..|old(worker.events)|] == old(worker.events)
    ensures worker.events[|old(worker.events)|].task == loaded
    ensures task.state.id in task.state.store.entries
    ensures task.state.store.entries - {task.state.id} == old(task.state.store.entries) - {task.state.id}
    ensures messages == RunMessages(task.name, worker.events[|old(worker.events)|].result.Errors())
    ensures loaded.state == task.state ==>
              task.state.status == (if IsAllowedStatus(old(task.state.status)) then old(task.state.status) else STATE_IDLE) &&
              task.state.lastExecution == startedAt &&
              task.state.lastSuccessfulExecution ==
                (if outcome.Returned? then startedAt else old(task.state.lastSuccessfulExecution)) &&
              task.state.Persisted()
    ensures loaded.state != task.state ==>
              loaded.state.status == STATE_IDLE &&
              loaded.state.lastExecution == startedAt &&
              loaded.state.lastSuccessfulExecution ==
                (if outcome.Returned? then startedAt else old(loaded.state.lastSuccessfulExecution))
    ensures loaded.state != task.state ==>
              task.state.ToArray() == old(task.state.ToArray()) &&
              task.state.store.entries[task.state.id] ==
                (if IsAllowedStatus(old(task.state.status)) then old(task.state.ToArray()) else loaded.state.ToArray())
  {
    var status := task.state.status;
    var item := task.ToQueueableItem();
    var result := worker.ProcessItem(item, loaded, outcome, startedAt);
    messages := ReportResult(task.name, result);
    task.state.SetStatus(status);
  }

  /**
   * The evidently intended manual run: the status read before the run is
   * restored on a state freshly imported after it, so the run's timestamps
   * survive whichever object the worker executed.
   */
  method RunRestoringStoredState(task: Task, worker: TaskQueueWorker, loaded: Task, outcome: Outcome, startedAt: int)
    returns (messages: seq<Message>)
    requires task.Valid() && loaded.Valid() && loaded.id == task.id
    requires loaded.state.store == task.state.store
    modifies task, worker, task.state, loaded.state, task.state.store
    ensures |worker.events| == |old(worker.events)| + 1 && worker.events[..|old(worker.events)|] == old(worker.events)
    ensures task.state.id in task.state.store.entries
    ensures task.state.store.entries - {task.state.id} == old(task.state.store.entries) - {task.state.id}
    ensures messages == RunMessages(task.name, worker.events[|old(worker.events)|].result.Errors())
    ensures task.state.store.entries[task.state.id] ==
              Record(if IsAllowedStatus(old(task.state.status)) then old(task.state.status) else STATE_IDLE,
                     startedAt,
                     if outcome.Returned? then startedAt else old(loaded.state.lastSuccessfulExecution))
  {
    var status := task.state.status;
    var item := task.ToQueueableItem();
    var result := worker.ProcessItem(item, loaded, outcome, startedAt);
    messages := ReportResult(task.name, result);
    var current := TaskState.Import(task.id, task.state.store);
    current.SetStatus(status);
  }

  /**
   * A manual run on a controller-side entity distinct from the one the
   * worker loads: the run completes (one event), yet the store afterwards
   * says the task never executed.
   */
  method ManualRunForgetsExecution() returns (ghost eventsDispatched: nat, storedLastExecution: int)
    ensures eventsDispatched == 1
    ensures storedLastExecution == HAS_NEVER_EXECUTED
  {
    var store := new StateStore();
    var queue := new ItemQueue();
    var task := new Task("report", "Report", 3600, 900, Values.Null, store, queue);
    var loaded := new Task("report", "Report", 3600, 900, Values.Null, store, queue);
    var worker := new TaskQueueWorker();
    var _ := Run(task, worker, loaded, Returned(None), 1000);
    eventsDispatched := |worker.events|;
    storedLastExecution := store.entries[StateKey("report")].lastExec;
  }

  /** `enable($task)`: an enabled task is left as it is; a disabled one becomes Idle. */
  method Enable(task: Task) returns (message: Message)
    modifies task.state, task.state.store
    ensures old(task.IsEnabled()) ==>
              task.state.ToArray() == old(task.state.ToArray()) &&
              task.state.store.entries == old(task.state.store.entries) &&
              message == Status("Task " + task.name + " is already enabled.")
    ensures !old(task.IsEnabled()) ==>
              task.state.ToArray() == old(task.state.ToArray()).(status := STATE_IDLE) &&
              task.state.store.entries == old(task.state.store.entries)[task.state.id := task.state.ToArray()] &&
              message == Status("Task " + task.name + " has been enabled.")
  {
    if task.IsEnabled() {
      message := Status("Task " + task.name + " is already enabled.");
    } else {
      task.Enable();
      message := Status("Task " + task.name + " has been enabled.");
    }
  }

  /**
   * Disabling a Queued task and enabling it again makes it Idle while its
   * item stays on the queue; once due, `queue()` adds a second item for it.
   */
  method DisableEnableRequeues() returns (itemsQueued: nat, sameTask: bool)
    ensures itemsQueued == 2
    ensures sameTask
  {
    var store := new StateStore();
    var queue := new ItemQueue();
    var task := new Task("report", "Report", 3600, 900, Values.Null, store, queue);
    task.Enable();
    task.Queue(true);
    var disabled := Disable(task);
    var enabled := Enable(task);
    assert task.IsDue(1000);
    task.Queue(true);
    itemsQueued := |queue.items|;
    sameTask := queue.items[0].taskId == queue.items[1].taskId == task.id;
  }

  /** `disable($task)`: a disabled task is left as it is; an enabled one becomes Disabled. */
  method Disable(task: Task) returns (message: Message)
    modifies task.state, task.state.store
    ensures !old(task.IsEnabled()) ==>
              task.state.ToArray() == old(task.state.ToArray()) &&
              task.state.store.entries == old(task.state.store.entries) &&
              message == Status("Task " + task.name + " is already disabled.")
    ensures old(task.IsEnabled()) ==>
              task.state.ToArray() == old(task.state.ToArray()).(status := STATE_DISABLED) &&
              task.state.store.entries == old(task.state.store.entries)[task.state.id := task.state.ToArray()] &&
              message == Status("Task " + task.name + " has been disabled.")
  {
    if !task.IsEnabled() {
      message := Status("Task " + task.name + " is already disabled.");
    } else {
      task.Disable();
      message := Status("Task " + task.name + " has been disabled.");
    }
  }
}
