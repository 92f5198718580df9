/**
 * The execution pipeline of a task worker
 * (src/Queue/TaskQueueWorkerBase.php, processItem).
 */
module Workers {
  import opened Wrappers
  import opened Results
  import opened States
  import opened Tasks
  import Values

  /**
   * How a worker's `run($item)` ends: it returns a Result or nothing, throws a
   * TaskException (with an optional partial Result and a message), or throws
   * any other Exception.
   */
  datatype Outcome =
    | Returned(result: Option<Result>)
    | TaskFailure(partial: Option<Result>, message: string)
    | OtherFailure(message: string)

  /** A dispatched `TaskCompletedEvent`. */
  datatype CompletionEvent = CompletionEvent(task: Task, result: Result)

  /**
   * How `processItem` ends as written: it returns its Result, or a PHP
   * `\Error` (here the logger's TypeError) escapes both catch blocks.
   */
  datatype Completion = Completed(result: Result) | Escaped(error: string)

  /** One call of the worker's `run`, with the task's status at that moment. */
  datatype Invocation = Invocation(item: QueueItem, status: string)

  class TaskQueueWorker {
    /** Every event handed to the event dispatcher, in order. */
    ghost var events: seq<CompletionEvent>
    /** Every call of `run`, in order. */
    ghost var invocations: seq<Invocation>

    constructor ()
      ensures events == [] && invocations == []
    {
      events := [];
      invocations := [];
    }

    /**
     * The worker's own `run($item)`, whose body is outside the model: it
     * ends the way `outcome` says and touches nothing else.
     */
    method Run(item: QueueItem, task: Task, outcome: Outcome) returns (o: Outcome)
      modifies this
      ensures o == outcome
      ensures invocations == old(invocations) + [Invocation(item, task.state.status)]
      ensures events == old(events)
    {
      invocations := invocations + [Invocation(item, task.state.status)];
      o := outcome;
    }

    /**
     * `processItem($item)` for the task the storage resolved for the item,
     * started at `startedAt`. The task runs while Running; afterwards it is
     * Idle with its last execution at `startedAt`, a run that returned also
     * counting as successful even when its Result carries errors. Exactly one
     * completion event carrying the returned Result is dispatched, and no
     * exception escapes. This is the intended behaviour: the warning for a
     * Result with errors is logged with the task id formatted into the message
     * (as the notice calls do), where
     * the code as written fails (see `ProcessItemAsWritten`).
     */
    method ProcessItem(item: QueueItem, task: Task, outcome: Outcome, startedAt: int) returns (r: Result)
      requires task.id == item.taskId
      modifies this, task.state, task.state.store
      ensures invocations == old(invocations) + [Invocation(item, STATE_RUNNING)]
      ensures events == old(events) + [CompletionEvent(task, r)]
      ensures task.state.status == STATE_IDLE
      ensures task.state.lastExecution == startedAt
      ensures task.state.lastSuccessfulExecution ==
                if outcome.Returned? then startedAt else old(task.state.lastSuccessfulExecution)
      ensures task.state.store.entries == old(task.state.store.entries)[task.state.id := task.state.ToArray()]
      ensures task.state.Persisted()
      ensures outcome == Returned(None) ==> fresh(r) && r.Errors() == []
      ensures outcome.Returned? && outcome.result.Some? ==> r == outcome.result.value
      ensures outcome.TaskFailure? && outcome.partial.Some? ==> r == outcome.partial.value
      ensures outcome.TaskFailure? && outcome.partial.None? ==> fresh(r) && r.Errors() == [outcome.message]
      ensures outcome.OtherFailure? ==> fresh(r) && r.Errors() == [outcome.message]
    {
      task.SetHasStarted();
      var o := Run(item, task, outcome);
      match o {
        case Returned(res) =>
          if res.None? {
            r := new Result([]);
          } else {
            r := res.value;
          }
          task.SetHasStopped(true, startedAt);
        case TaskFailure(partial, message) =>
          task.SetHasStopped(false, startedAt);
          if partial.None? {
            r := new Result([message]);
          } else {
            r := partial.value;
          }
        case OtherFailure(message) =>
          task.SetHasStopped(false, startedAt);
          r := new Result([message]);
      }
      events := events + [CompletionEvent(task, r)];
    }

    /**
     * `processItem($item)` as written. When `run` returns a Result with
     * errors, the warning is logged with the task id where the PSR-3 logger
     * demands a context array: PHP raises a TypeError, an `\Error` that
     * neither catch block takes. The task has already been stopped as
     * successful, but no completion event is dispatched and nothing is
     * returned. Every other path ends as in `ProcessItem`.
     */
    method ProcessItemAsWritten(item: QueueItem, task: Task, outcome: Outcome, startedAt: int) returns (c: Completion)
      requires task.id == item.taskId
      modifies this, task.state, task.state.store
      ensures invocations == old(invocations) + [Invocation(item, STATE_RUNNING)]
      ensures task.state.status == STATE_IDLE
      ensures task.state.lastExecution == startedAt
      ensures task.state.lastSuccessfulExecution ==
                if outcome.Returned? then startedAt else old(task.state.lastSuccessfulExecution)
      ensures task.state.store.entries == old(task.state.store.entries)[task.state.id := task.state.ToArray()]
      ensures task.state.Persisted()
      ensures c.Escaped? <==> outcome.Returned? && outcome.result.Some? && outcome.result.value.Errors() != []
      ensures c.Escaped? ==> events == old(events)
      ensures c.Completed? ==> events == old(events) + [CompletionEvent(task, c.result)]
      ensures outcome == Returned(None) ==> c.Completed? && fresh(c.result) && c.result.Errors() == []
      ensures outcome.Returned? && c.Completed? ==> outcome.result.None? || c.result == outcome.result.value
      ensures outcome.TaskFailure? && outcome.partial.Some? ==> c == Completed(outcome.partial.value)
      ensures outcome.TaskFailure? && outcome.partial.None? ==>
                c.Completed? && fresh(c.result) && c.result.Errors() == [outcome.message]
      ensures outcome.OtherFailure? ==> c.Completed? && fresh(c.result) && c.result.Errors() == [outcome.message]
    {
      task.SetHasStarted();
      var o := Run(item, task, outcome);
      var r: Result;
      match o {
        case Returned(res) =>
          if res.None? {
            r := new Result([]);
          } else {
            r := res.value;
          }
          task.SetHasStopped(true, startedAt);
          if !r.Successful() {
            c := Escaped("TypeError");
            return;
          }
        case TaskFailure(partial, message) =>
          task.SetHasStopped(false, startedAt);
          if partial.None? {
            r := new Result([message]);
          } else {
            r := partial.value;
          }
        case OtherFailure(message) =>
          task.SetHasStopped(false, startedAt);
          r := new Result([message]);
      }
      events := events + [CompletionEvent(task, r)];
      c := Completed(r);
    }
  }

  /**
   * A run that returns a Result with one error: as written, processing
   * escapes with no completion event, yet the store records the run as a
   * successful execution.
   */
  method ErrorResultEscapesProcessing() returns (ghost eventsDispatched: nat, escaped: bool, storedLastSuccess: int)
    ensures eventsDispatched == 0
    ensures escaped
    ensures storedLastSuccess == 1000
  {
    var store := new StateStore();
    var queue := new ItemQueue();
    var task := new Task("report", "Report", 3600, 900, Values.Null, store, queue);
    var worker := new TaskQueueWorker();
    var result := new Result(["x"]);
    var c := worker.ProcessItemAsWritten(QueueItem("report", Values.Null), task, Returned(Some(result)), 1000);
    eventsDispatched := |worker.events|;
    escaped := c.Escaped?;
    storedLastSuccess := store.entries[StateKey("report")].lastSuccess;
  }
}
