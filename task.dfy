/**
 * The task entity (src/Entity/Task.php): its configuration, its persisted
 * state, the state transitions it offers and how it is put on the queue.
 */
module Tasks {
  import opened Values
  import opened States
  import Schedule

  /** `QueueItem`: the task id and the parameter snapshot taken at enqueue time. */
  datatype QueueItem = QueueItem(taskId: string, params: Value)

  /**
   * The cron queue a task is put on. Whether the backend accepts an item
   * (`createItem` returning an item id or FALSE) is outside the model and is
   * passed in as `accept`.
   */
  class ItemQueue {
    var items: seq<QueueItem>

    constructor ()
      ensures items == []
    {
      items := [];
    }

    method CreateItem(item: QueueItem, accept: bool) returns (ok: bool)
      modifies this
      ensures ok == accept
      ensures items == if accept then old(items) + [item] else old(items)
    {
      ok := accept;
      if accept {
        items := items + [item];
      }
    }
  }

  class Task {
    const id: string
    /** The human readable name, the entity's label. */
    const name: string
    /** Seconds between runs; 0 or less for a one-time task. */
    const interval: int
    /** UNIX timestamp of the first (perhaps only) execution. */
    const firstExec: int
    /** Worker parameters; NULL until first read. */
    var params: Value
    /** Imported once by the constructor and never replaced. */
    const state: TaskState
    const queue: ItemQueue

    /** The state belongs to this task. */
    ghost predicate Valid()
    {
      state.id == StateKey(id)
    }

    /** Builds the entity; its state is imported from the store (and written back). */
    constructor (id: string, name: string, interval: int, firstExec: int, params: Value,
                 store: StateStore, queue: ItemQueue)
      modifies store
      ensures Valid() && fresh(state) && state.store == store && this.queue == queue
      ensures this.id == id && this.name == name && this.interval == interval
      ensures this.firstExec == firstExec && this.params == params
      ensures state.ToArray() == ImportedRecord(old(store.entries), StateKey(id))
      ensures store.entries == old(store.entries)[StateKey(id) := state.ToArray()]
      ensures state.Persisted()
    {
      var s := TaskState.Import(id, store);
      this.id := id;
      this.name := name;
      this.interval := interval;
      this.firstExec := firstExec;
      this.params := params;
      this.state := s;
      this.queue := queue;
    }

    /** What the due computations read. */
    function Snapshot(): Schedule.View
      reads state
    {
      Schedule.View(firstExec, interval, state.status, state.lastExecution, state.lastSuccessfulExecution)
    }

    /** `isEnabled()` / `status()`: any status but Disabled. */
    predicate IsEnabled()
      reads state
    {
      Schedule.IsEnabled(Snapshot())
    }

    /** `isDue()` at the clock reading `now`. */
    predicate IsDue(now: int)
      reads state
    {
      Schedule.IsDue(Snapshot(), now)
    }

    /** `isDueNext()` at the clock reading `now`. */
    function IsDueNext(now: int): Schedule.NextRun
      reads state
    {
      Schedule.IsDueNext(Snapshot(), now)
    }

    /** `enable()`: Idle, whatever the status was. */
    method Enable()
      modifies state, state.store
      ensures state.status == STATE_IDLE
      ensures state.lastExecution == old(state.lastExecution)
      ensures state.lastSuccessfulExecution == old(state.lastSuccessfulExecution)
      ensures state.store.entries == old(state.store.entries)[state.id := state.ToArray()]
      ensures state.Persisted()
    {
      state.SetStatus(STATE_IDLE);
    }

    /** `disable()`: Disabled, whatever the status was. */
    method Disable()
      modifies state, state.store
      ensures state.status == STATE_DISABLED
      ensures state.lastExecution == old(state.lastExecution)
      ensures state.lastSuccessfulExecution == old(state.lastSuccessfulExecution)
      ensures state.store.entries == old(state.store.entries)[state.id := state.ToArray()]
      ensures state.Persisted()
    {
      state.SetStatus(STATE_DISABLED);
    }

    /** `setHasStarted()`: Running, whatever the status was. */
    method SetHasStarted()
      modifies state, state.store
      ensures state.status == STATE_RUNNING
      ensures state.lastExecution == old(state.lastExecution)
      ensures state.lastSuccessfulExecution == old(state.lastSuccessfulExecution)
      ensures state.store.entries == old(state.store.entries)[state.id := state.ToArray()]
      ensures state.Persisted()
    {
      state.SetStatus(STATE_RUNNING);
    }

    /**
     * `setHasStopped($success, $timestamp)`: Idle with the last execution at
     * `timestamp`; the last successful execution moves only on success.
     */
    method SetHasStopped(success: bool, timestamp: int)
      modifies state, state.store
      ensures state.status == STATE_IDLE
      ensures state.lastExecution == timestamp
      ensures state.lastSuccessfulExecution == if success then timestamp else old(state.lastSuccessfulExecution)
      ensures state.store.entries == old(state.store.entries)[state.id := state.ToArray()]
      ensures state.Persisted()
    {
      if success {
        state.SetLastSuccessfulExecution(timestamp);
      }
      state.SetLastExecution(timestamp);
      state.SetStatus(STATE_IDLE);
    }

    /** `getParams()`: an unset parameter list reads (and is stored) as the empty array. */
    method GetParams() returns (p: Value)
      modifies this
      ensures p == if old(params) == Null then Arr(map[]) else old(params)
      ensures params == p
    {
      if params == Null {
        params := Arr(map[]);
      }
      p := params;
    }

    /** `toQueueableItem()`: this task's id with its current parameters. */
    method ToQueueableItem() returns (item: QueueItem)
      modifies this
      ensures params == if old(params) == Null then Arr(map[]) else old(params)
      ensures item == QueueItem(id, params)
    {
      var p := GetParams();
      item := QueueItem(id, p);
    }

    /**
     * `queue()`: a task that is not Queued is offered to the queue and becomes
     * Queued when the queue takes it (there is no check for Idle, so a
     * Disabled or Running task is queued too). A Queued task is left alone
     * and no item is created. The guard is the status only: a task whose
     * status left Queued while its item is still on the queue (disabled and
     * enabled again) is offered a second item.
     */
    method Queue(accept: bool)
      modifies this, state, state.store, queue
      ensures state.lastExecution == old(state.lastExecution)
      ensures state.lastSuccessfulExecution == old(state.lastSuccessfulExecution)
      ensures old(state.status) == STATE_QUEUED ==>
                queue.items == old(queue.items) && params == old(params) &&
                state.status == STATE_QUEUED && state.store.entries == old(state.store.entries)
      ensures old(state.status) != STATE_QUEUED ==>
                params == (if old(params) == Null then Arr(map[]) else old(params)) &&
                queue.items == old(queue.items) + (if accept then [QueueItem(id, params)] else []) &&
                state.status == (if accept then STATE_QUEUED else old(state.status)) &&
                state.store.entries ==
                  (if accept then old(state.store.entries)[state.id := state.ToArray()] else old(state.store.entries))
    {
      if state.status != STATE_QUEUED {
        var item := ToQueueableItem();
        var ok := queue.CreateItem(item, accept);
        if ok {
          state.SetStatus(STATE_QUEUED);
        }
      }
    }

    /** `delete()`: the task's state record leaves the store; other keys stay. */
    method Delete()
      modifies state.store
      ensures state.store.entries == old(state.store.entries) - {state.id}
    {
      state.Delete();
    }
  }
}
