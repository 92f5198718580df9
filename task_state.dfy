/**
 * The persisted status record of a task (src/Queue/TaskState.php) and the
 * key/value store it is written through to (Drupal's State API).
 */
module States {
  import opened Wrappers

  const STATE_DISABLED: string := "task_ui.state.disabled"
  const STATE_IDLE: string := "task_ui.state.idle"
  const STATE_QUEUED: string := "task_ui.state.queued"
  const STATE_RUNNING: string := "task_ui.state.running"

  /** Timestamp sentinel: the task has never been executed. */
  const HAS_NEVER_EXECUTED: int := 0

  const KEY_PREFIX: string := "task_ui.task."

  /** The four status values `setStatus` accepts. */
  predicate IsAllowedStatus(status: string)
  {
    status == STATE_DISABLED || status == STATE_IDLE || status == STATE_QUEUED || status == STATE_RUNNING
  }

  /** The array a state is saved as: `['status' => …, 'lastExec' => …, 'lastSuccess' => …]`. */
  datatype Record = Record(status: string, lastExec: int, lastSuccess: int)

  /** The record a never-seen task starts from. */
  const FRESH_RECORD: Record := Record(STATE_DISABLED, HAS_NEVER_EXECUTED, HAS_NEVER_EXECUTED)

  /** The State API key of a task: 'task_ui.task.<TASK_ID>'. */
  function StateKey(taskId: string): (key: string)
    ensures |key| == |KEY_PREFIX| + |taskId|
    ensures key[..|KEY_PREFIX|] == KEY_PREFIX && key[|KEY_PREFIX|..] == taskId
  {
    KEY_PREFIX + taskId
  }

  /** Distinct tasks have distinct keys, so one task's state never touches another's. */
  lemma StateKeyInjective(a: string, b: string)
    ensures StateKey(a) == StateKey(b) <==> a == b
  {
  }

  /** What `import` rebuilds a state from: the stored record, or the fresh one when the key is absent. */
  function ImportedRecord(entries: map<string, Record>, key: string): (r: Record)
    ensures key in entries ==> r == entries[key]
    ensures key !in entries ==> r.status == STATE_DISABLED && r.lastExec == HAS_NEVER_EXECUTED && r.lastSuccess == HAS_NEVER_EXECUTED
  {
    if key in entries then entries[key] else FRESH_RECORD
  }

  /** Importing a stored key and saving it back leaves the store as it was. */
  lemma ImportSaveIsIdentity(entries: map<string, Record>, key: string)
    requires key in entries
    ensures entries[key := ImportedRecord(entries, key)] == entries
  {
  }

  /** The process-wide key/value store (`\Drupal::state()`), reduced to the task records. */
  class StateStore {
    var entries: map<string, Record>

    constructor ()
      ensures entries == map[]
    {
      entries := map[];
    }

    function Get(key: string): (r: Option<Record>)
      reads this
      ensures r.Some? <==> key in entries
      ensures r.Some? ==> r.value == entries[key]
    {
      if key in entries then Some(entries[key]) else None
    }

    method Set(key: string, record: Record)
      modifies this
      ensures entries == old(entries)[key := record]
    {
      entries := entries[key := record];
    }

    method Delete(key: string)
      modifies this
      ensures entries == old(entries) - {key}
    {
      entries := entries - {key};
    }
  }

  class TaskState {
    /** 'task_ui.task.<TASK_ID>'; fixed at construction. */
    const id: string
    /** The store every change is written through to. */
    const store: StateStore
    var status: string
    var lastExecution: int
    var lastSuccessfulExecution: int

    /** `toArray()`. */
    function ToArray(): Record
      reads this
    {
      Record(status, lastExecution, lastSuccessfulExecution)
    }

    /** The store holds exactly this object's fields under its key. */
    ghost predicate Persisted()
      reads this, store
    {
      id in store.entries && store.entries[id] == ToArray()
    }

    /** `new TaskState($id, $status = DISABLED, $last = 0, $lastOk = 0)`: sets the fields and saves. */
    constructor (taskId: string, store: StateStore, status: string := STATE_DISABLED,
                 lastExecution: int := HAS_NEVER_EXECUTED, lastSuccessfulExecution: int := HAS_NEVER_EXECUTED)
      modifies store
      ensures this.id == StateKey(taskId) && this.store == store
      ensures this.status == status
      ensures this.lastExecution == lastExecution && this.lastSuccessfulExecution == lastSuccessfulExecution
      ensures store.entries == old(store.entries)[StateKey(taskId) := Record(status, lastExecution, lastSuccessfulExecution)]
      ensures Persisted()
    {
      this.id := StateKey(taskId);
      this.store := store;
      this.status := status;
      this.lastExecution := lastExecution;
      this.lastSuccessfulExecution := lastSuccessfulExecution;
      new;
      Save();
    }

    /**
     * `TaskState::import($id)`: rebuilds the state from the stored record, or
     * creates the fresh Disabled/never-run state when nothing is stored; either
     * way the record is written back.
     */
    static method Import(taskId: string, store: StateStore) returns (s: TaskState)
      modifies store
      ensures fresh(s) && s.store == store && s.id == StateKey(taskId)
      ensures s.ToArray() == ImportedRecord(old(store.entries), StateKey(taskId))
      ensures StateKey(taskId) !in old(store.entries) ==> store.entries == old(store.entries)[s.id := FRESH_RECORD]
      ensures StateKey(taskId) in old(store.entries) ==> store.entries == old(store.entries)
      ensures s.Persisted()
    {
      var stored := store.Get(StateKey(taskId));
      if stored.None? {
        s := new TaskState(taskId, store);
      } else {
        var r := stored.value;
        s := new TaskState(taskId, store, r.status, r.lastExec, r.lastSuccess);
        ImportSaveIsIdentity(old(store.entries), StateKey(taskId));
      }
    }

    /** `save()`: writes this state under its key and touches no other key. */
    method Save()
      modifies store
      ensures store.entries == old(store.entries)[id := ToArray()]
      ensures Persisted()
    {
      store.Set(id, ToArray());
    }

    /** `delete()`: removes this state's key and no other. */
    method Delete()
      modifies store
      ensures store.entries == old(store.entries) - {id}
      ensures id !in store.entries
    {
      store.Delete(id);
    }

    /** `setStatus()`: one of the four constants is stored and saved; anything else is ignored. */
    method SetStatus(newStatus: string)
      modifies this, store
      ensures IsAllowedStatus(newStatus) ==> status == newStatus && store.entries == old(store.entries)[id := ToArray()]
      ensures !IsAllowedStatus(newStatus) ==> status == old(status) && store.entries == old(store.entries)
      ensures lastExecution == old(lastExecution) && lastSuccessfulExecution == old(lastSuccessfulExecution)
      ensures IsAllowedStatus(newStatus) || old(Persisted()) ==> Persisted()
    {
      if IsAllowedStatus(newStatus) {
        status := newStatus;
        Save();
      }
    }

    /** `setLastExecution()`: changes only the last execution time, and saves. */
    method SetLastExecution(timestamp: int)
      modifies this, store
      ensures lastExecution == timestamp
      ensures status == old(status) && lastSuccessfulExecution == old(lastSuccessfulExecution)
      ensures store.entries == old(store.entries)[id := ToArray()]
      ensures Persisted()
    {
      lastExecution := timestamp;
      Save();
    }

    /** `setLastSuccessfulExecution()`: changes only the last successful execution time, and saves. */
    method SetLastSuccessfulExecution(timestamp: int)
      modifies this, store
      ensures lastSuccessfulExecution == timestamp
      ensures status == old(status) && lastExecution == old(lastExecution)
      ensures store.entries == old(store.entries)[id := ToArray()]
      ensures Persisted()
    {
      lastSuccessfulExecution := timestamp;
      Save();
    }
  }

  /** Saving a state and importing its task again reproduces all three fields and leaves the store alone. */
  method SaveThenImport(s: TaskState, taskId: string) returns (t: TaskState)
    requires s.id == StateKey(taskId)
    modifies s.store
    ensures fresh(t) && t.id == s.id && t.store == s.store
    ensures t.ToArray() == s.ToArray()
    ensures s.store.entries == old(s.store.entries)[s.id := s.ToArray()]
  {
    s.Save();
    t := TaskState.Import(taskId, s.store);
  }
}
