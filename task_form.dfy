/**
 * The value handling of the task form (src/Form/TaskForm.php): the form
 * defaults, the quarter-hour rounding of the first execution time, and how
 * `submitForm` rewrites the submitted values before the entity is saved.
 */
module Forms {
  import opened Values
  import opened Arith
  import opened Tasks

  /** Fifteen minutes, in seconds. */
  const QUARTER_HOUR: int := 15 * 60

  /** The first quarter hour at or after `t`: `ceil(t / 900) * 900`. */
  function NextQuarterHour(t: int): (r: int)
    ensures r % QUARTER_HOUR == 0
    ensures t <= r < t + QUARTER_HOUR
  {
    var k := CeilDiv(t, QUARTER_HOUR);
    MultipleOfQuarterHour(k);
    k * QUARTER_HOUR
  }

  lemma MultipleOfQuarterHour(k: int)
    ensures (k * QUARTER_HOUR) % QUARTER_HOUR == 0
  {
  }

  /** A timestamp already on a quarter hour is left unchanged. */
  lemma NextQuarterHourKeepsAligned(t: int)
    requires t % QUARTER_HOUR == 0
    ensures NextQuarterHour(t) == t
  {
  }

  /** Rounding twice is rounding once. */
  lemma {:induction false} NextQuarterHourIdempotent(t: int)
    ensures NextQuarterHour(NextQuarterHour(t)) == NextQuarterHour(t)
  {
    NextQuarterHourKeepsAligned(NextQuarterHour(t));
  }

  /** `roundToNextQuarterHour($datetime)`: moves the given date object itself and returns it. */
  method RoundToNextQuarterHour(datetime: DateTime) returns (r: DateTime)
    modifies datetime
    ensures r == datetime
    ensures datetime.timestamp == NextQuarterHour(old(datetime.timestamp))
  {
    datetime.timestamp := NextQuarterHour(datetime.timestamp);
    r := datetime;
  }

  /**
   * The interval saved for the submitted "is recurring" flag and frequency in
   * minutes: seconds for a recurring task, 0 for a one-time task.
   */
  function SubmittedInterval(isRecurring: Value, minutes: Value): (seconds: int)
    requires Truthy(isRecurring) ==> minutes.Int?
    ensures !Truthy(isRecurring) ==> seconds == 0
    ensures Truthy(isRecurring) ==> seconds == minutes.i * 60
    ensures seconds % 60 == 0
    ensures seconds > 0 <==> Truthy(isRecurring) && minutes.i > 0
  {
    if Truthy(isRecurring) then minutes.i * 60 else 0
  }

  /**
   * The parameters saved for the selected worker: that worker's sub-array of
   * the submitted parameters when there is one, otherwise the raw value.
   */
  function SubmittedParams(raw: Value, workerId: string): (params: Value)
    ensures raw.Arr? && workerId in raw.entries ==> params == raw.entries[workerId]
    ensures !(raw.Arr? && workerId in raw.entries) ==> params == raw
  {
    if Truthy(raw) && raw.Arr? && workerId in raw.entries then raw.entries[workerId] else raw
  }

  /** The default of the "is recurring" select: Yes for a new task, else whether the task recurs. */
  function DefaultIsRecurring(isNew: bool, interval: int): (flag: int)
    ensures flag == 0 || flag == 1
    ensures flag == 1 <==> isNew || interval > 0
  {
    if isNew then 1 else if interval > 0 then 1 else 0
  }

  /**
   * The default of the frequency select in minutes: once per day (1440) for a
   * new or one-time task, else the interval in minutes (PHP's `/` gives a
   * fraction when the interval is not whole minutes).
   */
  function DefaultIntervalMinutes(isNew: bool, interval: int): (minutes: real)
    ensures isNew || interval <= 0 ==> minutes == 1440.0
    ensures !isNew && interval > 0 ==> minutes * 60.0 == interval as real
  {
    if isNew || interval <= 0 then 1440.0 else (interval as real) / 60.0
  }

  /**
   * Editing a saved task shows the choices it was saved with: a recurring
   * task with a positive frequency comes back as recurring with the same
   * frequency, a one-time task as not recurring with the daily default.
   */
  lemma EditShowsSubmittedSchedule(isRecurring: Value, minutes: int)
    requires minutes > 0
    ensures var interval := SubmittedInterval(isRecurring, Int(minutes));
            DefaultIsRecurring(false, interval) == (if Truthy(isRecurring) then 1 else 0) &&
            DefaultIntervalMinutes(false, interval) == (if Truthy(isRecurring) then minutes as real else 1440.0)
  {
  }

  /** The value submitted under `key`, NULL when the key is not set. */
  function Get(values: map<string, Value>, key: string): Value
  {
    if key in values then values[key] else Null
  }

  /** The values of a submitted form (`$form_state`'s values). */
  class FormState {
    var values: map<string, Value>

    constructor (values: map<string, Value>)
      ensures this.values == values
    {
      this.values := values;
    }

    /** `getValue($key)`: NULL for a key that is not set. */
    function GetValue(key: string): Value
      reads this
    {
      Get(values, key)
    }

    method SetValue(key: string, value: Value)
      modifies this
      ensures values == old(values)[key := value]
    {
      values := values[key := value];
    }

    method UnsetValue(key: string)
      modifies this
      ensures values == old(values) - {key}
    {
      values := values - {key};
    }
  }

  /**
   * The values `submitForm()` hands on to the entity save, given the
   * submitted values, the enabled flag to store and the submitted first
   * execution time: key by key, what changes and what stays.
   */
  function SubmittedValues(values: map<string, Value>, enabled: bool, firstExec: int): (r: map<string, Value>)
    requires Truthy(Get(values, "is_recurring")) ==> Get(values, "interval").Int?
    requires Get(values, "worker_id").Str?
    ensures r.Keys == values.Keys - {"is_recurring"} + {"interval", "params", "first_exec", "enabled"}
    ensures r["interval"] == Int(SubmittedInterval(Get(values, "is_recurring"), Get(values, "interval")))
    ensures r["params"] == SubmittedParams(Get(values, "params"), Get(values, "worker_id").s)
    ensures r["first_exec"] == Int(NextQuarterHour(firstExec)) && r["first_exec"].i % QUARTER_HOUR == 0
    ensures r["enabled"] == Bool(enabled)
    ensures forall key :: key in values && key !in {"is_recurring", "interval", "params", "first_exec", "enabled"} ==>
              key in r && r[key] == values[key]
  {
    var interval := SubmittedInterval(Get(values, "is_recurring"), Get(values, "interval"));
    var params := SubmittedParams(Get(values, "params"), Get(values, "worker_id").s);
    (values - {"is_recurring"})["interval" := Int(interval)]["params" := params]
      ["first_exec" := Int(NextQuarterHour(firstExec))]["enabled" := Bool(enabled)]
  }

  /** Setting "interval" before dropping "is_recurring", and unsetting "params" before setting it, change nothing. */
  lemma UpdateOrder(m: map<string, Value>, interval: Value, params: Value, firstExec: Value, enabled: Value)
    ensures ((m["interval" := interval] - {"is_recurring"}) - {"params"})["params" := params]
              ["first_exec" := firstExec]["enabled" := enabled]
            == (m - {"is_recurring"})["interval" := interval]["params" := params]
              ["first_exec" := firstExec]["enabled" := enabled]
  {
  }

  /**
   * `submitForm()` up to the parent's save: the frequency becomes an interval
   * in seconds and "is_recurring" goes; the parameters are narrowed to the
   * selected worker's; the first execution date is rounded up to a quarter
   * hour (the date object itself is moved) and stored as a timestamp; a new
   * task is enabled, an existing one keeps its current enabled status.
   */
  method SubmitForm(formState: FormState, task: Task, isNew: bool, firstExec: DateTime)
    requires Truthy(formState.GetValue("is_recurring")) ==> formState.GetValue("interval").Int?
    requires formState.GetValue("worker_id").Str?
    requires formState.GetValue("first_exec") == Date(firstExec)
    modifies formState, firstExec
    ensures firstExec.timestamp == NextQuarterHour(old(firstExec.timestamp))
    ensures formState.values == SubmittedValues(old(formState.values), isNew || task.IsEnabled(), old(firstExec.timestamp))
  {
    ghost var submitted := formState.values;
    ghost var ts := firstExec.timestamp;
    var isRecurring := formState.GetValue("is_recurring");
    var interval := if Truthy(isRecurring) then formState.GetValue("interval").i * 60 else 0;
    formState.SetValue("interval", Int(interval));
    formState.UnsetValue("is_recurring");

    var selectedWorkerId := formState.GetValue("worker_id").s;
    var params := formState.GetValue("params");
    if Truthy(params) && params.Arr? && selectedWorkerId in params.entries {
      params := params.entries[selectedWorkerId];
    }
    assert params == SubmittedParams(Get(submitted, "params"), Get(submitted, "worker_id").s);
    formState.UnsetValue("params");
    formState.SetValue("params", params);

    var rounded := RoundToNextQuarterHour(firstExec);
    formState.SetValue("first_exec", Int(rounded.timestamp));

    var enabled := if isNew then true else task.IsEnabled();
    formState.SetValue("enabled", Bool(enabled));
    UpdateOrder(submitted, Int(interval), params, Int(NextQuarterHour(ts)), Bool(enabled));
  }
}
