/**
 * When a task is due (src/Entity/Task.php, isDue / isDueNext and the state
 * queries they use), as pure integer arithmetic over a snapshot of the task's
 * configuration and state. The clock reading `now` is a parameter.
 */
module Schedule {
  import opened States
  import opened Arith

  /** The cron run granularity, `Task::CRON_INTERVAL`, in seconds. */
  const CRON_INTERVAL: int := 60

  /** What the due computations read: the task's first_exec and interval, and its state record. */
  datatype View = View(firstExec: int, interval: int, status: string, lastExec: int, lastSuccess: int)

  predicate IsEnabled(v: View) { v.status != STATE_DISABLED }

  predicate IsQueueing(v: View) { v.status == STATE_QUEUED }

  predicate IsRunning(v: View) { v.status == STATE_RUNNING }

  /** An interval of 0 or less marks a one-time task. */
  predicate IsRecurring(v: View) { v.interval > 0 }

  predicate HasRun(v: View) { v.lastExec != HAS_NEVER_EXECUTED }

  predicate HasRunSince(v: View, timestamp: int) { v.lastExec >= timestamp }

  /** The most recent run (if any) was a successful one. */
  predicate LastExecutionSucceeded(v: View)
  {
    HasRun(v) && v.lastSuccess == v.lastExec
  }

  /**
   * The start of the interval window that contains `now`: windows are
   * anchored at first_exec and walk forward in whole intervals.
   */
  function WindowStart(v: View, now: int): (ws: int)
    requires v.interval != 0
    ensures v.interval > 0 ==> ws <= now < ws + v.interval
    ensures v.interval > 0 ==> (ws - v.firstExec) % v.interval == 0
  {
    var k := FloorDiv(now - v.firstExec, v.interval);
    var ws := v.firstExec + k * v.interval;
    assert v.interval > 0 ==> (ws - v.firstExec) % v.interval == 0 by {
      if v.interval > 0 {
        MultipleMod(k, v.interval);
      }
    }
    ws
  }

  /** A whole number of intervals leaves no remainder. */
  lemma MultipleMod(k: int, n: int)
    requires n > 0
    ensures (k * n) % n == 0
  {
    var q, m := (k * n) / n, (k * n) % n;
    assert k * n == q * n + m && 0 <= m < n;
    assert m == (k - q) * n;
    if k - q >= 1 {
      MulMonotone(1, k - q, n);
    } else if k - q <= -1 {
      MulMonotone(k - q, -1, n);
    }
  }

  /** `now` lies in window number k (counted from first_exec). */
  predicate InWindow(v: View, now: int, k: int)
  {
    v.firstExec + k * v.interval <= now < v.firstExec + k * v.interval + v.interval
  }

  /**
   * `isDue()`. Only an enabled task that is not already queued can be due,
   * and a one-time task only before its first run.
   */
  function IsDue(v: View, now: int): (due: bool)
    ensures due ==> IsEnabled(v) && !IsQueueing(v)
    ensures due && !IsRecurring(v) ==> !HasRun(v) && now > v.firstExec
    ensures due && HasRun(v) && LastExecutionSucceeded(v) ==> v.lastExec < WindowStart(v, now)
  {
    if IsEnabled(v) && !IsQueueing(v) then
      if !HasRun(v) then now - v.firstExec > 0
      else if IsRecurring(v) then
        if !LastExecutionSucceeded(v) then true
        else !HasRunSince(v, WindowStart(v, now))
      else false
    else false
  }

  /**
   * The answer of `isDueNext()`: FALSE, a timestamp, or the division by a zero
   * interval that PHP raises for a never-run one-time task whose first_exec
   * has passed.
   */
  datatype NextRun = NotScheduled | At(time: int) | DivisionByZero

  /** The next cron tick at or after `now`, counted in whole ticks from `from`. */
  function CronTick(from: int, now: int): (t: int)
    ensures now <= t < now + CRON_INTERVAL
    ensures (t - from) % CRON_INTERVAL == 0
  {
    var k := CeilDiv(now - from, CRON_INTERVAL);
    MultipleMod(k, CRON_INTERVAL);
    from + k * CRON_INTERVAL
  }

  /** `isDueNext()`. */
  function IsDueNext(v: View, now: int): (r: NextRun)
    ensures r == NotScheduled <==> !IsEnabled(v) || IsQueueing(v) || (!IsRecurring(v) && HasRun(v))
    ensures r == DivisionByZero <==>
              IsEnabled(v) && !IsQueueing(v) && !HasRun(v) && v.firstExec <= now && v.interval == 0
    ensures r.At? ==> r.time >= now
  {
    if !IsEnabled(v) || IsQueueing(v) || (!IsRecurring(v) && HasRun(v)) then NotScheduled
    else if !HasRun(v) && v.firstExec > now then At(v.firstExec)
    else if v.interval == 0 then DivisionByZero
    else
      var ws := WindowStart(v, now);
      if HasRunSince(v, ws) && LastExecutionSucceeded(v) then At(ws + v.interval)
      else At(CronTick(ws, now))
  }

  // ---------------------------------------------------------------------------
  // Window arithmetic

  /** Exactly one window contains `now`: the one WindowStart picks. */
  lemma {:induction false} WindowStartUnique(v: View, now: int, k: int)
    requires v.interval > 0 && InWindow(v, now, k)
    ensures WindowStart(v, now) == v.firstExec + k * v.interval
  {
    var q := FloorDiv(now - v.firstExec, v.interval);
    var n := v.interval;
    if q < k {
      MulMonotone(q + 1, k, n);
    } else if q > k {
      MulMonotone(k + 1, q, n);
    }
  }

  lemma MulMonotone(a: int, b: int, n: int)
    requires a <= b && n > 0
    ensures a * n <= b * n
  {
  }

  /** Later clock readings never fall into an earlier window. */
  lemma {:induction false} WindowStartMonotone(v: View, a: int, b: int)
    requires v.interval > 0 && a <= b
    ensures WindowStart(v, a) <= WindowStart(v, b)
  {
    var n := v.interval;
    var qa := FloorDiv(a - v.firstExec, n);
    var qb := FloorDiv(b - v.firstExec, n);
    if qa > qb {
      MulMonotone(qb + 1, qa, n);
    }
    MulMonotone(qa, qb, n);
  }

  // ---------------------------------------------------------------------------
  // isDue

  /** A disabled or already queued task is never due, whatever its timestamps. */
  lemma DisabledOrQueuedNeverDue(v: View, now: int)
    requires !IsEnabled(v) || IsQueueing(v)
    ensures !IsDue(v, now) && IsDueNext(v, now) == NotScheduled
  {
  }

  /** A task that never ran becomes due strictly after its first execution time. */
  lemma NeverRunDue(v: View, now: int)
    requires IsEnabled(v) && !IsQueueing(v) && !HasRun(v)
    ensures IsDue(v, now) <==> now > v.firstExec
    ensures v.firstExec > now ==> IsDueNext(v, now) == At(v.firstExec)
  {
  }

  /** Once run, a one-time task is never due again, at any later time. */
  lemma OneTimeRunsOnce(v: View, now: int)
    requires HasRun(v) && !IsRecurring(v)
    ensures !IsDue(v, now) && IsDueNext(v, now) == NotScheduled
  {
  }

  /**
   * A recurring task whose last run failed is due at once, whatever the
   * interval, and its next time is the coming cron tick.
   */
  lemma RetryAfterFailure(v: View, now: int)
    requires IsEnabled(v) && !IsQueueing(v) && IsRecurring(v) && HasRun(v) && !LastExecutionSucceeded(v)
    ensures IsDue(v, now)
    ensures IsDueNext(v, now).At?
    ensures now <= IsDueNext(v, now).time < now + CRON_INTERVAL
  {
  }

  /**
   * For a recurring task whose last run succeeded: if `now` is in window k,
   * the task is due exactly when it has not run since that window began.
   */
  lemma {:induction false} DueInWindow(v: View, now: int, k: int)
    requires IsEnabled(v) && !IsQueueing(v) && IsRecurring(v) && LastExecutionSucceeded(v)
    requires InWindow(v, now, k)
    ensures IsDue(v, now) <==> v.lastExec < v.firstExec + k * v.interval
  {
    WindowStartUnique(v, now, k);
  }

  // ---------------------------------------------------------------------------
  // isDueNext

  /**
   * For a recurring task that ran successfully in the current window,
   * isDueNext is the start of the next window, and that is the first moment
   * from which isDue holds again (with the state unchanged and the last run
   * not in the future).
   */
  lemma {:induction false} NextWindowIsFirstDueTime(v: View, now: int, later: int)
    requires IsEnabled(v) && !IsQueueing(v) && IsRecurring(v) && LastExecutionSucceeded(v)
    requires v.lastExec <= now <= later
    requires !IsDue(v, now)
    ensures IsDueNext(v, now) == At(WindowStart(v, now) + v.interval)
    ensures IsDueNext(v, now).time > now
    ensures (IsDueNext(v, now).time - v.firstExec) % v.interval == 0
    ensures IsDue(v, later) <==> later >= IsDueNext(v, now).time
  {
    var n := v.interval;
    var k := FloorDiv(now - v.firstExec, n);
    var ws := WindowStart(v, now);
    assert ws == v.firstExec + k * n;
    var next := ws + n;
    assert next == v.firstExec + (k + 1) * n;
    MultipleMod(k + 1, n);
    if later >= next {
      WindowStartUnique(v, next, k + 1);
      WindowStartMonotone(v, next, later);
    } else {
      WindowStartUnique(v, later, k);
    }
  }

  /**
   * When a recurring task is due, isDueNext names the coming
   * cron tick: within one cron interval of now, aligned to the window start.
   */
  lemma DueMeansNextCronTick(v: View, now: int)
    requires IsRecurring(v) && IsDue(v, now)
    ensures IsDueNext(v, now) == At(CronTick(WindowStart(v, now), now))
    ensures now <= IsDueNext(v, now).time < now + CRON_INTERVAL
    ensures (IsDueNext(v, now).time - WindowStart(v, now)) % CRON_INTERVAL == 0
  {
  }

  /**
   * A task with a non-zero interval (a negative one included) that never ran
   * and whose first execution time has come (not picked up by cron yet) is
   * next run at the coming cron tick.
   */
  lemma OverdueFirstRunNextCronTick(v: View, now: int)
    requires IsEnabled(v) && !IsQueueing(v) && v.interval != 0 && !HasRun(v) && v.firstExec <= now
    ensures IsDueNext(v, now) == At(CronTick(WindowStart(v, now), now))
    ensures now <= IsDueNext(v, now).time < now + CRON_INTERVAL
    ensures (IsDueNext(v, now).time - WindowStart(v, now)) % CRON_INTERVAL == 0
  {
  }

  /**
   * isDue does not look for Running: a task whose run is still in progress
   * is due again once its window has passed, and cron queues it again.
   */
  lemma RunningTaskCanBeDue()
    ensures IsRunning(View(1000, 100, STATE_RUNNING, 1050, 1050))
    ensures IsDue(View(1000, 100, STATE_RUNNING, 1050, 1050), 1199)
  {
    WindowStartUnique(View(1000, 100, STATE_RUNNING, 1050, 1050), 1199, 1);
  }

  /**
   * More generally, Running is treated like Idle: neither isDue nor
   * isDueNext tells the two apart.
   */
  lemma RunningIsLikeIdle(v: View, now: int)
    requires v.status == STATE_RUNNING
    ensures IsDue(v, now) == IsDue(v.(status := STATE_IDLE), now)
    ensures IsDueNext(v, now) == IsDueNext(v.(status := STATE_IDLE), now)
  {
  }

  /** The worked example: first_exec 1000, interval 100, checked at 1199. */
  lemma WorkedExample()
    ensures WindowStart(View(1000, 100, STATE_IDLE, 1050, 1050), 1199) == 1100
    ensures IsDue(View(1000, 100, STATE_IDLE, 1050, 1050), 1199)
    ensures !IsDue(View(1000, 100, STATE_IDLE, 1150, 1150), 1199)
    ensures IsDueNext(View(1000, 100, STATE_IDLE, 1150, 1150), 1199) == At(1200)
  {
  }
}
