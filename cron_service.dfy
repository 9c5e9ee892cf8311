/** The student app's `CronService`: a start/stop state machine over a map of named
    cron jobs, whose single job runs the reminder cycle every 30 minutes, plus a
    manual trigger of that cycle. The cron library is not modelled; a job is recorded
    by its cron expression. The cycle is taken to be the LMS reminder processor's,
    with its one-minute selection window, and the half-hour ticks to fall on
    multiples of 30 minutes since the epoch. */
module CronService {

  import opened Database
  import ReminderProcessor

  const REMINDERS_JOB := "reminders"

  /** Minutes 0 and 30 of every hour. */
  const EVERY_HALF_HOUR := "*/30 * * * *"
  const HALF_HOUR_MS := 30 * MINUTE_MS

  datatype CronJob = CronJob(expression: string)

  datatype Status = Status(running: bool, jobs: seq<string>, nextRun: string)

  class Service {
    var jobs: map<string, CronJob>
    var isRunning: bool

    /** Running exactly when the `reminders` job is the one registered job. */
    ghost predicate Valid()
      reads this
    {
      && (isRunning ==> jobs == map[REMINDERS_JOB := CronJob(EVERY_HALF_HOUR)])
      && (!isRunning ==> jobs == map[])
    }

    constructor ()
      ensures Valid()
      ensures !isRunning && jobs == map[]
    {
      jobs := map[];
      isRunning := false;
    }

    /** `start(dueDate, remindHour, frequency)`: the arguments are ignored. A running
        service is left alone; a stopped one registers the half-hourly `reminders`
        job and runs. */
    method Start(dueDate: int, remindHour: int, frequency: int)
      requires Valid()
      modifies this
      ensures Valid()
      ensures isRunning
      ensures old(isRunning) ==> jobs == old(jobs)
      ensures jobs.Keys == {REMINDERS_JOB}
    {
      if isRunning {
        return;
      }
      jobs := jobs[REMINDERS_JOB := CronJob(EVERY_HALF_HOUR)];
      isRunning := true;
    }

    /** `stop`: whatever the state, no job remains and the service does not run. */
    method Stop()
      modifies this
      ensures !isRunning && jobs == map[]
      ensures Valid()
    {
      jobs := map[];
      isRunning := false;
    }

    /** `getStatus`: the names of the registered jobs, each once, and the schedule
        text, which names the half-hour cadence exactly when the service runs. */
    method GetStatus() returns (status: Status)
      requires Valid()
      ensures status.running == isRunning
      ensures forall name :: name in status.jobs <==> name in jobs
      ensures forall i, j :: 0 <= i < j < |status.jobs| ==> status.jobs[i] != status.jobs[j]
      ensures status.running <==> status.jobs == [REMINDERS_JOB]
      ensures status.nextRun == if status.running then "Every 30 minutes" else "Not scheduled"
    {
      var names: seq<string> := [];
      var left := jobs.Keys;
      while left != {}
        invariant left <= jobs.Keys
        invariant forall name :: name in names <==> name in jobs && name !in left
        invariant forall i, j :: 0 <= i < j < |names| ==> names[i] != names[j]
        invariant |names| + |left| == |jobs.Keys|
        decreases left
      {
        var name :| name in left;
        names := names + [name];
        left := left - {name};
      }
      if isRunning {
        assert jobs.Keys == {REMINDERS_JOB};
        assert names[0] in names;
      }
      status := Status(isRunning, names, if isRunning then "Every 30 minutes" else "Not scheduled");
    }

    /** `triggerReminders`: one reminder cycle run on demand, with the cycle's own
        effect and result; a cycle that fails is passed on to the caller. */
    method TriggerReminders(store: Store, env: ReminderProcessor.Environment) returns (result: ReminderProcessor.CycleResult)
      requires store.Valid()
      modifies store
      ensures store.Valid()
      ensures store.tasks == old(store.tasks) && store.students == old(store.students)
      ensures store.nextReminderId == old(store.nextReminderId)
      ensures ReminderProcessor.CycleEffect(old(store.reminders), old(store.logs), store.tasks, store.students, env, store.reminders, store.logs, result)
      ensures result.Completed? <==> env.cycleFault.None?
    {
      result := ReminderProcessor.ProcessReminders(store, env);
    }
  }

  /** With half-hourly ticks only a reminder whose fire instant falls in the last
      minute before a half hour (or on it) is ever selected: the candidate window
      of every tick lies in such a minute. */
  lemma HalfHourTicksSelectLastMinute(fire: int, k: int)
    requires ReminderProcessor.InWindow(fire, k * HALF_HOUR_MS)
    ensures fire % HALF_HOUR_MS == 0 || fire % HALF_HOUR_MS > HALF_HOUR_MS - MINUTE_MS
  {
    var q := fire / 1800000;
    var m := fire % 1800000;
    assert fire == q * 1800000 + m && 0 <= m < 1800000;
    assert k * 1800000 - 60000 < fire <= k * 1800000;
    assert m == 0 || q == k - 1;
  }

  /** So a reminder due to fire five minutes past an hour is never selected. */
  lemma HalfHourTicksMissFivePast(hour: int)
    ensures forall k :: !ReminderProcessor.InWindow(hour * HOUR_MS + 5 * MINUTE_MS, k * HALF_HOUR_MS)
  {
    var fire := hour * HOUR_MS + 5 * MINUTE_MS;
    assert fire == (2 * hour) * 1800000 + 300000;
    assert fire % 1800000 == 300000;
    forall k | ReminderProcessor.InWindow(fire, k * HALF_HOUR_MS)
      ensures false
    {
      HalfHourTicksSelectLastMinute(fire, k);
    }
  }
}
