/** The LMS's `CronScheduler`: a start/stop state machine over the list of scheduled
    cron tasks. The cron library itself, and the HTTP call each tick makes, are not
    modelled; a scheduled task is recorded by its cron expression. */
module CronScheduler {

  const DEFAULT_BASE_URL := "http://localhost:3000"

  /** Every minute, matching the one-minute selection window of the reminder engine. */
  const EVERY_MINUTE := "* * * * *"

  datatype ScheduledTask = ScheduledTask(expression: string)

  datatype Status = Status(isRunning: bool, activeTasksCount: nat, baseUrl: string)

  class Scheduler {
    var baseUrl: string
    var isRunning: bool
    var scheduledTasks: seq<ScheduledTask>

    /** A running scheduler holds exactly one task; a stopped one holds none. */
    ghost predicate Valid()
      reads this
    {
      |scheduledTasks| == if isRunning then 1 else 0
    }

    constructor (baseUrl: string := DEFAULT_BASE_URL)
      ensures Valid()
      ensures this.baseUrl == baseUrl && !isRunning && scheduledTasks == []
    {
      this.baseUrl := baseUrl;
      isRunning := false;
      scheduledTasks := [];
    }

    /** `start`: a running scheduler is left alone; a stopped one schedules the
        every-minute task and runs. */
    method Start()
      requires Valid()
      modifies this`isRunning, this`scheduledTasks
      ensures Valid()
      ensures old(isRunning) ==> isRunning && scheduledTasks == old(scheduledTasks)
      ensures !old(isRunning) ==> isRunning && scheduledTasks == [ScheduledTask(EVERY_MINUTE)]
    {
      if isRunning {
        return;
      }
      isRunning := true;
      scheduledTasks := scheduledTasks + [ScheduledTask(EVERY_MINUTE)];
    }

    /** `stop`: a stopped scheduler is left alone; a running one destroys its tasks
        and stops. */
    method Stop()
      requires Valid()
      modifies this`isRunning, this`scheduledTasks
      ensures Valid()
      ensures !isRunning && scheduledTasks == []
    {
      if !isRunning {
        return;
      }
      isRunning := false;
      scheduledTasks := [];
    }

    /** `getStatus`: whether it runs and how many tasks are scheduled — one exactly
        when it runs. */
    method GetStatus() returns (status: Status)
      requires Valid()
      ensures status.isRunning == isRunning && status.baseUrl == baseUrl
      ensures status.activeTasksCount == |scheduledTasks|
      ensures status.activeTasksCount == if status.isRunning then 1 else 0
    {
      status := Status(isRunning, |scheduledTasks|, baseUrl);
    }

    /** `setCustomSchedule`: stop if running, then run with the one given schedule. */
    method SetCustomSchedule(expression: string)
      requires Valid()
      modifies this`isRunning, this`scheduledTasks
      ensures Valid()
      ensures isRunning && scheduledTasks == [ScheduledTask(expression)]
    {
      if isRunning {
        Stop();
      }
      isRunning := true;
      scheduledTasks := scheduledTasks + [ScheduledTask(expression)];
    }
  }
}
