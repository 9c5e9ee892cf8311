/** The reminder dispatch engine (my_lms/reminderProcessor.ts). One cycle cleans the
    store of obsolete reminders, selects the reminders whose fire instant fell in the
    last minute, and dispatches each through its channel, appending one attempt row.

    The outside world enters as an `Environment`: the instant `now` (the source reads
    the clock several times per cycle; the model uses one instant), what each channel
    answers, which store operations throw, and the locale rendering of a due date. */
module ReminderProcessor {

  import opened Collections
  import opened Database
  import Text
  import WhatsApp

  /** A row of the candidate query: a reminder joined with its task and its student. */
  datatype Candidate = Candidate(reminder: Reminder, task: Task, studentName: string)

  /** How one store operation of `processIndividualReminder` goes: the count queries
      may throw (caught: the reminder yields `false`), or the log insert may throw
      (caught and swallowed by `logReminderAttempt`). */
  datatype ReminderFault = NoFault | CountQueryFails | LogInsertFails

  /** The statements of a cycle that may throw out of `processReminders`. */
  datatype CycleStage = Connect | DeleteSubmitted | DeleteOverdue | DeleteExhausted | DeleteOrphanLogs | SelectDue
  {
    /** The four deletions of `cleanupObsoleteReminders`. */
    predicate IsCleanupStep()
    {
      DeleteSubmitted? || DeleteOverdue? || DeleteExhausted? || DeleteOrphanLogs?
    }
  }

  datatype Environment = Environment(
    now: int,
    accepts: ReminderId -> bool,
    faults: ReminderId -> ReminderFault,
    cycleFault: Option<CycleStage>,
    formatDate: int -> string)

  // ---------------------------------------------------------------- selection

  /** `DATE_SUB(ct.due_date, INTERVAL r.remind_before_hours HOUR)` */
  function FireTime(due: int, leadHours: int): int
  {
    due - leadHours * HOUR_MS
  }

  /** The half-open window `(now - 1 minute, now]`. */
  predicate InWindow(fire: int, now: int)
  {
    now - MINUTE_MS < fire <= now
  }

  /** The WHERE clause of the candidate query for a reminder joined with its task. */
  predicate IsDue(r: Reminder, t: Task, now: int)
  {
    && r.active
    && t.status != SUBMITTED
    && t.due > now - DAY_MS
    && InWindow(FireTime(t.due, r.leadHours), now)
  }

  predicate Joined(c: Candidate, tasks: map<TaskId, Task>, students: map<StudentId, string>)
  {
    && c.reminder.taskId in tasks && c.task == tasks[c.reminder.taskId]
    && c.reminder.studentId in students && c.studentName == students[c.reminder.studentId]
  }

  /** The candidate query: reminders joined (inner joins) with their task and student,
      kept when `IsDue`. The query has no ORDER BY; the model keeps store order. */
  function SelectCandidates(reminders: seq<Reminder>, tasks: map<TaskId, Task>, students: map<StudentId, string>, now: int): seq<Candidate>
  {
    if reminders == [] then []
    else
      var r := reminders[0];
      var rest := SelectCandidates(reminders[1..], tasks, students, now);
      if r.taskId in tasks && r.studentId in students && IsDue(r, tasks[r.taskId], now)
      then [Candidate(r, tasks[r.taskId], students[r.studentId])] + rest
      else rest
  }

  /** The candidates are exactly the due reminders that have a task and a student,
      each joined with its rows, one candidate per reminder at most. */
  lemma {:induction false} SelectCandidatesExact(reminders: seq<Reminder>, tasks: map<TaskId, Task>, students: map<StudentId, string>, now: int)
    ensures var cs := SelectCandidates(reminders, tasks, students, now);
      && |cs| <= |reminders|
      && (forall c :: c in cs ==> c.reminder in reminders && Joined(c, tasks, students) && IsDue(c.reminder, c.task, now))
      && (forall r :: r in reminders && r.taskId in tasks && r.studentId in students && IsDue(r, tasks[r.taskId], now) ==>
            Candidate(r, tasks[r.taskId], students[r.studentId]) in cs)
  {
    if reminders != [] {
      SelectCandidatesExact(reminders[1..], tasks, students, now);
      assert forall x :: x in reminders[1..] ==> x in reminders;
      assert reminders == [reminders[0]] + reminders[1..];
    }
  }

  /** The tick whose window holds `fire` is determined by `fire` alone. */
  lemma WindowTick(fire: int, origin: int, k: int)
    requires InWindow(fire, origin + k * MINUTE_MS)
    ensures k == (fire - origin + MINUTE_MS - 1) / MINUTE_MS
  {
    var d := fire - origin + 59999;
    assert k * 60000 <= d < k * 60000 + 60000;
    var q := d / 60000;
    assert q * 60000 <= d < q * 60000 + 60000;
  }

  /** With one tick a minute, every fire instant lies in the window of exactly one tick. */
  lemma MinuteTicksCoverOnce(fire: int, origin: int)
    ensures exists k :: InWindow(fire, origin + k * MINUTE_MS)
    ensures forall k1, k2 :: InWindow(fire, origin + k1 * MINUTE_MS) && InWindow(fire, origin + k2 * MINUTE_MS) ==> k1 == k2
  {
    var k := (fire - origin + MINUTE_MS - 1) / MINUTE_MS;
    assert InWindow(fire, origin + k * MINUTE_MS);
    forall k1, k2 | InWindow(fire, origin + k1 * MINUTE_MS) && InWindow(fire, origin + k2 * MINUTE_MS)
      ensures k1 == k2
    {
      WindowTick(fire, origin, k1);
      WindowTick(fire, origin, k2);
    }
  }

  // ---------------------------------------------------------------- urgency

  /** `Math.floor((due - now) / 3600000)`: with a positive divisor Dafny's `/` floors. */
  function HoursUntilDue(due: int, now: int): int
  {
    (due - now) / HOUR_MS
  }

  /** `Math.floor((due - now) / 60000)` */
  function MinutesUntilDue(due: int, now: int): int
  {
    (due - now) / MINUTE_MS
  }

  lemma HoursIsFloor(due: int, now: int)
    ensures var h := HoursUntilDue(due, now);
      h * HOUR_MS <= due - now < (h + 1) * HOUR_MS
  {
  }

  datatype Urgency = Overdue(hoursLate: nat) | DueWithinHour(minutes: int) | Upcoming(hours: nat)

  /** The three-way split on `hoursUntilDue` (negative, zero, positive). */
  function Classify(due: int, now: int): (u: Urgency)
    ensures u.Overdue? <==> due < now
    ensures u.DueWithinHour? <==> now <= due < now + HOUR_MS
    ensures u.Upcoming? <==> now + HOUR_MS <= due
  {
    var h := HoursUntilDue(due, now);
    HoursIsFloor(due, now);
    if h < 0 then Overdue(-h)
    else if h == 0 then DueWithinHour(MinutesUntilDue(due, now))
    else Upcoming(h)
  }

  /** The numbers the subject shows: whole minutes left (0 to 59) within the last
      hour, whole hours left beyond it, and hours late rounded up once overdue. */
  lemma ClassifyMeasures(due: int, now: int)
    ensures var u := Classify(due, now);
      && (u.DueWithinHour? ==> 0 <= u.minutes < 60 && u.minutes * 60000 <= due - now < (u.minutes + 1) * 60000)
      && (u.Upcoming? ==> u.hours * 3600000 <= due - now < (u.hours + 1) * 3600000)
      && (u.Overdue? ==> 0 < u.hoursLate && (u.hoursLate - 1) * 3600000 < now - due <= u.hoursLate * 3600000)
  {
    HoursIsFloor(due, now);
  }

  /** The email subject of `sendReminder` (the pieces grouped from the right). */
  function EmailSubject(taskName: string, u: Urgency): string
  {
    match u
    case Overdue(h) => "\U{1F6A8} OVERDUE: " + (taskName + SubjectTail(u))
    case DueWithinHour(m) => "\U{23F0} URGENT: " + (taskName + SubjectTail(u))
    case Upcoming(h) => "\U{1F4DD} Reminder: " + (taskName + SubjectTail(u))
  }

  /** What the subject says after the task name. */
  function SubjectTail(u: Urgency): string
  {
    match u
    case Overdue(h) => " - " + Text.IntToString(h) + " hours overdue"
    case DueWithinHour(m) => " - Due in " + Text.IntToString(m) + " minutes"
    case Upcoming(h) => " - Due in " + Text.IntToString(h) + " hours"
  }

  /** The subject's leading symbol tells the three urgencies apart. */
  lemma SubjectShowsUrgency(taskName: string, due: int, now: int)
    ensures var s := EmailSubject(taskName, Classify(due, now));
      && (s[0] == '\U{1F6A8}' <==> due < now)
      && (s[0] == '\U{23F0}' <==> now <= due < now + HOUR_MS)
      && (s[0] == '\U{1F4DD}' <==> now + HOUR_MS <= due)
  {
  }

  /** Every subject names the task. */
  lemma SubjectNamesTask(taskName: string, u: Urgency)
    ensures Text.Includes(EmailSubject(taskName, u), taskName)
  {
    var head := match u
      case Overdue(_) => "\U{1F6A8} OVERDUE: "
      case DueWithinHour(_) => "\U{23F0} URGENT: "
      case Upcoming(_) => "\U{1F4DD} Reminder: ";
    var tail := SubjectTail(u);
    Text.IncludesHead(taskName, tail);
    Text.IncludesAfter(head, taskName + tail, taskName);
  }

  // ---------------------------------------------------------------- dispatch

  /** What a channel is asked to deliver. */
  datatype Outbound = EmailOut(to: string, subject: string) | WhatsAppOut(to: string, message: string)

  /** `sendReminder`: compose for the reminder's channel; an unknown channel sends
      nothing. The task name and course name come from the joined task row. */
  function Compose(c: Candidate, now: int, formatDate: int -> string): (o: Option<Outbound>)
    ensures o.Some? <==> c.reminder.kind == EMAIL || c.reminder.kind == WHATSAPP
    ensures o.Some? ==> o.value.to == c.reminder.contact
    ensures o.Some? ==> (o.value.EmailOut? <==> c.reminder.kind == EMAIL)
  {
    var r := c.reminder;
    if r.kind == EMAIL then
      Some(EmailOut(r.contact, EmailSubject(c.task.name, Classify(c.task.due, now))))
    else if r.kind == WHATSAPP then
      Some(WhatsAppOut(r.contact, WhatsApp.CreateReminderMessage(
        c.studentName, c.task.name, c.task.courseName, formatDate(c.task.due), HoursUntilDue(c.task.due, now))))
    else None
  }

  /** An email names the task and its subject leads with the urgency's symbol; a
      WhatsApp message names the student, the task, the course and the formatted due
      date. */
  lemma ComposedContent(c: Candidate, now: int, formatDate: int -> string)
    ensures var o := Compose(c, now, formatDate);
      && (o.Some? && o.value.EmailOut? ==>
            && Text.Includes(o.value.subject, c.task.name)
            && (o.value.subject[0] == '\U{1F6A8}' <==> c.task.due < now)
            && (o.value.subject[0] == '\U{23F0}' <==> now <= c.task.due < now + HOUR_MS)
            && (o.value.subject[0] == '\U{1F4DD}' <==> now + HOUR_MS <= c.task.due))
      && (o.Some? && o.value.WhatsAppOut? ==>
            && Text.Includes(o.value.message, c.studentName)
            && Text.Includes(o.value.message, c.task.name)
            && Text.Includes(o.value.message, c.task.courseName)
            && Text.Includes(o.value.message, formatDate(c.task.due)))
  {
    var o := Compose(c, now, formatDate);
    if c.reminder.kind == EMAIL {
      SubjectShowsUrgency(c.task.name, c.task.due, now);
      SubjectNamesTask(c.task.name, Classify(c.task.due, now));
    } else if c.reminder.kind == WHATSAPP {
      WhatsApp.MessageMentions(c.studentName, c.task.name, c.task.courseName, formatDate(c.task.due), HoursUntilDue(c.task.due, now));
    }
  }

  /** What one call of `processIndividualReminder` does: whether it reports success,
      what it hands to a channel, and the log rows it appends. */
  datatype Dispatch = Dispatch(fired: bool, outbound: Option<Outbound>, appended: seq<LogEntry>)

  function AttemptRow(r: Reminder, sent: bool, now: int): LogEntry
  {
    LogEntry(r.id, r.kind, r.contact, if sent then Sent else Failed, now)
  }

  /** Both guards pass: no `sent` row in the last hour, and fewer `sent` rows than the
      frequency. */
  predicate MayFire(logs: seq<LogEntry>, r: Reminder, now: int)
  {
    SentSince(logs, r.id, now - HOUR_MS) == 0 && SentCount(logs, r.id) < r.frequency
  }

  function DispatchOf(logs: seq<LogEntry>, c: Candidate, env: Environment): Dispatch
  {
    var r := c.reminder;
    if c.task.status == SUBMITTED || env.faults(r.id) == CountQueryFails || !MayFire(logs, r, env.now) then
      Dispatch(false, None, [])
    else
      var out := Compose(c, env.now, env.formatDate);
      var sent := out.Some? && env.accepts(r.id);
      Dispatch(sent, out, if env.faults(r.id) == LogInsertFails then [] else [AttemptRow(r, sent, env.now)])
  }

  /** `logReminderAttempt`: append one row; a failing insert is swallowed. */
  method LogReminderAttempt(store: Store, r: Reminder, sent: bool, now: int, insertFails: bool)
    modifies store
    ensures store.logs == old(store.logs) + (if insertFails then [] else [AttemptRow(r, sent, now)])
    ensures store.tasks == old(store.tasks) && store.students == old(store.students)
    ensures store.reminders == old(store.reminders) && store.nextReminderId == old(store.nextReminderId)
  {
    if !insertFails {
      store.logs := store.logs + [AttemptRow(r, sent, now)];
    }
  }

  /** `processIndividualReminder` */
  method ProcessIndividualReminder(store: Store, c: Candidate, env: Environment) returns (fired: bool)
    modifies store
    ensures var d := DispatchOf(old(store.logs), c, env);
      fired == d.fired && store.logs == old(store.logs) + d.appended
    ensures store.tasks == old(store.tasks) && store.students == old(store.students)
    ensures store.reminders == old(store.reminders) && store.nextReminderId == old(store.nextReminderId)
  {
    var r := c.reminder;
    ghost var d := DispatchOf(store.logs, c, env);
    assert store.logs + [] == store.logs;
    if c.task.status == SUBMITTED {
      return false;
    }
    if env.faults(r.id) == CountQueryFails {
      return false;
    }
    var recent := SentSince(store.logs, r.id, env.now - HOUR_MS);
    if recent > 0 {
      return false;
    }
    var total := SentCount(store.logs, r.id);
    if total < r.frequency {
      var out := Compose(c, env.now, env.formatDate);
      fired := out.Some? && env.accepts(r.id);
      assert d.fired == fired;
      LogReminderAttempt(store, r, fired, env.now, env.faults(r.id) == LogInsertFails);
      return fired;
    } else {
      return false;
    }
  }

  /** Recency guard: a `sent` row within the last hour means the reminder is skipped:
      it reports `false`, nothing is sent and nothing is logged. */
  lemma RecentlySentIsSkipped(logs: seq<LogEntry>, c: Candidate, env: Environment)
    requires SentSince(logs, c.reminder.id, env.now - HOUR_MS) > 0
    ensures DispatchOf(logs, c, env) == Dispatch(false, None, [])
  {
    assert !MayFire(logs, c.reminder, env.now);
  }

  /** Frequency guard: once the `sent` rows reach the frequency the reminder is skipped. */
  lemma ExhaustedIsSkipped(logs: seq<LogEntry>, c: Candidate, env: Environment)
    requires SentCount(logs, c.reminder.id) >= c.reminder.frequency
    ensures DispatchOf(logs, c, env) == Dispatch(false, None, [])
  {
    assert !MayFire(logs, c.reminder, env.now);
  }

  /** A dispatch that passes both guards appends exactly one row, `sent` when the
      channel delivered and `failed` otherwise; it reports success exactly when a
      channel was asked and accepted. */
  lemma AttemptIsLoggedOnce(logs: seq<LogEntry>, c: Candidate, env: Environment)
    requires c.task.status != SUBMITTED && env.faults(c.reminder.id) == NoFault
    requires MayFire(logs, c.reminder, env.now)
    ensures var d := DispatchOf(logs, c, env);
      && |d.appended| == 1
      && d.appended[0].reminderId == c.reminder.id && d.appended[0].sentAt == env.now
      && (d.appended[0].status == Sent <==> d.fired)
      && (d.fired <==> (c.reminder.kind == EMAIL || c.reminder.kind == WHATSAPP) && env.accepts(c.reminder.id))
  {
  }

  /** Whatever happens, a dispatch appends at most one row, reports success only if it
      appended a `sent` row or the insert failed, and never appends a `sent` row past
      either guard. */
  lemma DispatchShape(logs: seq<LogEntry>, c: Candidate, env: Environment)
    ensures var d := DispatchOf(logs, c, env);
      && |d.appended| <= 1
      && (d.fired || d.outbound.Some? || d.appended != [] ==> MayFire(logs, c.reminder, env.now))
      && (forall e :: e in d.appended ==> e.reminderId == c.reminder.id && e.sentAt == env.now && (e.status == Sent <==> d.fired))
  {
  }

  /** A `failed` row counts for neither guard, so a failed attempt does not hold back
      the next one. */
  lemma FailedRowIsInvisible(logs: seq<LogEntry>, e: LogEntry, id: ReminderId, since: int)
    requires e.status == Failed
    ensures SentCount(logs + [e], id) == SentCount(logs, id)
    ensures SentSince(logs + [e], id, since) == SentSince(logs, id, since)
  {
    SentCountOneMore(logs, e, id);
    SentSinceAppendFailed(logs, e, id, since);
  }

  lemma {:induction false} SentSinceAppendFailed(logs: seq<LogEntry>, e: LogEntry, id: ReminderId, since: int)
    requires e.status == Failed
    ensures SentSince(logs + [e], id, since) == SentSince(logs, id, since)
  {
    if logs == [] {
      assert [e][1..] == [];
    } else {
      assert (logs + [e])[1..] == logs[1..] + [e];
      SentSinceAppendFailed(logs[1..], e, id, since);
    }
  }

  /** One dispatch keeps every reminder of the store within its frequency. */
  lemma DispatchWithinBudget(reminders: seq<Reminder>, logs: seq<LogEntry>, c: Candidate, env: Environment)
    requires UniqueIds(reminders)
    requires c.reminder in reminders
    requires WithinBudget(reminders, logs)
    ensures WithinBudget(reminders, logs + DispatchOf(logs, c, env).appended)
  {
    var d := DispatchOf(logs, c, env);
    DispatchShape(logs, c, env);
    if d.appended != [] {
      assert d.appended == [d.appended[0]] && d.appended[0] in d.appended;
      assert MayFire(logs, c.reminder, env.now);
      var j :| 0 <= j < |reminders| && reminders[j] == c.reminder;
      forall i | 0 <= i < |reminders|
        ensures SentCount(logs + d.appended, reminders[i].id) <= Budget(reminders[i])
      {
        SentCountOneMore(logs, d.appended[0], reminders[i].id);
        if reminders[i].id == c.reminder.id {
          assert i == j;
        }
      }
    } else {
      assert logs + d.appended == logs;
    }
  }

  /** One dispatch keeps `sent` rows of a reminder an hour apart. */
  lemma DispatchKeepsSpacing(logs: seq<LogEntry>, c: Candidate, env: Environment)
    requires Spaced(logs)
    ensures Spaced(logs + DispatchOf(logs, c, env).appended)
  {
    var d := DispatchOf(logs, c, env);
    if d.appended != [] {
      var e := d.appended[0];
      assert d.appended == [e];
      SentSinceZero(logs, c.reminder.id, env.now - HOUR_MS);
      var all := logs + d.appended;
      forall i, j | 0 <= i < j < |all| ensures SpacedPair(all[i], all[j]) {
        if j < |logs| {
          assert all[i] == logs[i] && all[j] == logs[j];
        } else {
          assert all[i] == logs[i] && all[j] == e;
        }
      }
    }
  }

  // ---------------------------------------------------------------- the cycle loop

  /** The candidates handled in order, each against the log as the earlier ones left
      it: the final log and how many reported success. */
  function DispatchAll(logs: seq<LogEntry>, cs: seq<Candidate>, env: Environment): (r: (seq<LogEntry>, nat))
    decreases cs
    ensures r.1 <= |cs|
    ensures |logs| <= |r.0| <= |logs| + |cs| && r.0[..|logs|] == logs
  {
    if cs == [] then (logs, 0)
    else
      var d := DispatchOf(logs, cs[0], env);
      DispatchShape(logs, cs[0], env);
      var rest := DispatchAll(logs + d.appended, cs[1..], env);
      assert rest.0[..|logs|] == (logs + d.appended)[..|logs|];
      (rest.0, rest.1 + (if d.fired then 1 else 0))
  }

  lemma {:induction false} DispatchAllWithinBudget(reminders: seq<Reminder>, logs: seq<LogEntry>, cs: seq<Candidate>, env: Environment)
    requires UniqueIds(reminders)
    requires forall c :: c in cs ==> c.reminder in reminders
    requires WithinBudget(reminders, logs)
    ensures WithinBudget(reminders, DispatchAll(logs, cs, env).0)
    decreases cs
  {
    if cs != [] {
      DispatchWithinBudget(reminders, logs, cs[0], env);
      assert forall c :: c in cs[1..] ==> c in cs;
      DispatchAllWithinBudget(reminders, logs + DispatchOf(logs, cs[0], env).appended, cs[1..], env);
    }
  }

  lemma {:induction false} DispatchAllKeepsSpacing(logs: seq<LogEntry>, cs: seq<Candidate>, env: Environment)
    requires Spaced(logs)
    ensures Spaced(DispatchAll(logs, cs, env).0)
    decreases cs
  {
    if cs != [] {
      DispatchKeepsSpacing(logs, cs[0], env);
      DispatchAllKeepsSpacing(logs + DispatchOf(logs, cs[0], env).appended, cs[1..], env);
    }
  }

  lemma {:induction false} DispatchAllLogsOwnReminders(logs: seq<LogEntry>, cs: seq<Candidate>, env: Environment, bound: int)
    requires LogsBelow(logs, bound)
    requires forall c :: c in cs ==> c.reminder.id < bound
    ensures LogsBelow(DispatchAll(logs, cs, env).0, bound)
    decreases cs
  {
    if cs != [] {
      DispatchShape(logs, cs[0], env);
      var d := DispatchOf(logs, cs[0], env);
      assert forall e :: e in d.appended ==> e.reminderId == cs[0].reminder.id;
      assert LogsBelow(logs + d.appended, bound) by {
        forall i | 0 <= i < |logs + d.appended| ensures (logs + d.appended)[i].reminderId < bound {
          if i >= |logs| {
            assert (logs + d.appended)[i] in d.appended;
          }
        }
      }
      assert forall c :: c in cs[1..] ==> c in cs;
      DispatchAllLogsOwnReminders(logs + d.appended, cs[1..], env, bound);
      assert DispatchAll(logs, cs, env).0 == DispatchAll(logs + d.appended, cs[1..], env).0;
    }
  }

  // ---------------------------------------------------------------- cleanup

  predicate TaskSubmitted(r: Reminder, tasks: map<TaskId, Task>)
  {
    r.taskId in tasks && tasks[r.taskId].status == SUBMITTED
  }

  predicate TaskLongOverdue(r: Reminder, tasks: map<TaskId, Task>, now: int)
  {
    r.taskId in tasks && tasks[r.taskId].due < now - DAY_MS && tasks[r.taskId].status != SUBMITTED
  }

  /** Step 1: delete reminders whose task is submitted. */
  function DropSubmitted(reminders: seq<Reminder>, tasks: map<TaskId, Task>): seq<Reminder>
  {
    Filter(reminders, (r: Reminder) => !TaskSubmitted(r, tasks))
  }

  /** Step 2: delete reminders whose unsubmitted task is more than 24 hours overdue. */
  function DropOverdue(reminders: seq<Reminder>, tasks: map<TaskId, Task>, now: int): seq<Reminder>
  {
    Filter(reminders, (r: Reminder) => !TaskLongOverdue(r, tasks, now))
  }

  /** Step 3: delete reminders whose `sent` rows reached their frequency. */
  function DropExhausted(reminders: seq<Reminder>, logs: seq<LogEntry>): seq<Reminder>
  {
    Filter(reminders, (r: Reminder) => SentCount(logs, r.id) < r.frequency)
  }

  /** Step 4: delete log rows whose reminder no longer exists. */
  function DropOrphans(logs: seq<LogEntry>, reminders: seq<Reminder>): seq<LogEntry>
  {
    Filter(logs, LogOfAny(reminders))
  }

  /** The rows step 4 keeps: those whose reminder exists. */
  function LogOfAny(reminders: seq<Reminder>): LogEntry -> bool
  {
    var ids := IdsOf(reminders);
    (e: LogEntry) => e.reminderId in ids
  }

  function Cleaned(reminders: seq<Reminder>, tasks: map<TaskId, Task>, logs: seq<LogEntry>, now: int): seq<Reminder>
  {
    DropExhausted(DropOverdue(DropSubmitted(reminders, tasks), tasks, now), logs)
  }

  /** After the four deletions no reminder is for a submitted task or one more than a
      day overdue, every reminder has fewer `sent` rows than its frequency, and every
      log row belongs to a reminder. */
  lemma CleanupGuarantees(reminders: seq<Reminder>, tasks: map<TaskId, Task>, logs: seq<LogEntry>, now: int)
    ensures var rs := Cleaned(reminders, tasks, logs, now);
      var ls := DropOrphans(logs, rs);
      && (forall r :: r in rs ==> r in reminders)
      && (forall r :: r in rs ==> !TaskSubmitted(r, tasks) && !TaskLongOverdue(r, tasks, now))
      && (forall r :: r in rs ==> SentCount(ls, r.id) < r.frequency)
      && (forall e :: e in ls ==> e in logs && exists r :: r in rs && r.id == e.reminderId)
  {
    var rs := Cleaned(reminders, tasks, logs, now);
    forall r | r in rs ensures SentCount(DropOrphans(logs, rs), r.id) == SentCount(logs, r.id) {
      SentCountFilterOthers(logs, LogOfAny(rs), r.id);
    }
  }

  /** A reminder whose task is submitted, or whose task is more than a day overdue, is
      gone after cleanup together with its log rows (ids being unique). */
  lemma CleanupRemovesResolved(reminders: seq<Reminder>, tasks: map<TaskId, Task>, logs: seq<LogEntry>, now: int, r: Reminder)
    requires UniqueIds(reminders)
    requires r in reminders && (TaskSubmitted(r, tasks) || TaskLongOverdue(r, tasks, now) || SentCount(logs, r.id) >= r.frequency)
    ensures r !in Cleaned(reminders, tasks, logs, now)
    ensures forall e :: e in DropOrphans(logs, Cleaned(reminders, tasks, logs, now)) ==> e.reminderId != r.id
  {
    var rs := Cleaned(reminders, tasks, logs, now);
    forall e | e in DropOrphans(logs, rs) ensures e.reminderId != r.id {
      var q :| q in rs && q.id == e.reminderId;
      assert q in reminders;
    }
  }

  datatype CleanupReport = CleanupReport(submitted: nat, overdue: nat, completed: nat, orphanedLogs: nat)

  /** The reminders left when the deletions before the failing one have run. */
  function RemindersAfter(reminders: seq<Reminder>, tasks: map<TaskId, Task>, logs: seq<LogEntry>, now: int, fault: Option<CycleStage>): seq<Reminder>
  {
    if fault.Some? && fault.value == DeleteSubmitted then reminders
    else if fault.Some? && fault.value == DeleteOverdue then DropSubmitted(reminders, tasks)
    else if fault.Some? && fault.value == DeleteExhausted then DropOverdue(DropSubmitted(reminders, tasks), tasks, now)
    else Cleaned(reminders, tasks, logs, now)
  }

  /** A cleanup that runs to the end, or a failure after it (in the selection),
      leaves the fully cleaned reminders. */
  lemma CompleteCleanup(reminders: seq<Reminder>, tasks: map<TaskId, Task>, logs: seq<LogEntry>, now: int, fault: Option<CycleStage>)
    requires fault.None? || !fault.value.IsCleanupStep()
    ensures RemindersAfter(reminders, tasks, logs, now, fault) == Cleaned(reminders, tasks, logs, now)
  {
  }

  /** The three reminder deletions of `cleanupObsoleteReminders`, in order, each
      reporting how many rows it removed. A deletion that throws ends the run there,
      the earlier deletions having taken effect. */
  method DeleteObsoleteReminders(store: Store, now: int, fault: Option<CycleStage>) returns (outcome: Result<(nat, nat, nat), CycleStage>)
    requires store.Valid()
    modifies store`reminders
    ensures store.Valid()
    ensures outcome.Failure? <==>
      fault.Some? && (fault.value == DeleteSubmitted || fault.value == DeleteOverdue || fault.value == DeleteExhausted)
    ensures outcome.Failure? ==> fault == Some(outcome.error)
    ensures store.reminders == RemindersAfter(old(store.reminders), store.tasks, store.logs, now, fault)
    ensures outcome.Success? ==> outcome.value.0 + outcome.value.1 + outcome.value.2 == |old(store.reminders)| - |store.reminders|
    ensures WithinBudget(old(store.reminders), store.logs) ==> WithinBudget(store.reminders, store.logs)
  {
    var tasks := store.tasks;
    if fault.Some? && fault.value == DeleteSubmitted {
      return Failure(DeleteSubmitted);
    }
    var submitted := store.DeleteReminders((r: Reminder) => !TaskSubmitted(r, tasks));
    if fault.Some? && fault.value == DeleteOverdue {
      return Failure(DeleteOverdue);
    }
    var overdue := store.DeleteReminders((r: Reminder) => !TaskLongOverdue(r, tasks, now));
    if fault.Some? && fault.value == DeleteExhausted {
      return Failure(DeleteExhausted);
    }
    var logs := store.logs;
    var completed := store.DeleteReminders((r: Reminder) => SentCount(logs, r.id) < r.frequency);
    outcome := Success((submitted, overdue, completed));
  }

  /** `cleanupObsoleteReminders`: the three reminder deletions, then the deletion of
      the log rows left without a reminder. A deletion that throws ends the cleanup
      there, the earlier deletions having taken effect. */
  method CleanupObsoleteReminders(store: Store, now: int, fault: Option<CycleStage>) returns (outcome: Result<CleanupReport, CycleStage>)
    requires store.Valid()
    modifies store`reminders, store`logs
    ensures store.Valid()
    ensures outcome.Failure? <==> fault.Some? && fault.value.IsCleanupStep()
    ensures outcome.Failure? ==> fault == Some(outcome.error)
    ensures store.reminders == RemindersAfter(old(store.reminders), store.tasks, old(store.logs), now, fault)
    ensures store.logs == if outcome.Success? then DropOrphans(old(store.logs), store.reminders) else old(store.logs)
    ensures outcome.Success? ==>
      && outcome.value.submitted + outcome.value.overdue + outcome.value.completed == |old(store.reminders)| - |store.reminders|
      && outcome.value.orphanedLogs == |old(store.logs)| - |store.logs|
    ensures WithinBudget(old(store.reminders), old(store.logs)) ==> WithinBudget(store.reminders, store.logs)
    ensures Spaced(old(store.logs)) ==> Spaced(store.logs)
  {
    var deleted := DeleteObsoleteReminders(store, now, fault);
    if deleted.Failure? {
      return Failure(deleted.error);
    }
    if fault.Some? && fault.value == DeleteOrphanLogs {
      return Failure(DeleteOrphanLogs);
    }
    PastCleanupSteps(fault);
    var orphaned := store.DeleteLogs(LogOfAny(store.reminders));
    outcome := Success(CleanupReport(deleted.value.0, deleted.value.1, deleted.value.2, orphaned));
  }

  /** A fault at none of the four deletions is no cleanup step. */
  lemma PastCleanupSteps(fault: Option<CycleStage>)
    requires fault != Some(DeleteSubmitted) && fault != Some(DeleteOverdue)
    requires fault != Some(DeleteExhausted) && fault != Some(DeleteOrphanLogs)
    ensures fault.None? || !fault.value.IsCleanupStep()
  {
  }

  lemma CleanupKeepsBudget(reminders: seq<Reminder>, tasks: map<TaskId, Task>, logs: seq<LogEntry>, now: int)
    ensures var rs := Cleaned(reminders, tasks, logs, now);
      WithinBudget(reminders, logs) ==> WithinBudget(rs, DropOrphans(logs, rs))
  {
    var rs := Cleaned(reminders, tasks, logs, now);
    CleanupGuarantees(reminders, tasks, logs, now);
    forall i | 0 <= i < |rs| ensures SentCount(DropOrphans(logs, rs), rs[i].id) <= Budget(rs[i]) {
      assert rs[i] in rs;
    }
  }

  // ---------------------------------------------------------------- the cycle

  datatype CycleResult = Completed(processed: nat, total: nat) | Aborted(stage: CycleStage)

  /** The loop of `processReminders`: each candidate in turn, counting successes. */
  method DispatchCandidates(store: Store, candidates: seq<Candidate>, env: Environment) returns (processed: nat)
    modifies store
    ensures var run := DispatchAll(old(store.logs), candidates, env);
      store.logs == run.0 && processed == run.1
    ensures store.tasks == old(store.tasks) && store.students == old(store.students)
    ensures store.reminders == old(store.reminders) && store.nextReminderId == old(store.nextReminderId)
  {
    ghost var target := DispatchAll(store.logs, candidates, env);
    processed := 0;
    var i := 0;
    while i < |candidates|
      invariant 0 <= i <= |candidates|
      invariant store.tasks == old(store.tasks) && store.students == old(store.students)
      invariant store.reminders == old(store.reminders) && store.nextReminderId == old(store.nextReminderId)
      invariant DispatchAll(store.logs, candidates[i..], env).0 == target.0
      invariant processed + DispatchAll(store.logs, candidates[i..], env).1 == target.1
    {
      assert candidates[i..][1..] == candidates[i + 1..];
      var fired := ProcessIndividualReminder(store, candidates[i], env);
      if fired {
        processed := processed + 1;
      }
      i := i + 1;
    }
    assert candidates[i..] == [];
  }

  /** The second half of a cycle: select the due reminders and dispatch each. Against
      a valid store this keeps it valid, keeps every reminder within its frequency and
      keeps `sent` rows an hour apart. */
  method DispatchDue(store: Store, env: Environment) returns (processed: nat, total: nat)
    requires store.Valid()
    modifies store
    ensures store.Valid()
    ensures var cs := SelectCandidates(store.reminders, store.tasks, store.students, env.now);
      var run := DispatchAll(old(store.logs), cs, env);
      store.logs == run.0 && processed == run.1 && total == |cs|
    ensures processed <= total
    ensures store.tasks == old(store.tasks) && store.students == old(store.students)
    ensures store.reminders == old(store.reminders) && store.nextReminderId == old(store.nextReminderId)
    ensures WithinBudget(old(store.reminders), old(store.logs)) ==> WithinBudget(store.reminders, store.logs)
    ensures Spaced(old(store.logs)) ==> Spaced(store.logs)
  {
    var candidates := SelectCandidates(store.reminders, store.tasks, store.students, env.now);
    SelectCandidatesExact(store.reminders, store.tasks, store.students, env.now);
    ghost var logs0 := store.logs;
    assert forall c :: c in candidates ==> c.reminder.id < store.nextReminderId;
    DispatchAllLogsOwnReminders(logs0, candidates, env, store.nextReminderId);
    if WithinBudget(store.reminders, logs0) {
      DispatchAllWithinBudget(store.reminders, logs0, candidates, env);
    }
    if Spaced(logs0) {
      DispatchAllKeepsSpacing(logs0, candidates, env);
    }
    processed := DispatchCandidates(store, candidates, env);
    total := |candidates|;
  }

  /** What one reminder cycle does, relating the tables before it (`reminders0`,
      `logs0`) to the tables after it and the cycle's result. A connection failure
      changes nothing. A cleanup failure leaves the deletions before it done and the
      log as it was. A failing selection leaves the whole cleanup done. Otherwise
      the due candidates are dispatched in order over the cleaned log, and the result
      counts them and their successes. The budget and spacing invariants are kept
      throughout. */
  ghost predicate CycleEffect(reminders0: seq<Reminder>, logs0: seq<LogEntry>, tasks: map<TaskId, Task>, students: map<StudentId, string>,
                              env: Environment, reminders: seq<Reminder>, logs: seq<LogEntry>, result: CycleResult)
  {
    && (env.cycleFault == Some(Connect) ==>
          result == Aborted(Connect) && reminders == reminders0 && logs == logs0)
    && (env.cycleFault != Some(Connect) ==>
          reminders == RemindersAfter(reminders0, tasks, logs0, env.now, env.cycleFault))
    && (env.cycleFault.Some? && env.cycleFault.value.IsCleanupStep() ==>
          result == Aborted(env.cycleFault.value) && logs == logs0)
    && (env.cycleFault == Some(SelectDue) ==>
          result == Aborted(SelectDue) && logs == DropOrphans(logs0, reminders))
    && (env.cycleFault.None? ==>
          var cs := SelectCandidates(reminders, tasks, students, env.now);
          var run := DispatchAll(DropOrphans(logs0, reminders), cs, env);
          logs == run.0 && result == Completed(run.1, |cs|))
    && (result.Completed? ==> result.processed <= result.total)
    && (WithinBudget(reminders0, logs0) ==> WithinBudget(reminders, logs))
    && (Spaced(logs0) ==> Spaced(logs))
  }

  /** `processReminders`: connect, clean up, select the due reminders, dispatch each in
      turn and count the successes. An exception from the connection, the cleanup or
      the selection aborts the cycle (it is rethrown); one reminder's failure does not. */
  method ProcessReminders(store: Store, env: Environment) returns (result: CycleResult)
    requires store.Valid()
    modifies store
    ensures store.Valid()
    ensures store.tasks == old(store.tasks) && store.students == old(store.students)
    ensures store.nextReminderId == old(store.nextReminderId)
    ensures CycleEffect(old(store.reminders), old(store.logs), store.tasks, store.students, env, store.reminders, store.logs, result)
  {
    ghost var reminders0, logs0 := store.reminders, store.logs;
    if env.cycleFault == Some(Connect) {
      AbortedCycle(reminders0, logs0, store.tasks, store.students, env, store.reminders, store.logs);
      return Aborted(Connect);
    }
    var cleanup := CleanupObsoleteReminders(store, env.now, env.cycleFault);
    if cleanup.Failure? {
      AbortedCycle(reminders0, logs0, store.tasks, store.students, env, store.reminders, store.logs);
      return Aborted(cleanup.error);
    }
    if env.cycleFault == Some(SelectDue) {
      AbortedCycle(reminders0, logs0, store.tasks, store.students, env, store.reminders, store.logs);
      return Aborted(SelectDue);
    }
    NoFaultLeft(env.cycleFault);
    ghost var cleanedLogs := store.logs;
    var processed, total := DispatchDue(store, env);
    result := Completed(processed, total);
    CompletedCycle(reminders0, logs0, cleanedLogs, store.tasks, store.students, env, store.reminders, store.logs, result);
  }

  /** The effect of a cycle that a throwing statement aborts: nothing done when the
      connection fails, the deletions before a failing cleanup step, and the whole
      cleanup when the selection fails. */
  lemma AbortedCycle(reminders0: seq<Reminder>, logs0: seq<LogEntry>, tasks: map<TaskId, Task>,
                     students: map<StudentId, string>, env: Environment, reminders: seq<Reminder>, logs: seq<LogEntry>)
    requires env.cycleFault.Some?
    requires env.cycleFault == Some(Connect) ==> reminders == reminders0 && logs == logs0
    requires env.cycleFault != Some(Connect) ==> reminders == RemindersAfter(reminders0, tasks, logs0, env.now, env.cycleFault)
    requires env.cycleFault.value.IsCleanupStep() ==> logs == logs0
    requires env.cycleFault == Some(SelectDue) ==> logs == DropOrphans(logs0, reminders)
    requires WithinBudget(reminders0, logs0) ==> WithinBudget(reminders, logs)
    requires Spaced(logs0) ==> Spaced(logs)
    ensures CycleEffect(reminders0, logs0, tasks, students, env, reminders, logs, Aborted(env.cycleFault.value))
  {
  }

  /** The effect of a cycle in which nothing throws, put together from its cleanup
      and its dispatch. */
  lemma CompletedCycle(reminders0: seq<Reminder>, logs0: seq<LogEntry>, cleanedLogs: seq<LogEntry>, tasks: map<TaskId, Task>,
                       students: map<StudentId, string>, env: Environment, reminders: seq<Reminder>, logs: seq<LogEntry>, result: CycleResult)
    requires env.cycleFault.None?
    requires reminders == RemindersAfter(reminders0, tasks, logs0, env.now, env.cycleFault)
    requires cleanedLogs == DropOrphans(logs0, reminders)
    requires var cs := SelectCandidates(reminders, tasks, students, env.now);
      var run := DispatchAll(cleanedLogs, cs, env);
      logs == run.0 && result == Completed(run.1, |cs|)
    requires result.Completed? && result.processed <= result.total
    requires WithinBudget(reminders0, logs0) ==> WithinBudget(reminders, cleanedLogs)
    requires WithinBudget(reminders, cleanedLogs) ==> WithinBudget(reminders, logs)
    requires Spaced(logs0) ==> Spaced(cleanedLogs)
    requires Spaced(cleanedLogs) ==> Spaced(logs)
    ensures CycleEffect(reminders0, logs0, tasks, students, env, reminders, logs, result)
  {
  }

  /** A fault in none of the cycle's statements is no fault. */
  lemma NoFaultLeft(fault: Option<CycleStage>)
    requires fault.None? || !fault.value.IsCleanupStep()
    requires fault != Some(Connect) && fault != Some(SelectDue)
    ensures fault.None?
  {
  }

  // ---------------------------------------------------------------- other entry points

  /** `deleteRemindersForTask`: delete every reminder of the task and report how many
      went; their log rows stay until the next cleanup. A store error reports 0 and
      changes nothing. */
  method DeleteRemindersForTask(store: Store, taskId: TaskId, fails: bool) returns (deleted: nat)
    requires store.Valid()
    modifies store`reminders
    ensures store.Valid()
    ensures fails ==> deleted == 0 && store.reminders == old(store.reminders)
    ensures !fails ==> store.reminders == Filter(old(store.reminders), (r: Reminder) => r.taskId != taskId)
    ensures !fails ==> deleted == Count(old(store.reminders), (r: Reminder) => r.taskId == taskId)
    ensures WithinBudget(old(store.reminders), store.logs) ==> WithinBudget(store.reminders, store.logs)
  {
    if fails {
      return 0;
    }
    CountComplement(store.reminders, taskId);
    deleted := store.DeleteReminders((r: Reminder) => r.taskId != taskId);
  }

  lemma {:induction false} CountComplement(reminders: seq<Reminder>, taskId: TaskId)
    ensures |Filter(reminders, (r: Reminder) => r.taskId != taskId)| + Count(reminders, (r: Reminder) => r.taskId == taskId) == |reminders|
  {
    if reminders != [] {
      CountComplement(reminders[1..], taskId);
    }
  }

  /** A row of `getUpcomingReminders`. */
  datatype UpcomingRow = UpcomingRow(reminder: Reminder, studentName: string, task: Task, fireTime: int, minutesUntilReminder: int)

  predicate WillFireWithin(r: Reminder, t: Task, now: int, limitMinutes: int)
  {
    r.active && t.status != SUBMITTED
    && now < FireTime(t.due, r.leadHours) <= now + limitMinutes * MINUTE_MS
  }

  function UpcomingRows(reminders: seq<Reminder>, tasks: map<TaskId, Task>, students: map<StudentId, string>, now: int, limitMinutes: int): seq<UpcomingRow>
  {
    if reminders == [] then []
    else
      var r := reminders[0];
      var rest := UpcomingRows(reminders[1..], tasks, students, now, limitMinutes);
      if r.taskId in tasks && r.studentId in students && WillFireWithin(r, tasks[r.taskId], now, limitMinutes) then
        var fire := FireTime(tasks[r.taskId].due, r.leadHours);
        [UpcomingRow(r, students[r.studentId], tasks[r.taskId], fire, (fire - now) / MINUTE_MS)] + rest
      else rest
  }

  lemma {:induction false} UpcomingRowsExact(reminders: seq<Reminder>, tasks: map<TaskId, Task>, students: map<StudentId, string>, now: int, limitMinutes: int)
    ensures var rows := UpcomingRows(reminders, tasks, students, now, limitMinutes);
      && (forall row :: row in rows ==>
            && row.reminder in reminders && row.reminder.taskId in tasks && row.task == tasks[row.reminder.taskId]
            && row.reminder.studentId in students && row.studentName == students[row.reminder.studentId]
            && WillFireWithin(row.reminder, row.task, now, limitMinutes)
            && row.fireTime == FireTime(row.task.due, row.reminder.leadHours)
            && row.minutesUntilReminder == (row.fireTime - now) / MINUTE_MS
            && 0 <= row.minutesUntilReminder <= limitMinutes)
      && (forall r :: r in reminders && r.taskId in tasks && r.studentId in students && WillFireWithin(r, tasks[r.taskId], now, limitMinutes)
            ==> exists row :: row in rows && row.reminder == r)
  {
    if reminders != [] {
      UpcomingRowsExact(reminders[1..], tasks, students, now, limitMinutes);
      assert forall x :: x in reminders[1..] ==> x in reminders;
      var rows := UpcomingRows(reminders, tasks, students, now, limitMinutes);
      var r := reminders[0];
      if r.taskId in tasks && r.studentId in students && WillFireWithin(r, tasks[r.taskId], now, limitMinutes) {
        assert rows[0].reminder == r;
      }
    }
  }

  /** No two rows of a listing are for the same reminder. */
  predicate OncePerReminder(rows: seq<UpcomingRow>)
  {
    forall i, j :: 0 <= i < j < |rows| ==> rows[i].reminder.id != rows[j].reminder.id
  }

  /** With unique reminder ids, the listing has one row per reminder. */
  lemma {:induction false} UpcomingRowsOnce(reminders: seq<Reminder>, tasks: map<TaskId, Task>, students: map<StudentId, string>, now: int, limitMinutes: int)
    requires UniqueIds(reminders)
    ensures OncePerReminder(UpcomingRows(reminders, tasks, students, now, limitMinutes))
  {
    if reminders != [] {
      UniqueTail(reminders);
      UpcomingRowsOnce(reminders[1..], tasks, students, now, limitMinutes);
      var rows := UpcomingRows(reminders, tasks, students, now, limitMinutes);
      var rest := UpcomingRows(reminders[1..], tasks, students, now, limitMinutes);
      var r := reminders[0];
      if r.taskId in tasks && r.studentId in students && WillFireWithin(r, tasks[r.taskId], now, limitMinutes) {
        assert rows == [rows[0]] + rest && rows[0].reminder == r;
        UpcomingRowsFromTail(reminders, tasks, students, now, limitMinutes);
        forall i, j | 0 <= i < j < |rows| ensures rows[i].reminder.id != rows[j].reminder.id {
          assert rows[j] == rest[j - 1] && rest[j - 1] in rest;
          if i > 0 {
            assert rows[i] == rest[i - 1];
          }
        }
      } else {
        assert rows == rest;
      }
    }
  }

  /** Rows listed for the tail of the table carry reminders other than the head's. */
  lemma UpcomingRowsFromTail(reminders: seq<Reminder>, tasks: map<TaskId, Task>, students: map<StudentId, string>, now: int, limitMinutes: int)
    requires UniqueIds(reminders) && reminders != []
    ensures forall row :: row in UpcomingRows(reminders[1..], tasks, students, now, limitMinutes) ==> row.reminder.id != reminders[0].id
  {
    UpcomingRowsExact(reminders[1..], tasks, students, now, limitMinutes);
    forall row | row in UpcomingRows(reminders[1..], tasks, students, now, limitMinutes)
      ensures row.reminder.id != reminders[0].id
    {
      var k :| 0 <= k < |reminders[1..]| && reminders[1..][k] == row.reminder;
      assert reminders[k + 1] == row.reminder;
    }
  }

  /** `getUpcomingReminders(limitMinutes = 60)`: the reminders that will fire within the
      next `limitMinutes`, soonest first, each with the whole minutes until it fires.
      A store error yields the empty list. */
  method GetUpcomingReminders(store: Store, now: int, fails: bool, limitMinutes: int := 60) returns (rows: seq<UpcomingRow>)
    ensures fails ==> rows == []
    ensures !fails ==> forall row :: row in rows ==>
      && row.reminder in store.reminders && row.reminder.taskId in store.tasks && row.task == store.tasks[row.reminder.taskId]
      && row.reminder.studentId in store.students && row.studentName == store.students[row.reminder.studentId]
      && WillFireWithin(row.reminder, row.task, now, limitMinutes)
      && row.fireTime == FireTime(row.task.due, row.reminder.leadHours)
      && row.minutesUntilReminder == (row.fireTime - now) / MINUTE_MS
      && 0 <= row.minutesUntilReminder <= limitMinutes
    ensures !fails ==> forall r ::
      r in store.reminders && r.taskId in store.tasks && r.studentId in store.students && WillFireWithin(r, store.tasks[r.taskId], now, limitMinutes) ==>
        exists row :: row in rows && row.reminder == r
    ensures !fails ==> multiset(rows) == multiset(UpcomingRows(store.reminders, store.tasks, store.students, now, limitMinutes))
    ensures SortedBy(rows, (row: UpcomingRow) => (row.fireTime, 0))
  {
    if fails {
      return [];
    }
    var unordered := UpcomingRows(store.reminders, store.tasks, store.students, now, limitMinutes);
    UpcomingRowsExact(store.reminders, store.tasks, store.students, now, limitMinutes);
    rows := SortBy(unordered, (row: UpcomingRow) => (row.fireTime, 0));
    assert forall row :: row in rows <==> row in unordered by {
      assert forall row :: row in rows <==> row in multiset(rows);
      assert forall row :: row in unordered <==> row in multiset(unordered);
    }
  }
}
