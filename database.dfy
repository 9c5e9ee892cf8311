/** The three relations of the `my_lms` database that the reminder engine and the
    reminders API read and write — `course_tasks`, `reminders` and `reminder_logs` —
    plus the `students` names the engine joins for message text, held in memory.
    Timestamps are integers counting milliseconds. */
module Database {

  import Collections

  type TaskId = string
  type ReminderId = int
  type StudentId = int

  const SUBMITTED := "submitted"
  const EMAIL := "email"
  const WHATSAPP := "whatsapp"

  const MINUTE_MS := 60000
  const HOUR_MS := 3600000
  const DAY_MS := 24 * HOUR_MS

  /** A row of `course_tasks`. */
  datatype Task = Task(id: TaskId, name: string, courseName: string, due: int, status: string)

  /** A row of `reminders`. */
  datatype Reminder = Reminder(
    id: ReminderId,
    studentId: StudentId,
    taskId: TaskId,
    taskName: string,
    leadHours: int,
    frequency: int,
    kind: string,
    contact: string,
    active: bool,
    createdAt: int)

  datatype LogStatus = Sent | Failed

  /** A row of `reminder_logs`. */
  datatype LogEntry = LogEntry(reminderId: ReminderId, kind: string, contact: string, status: LogStatus, sentAt: int)

  /** `COUNT(*) ... WHERE reminder_id = id AND status = 'sent'` */
  function SentCount(logs: seq<LogEntry>, id: ReminderId): nat
  {
    if logs == [] then 0
    else (if logs[0].reminderId == id && logs[0].status == Sent then 1 else 0) + SentCount(logs[1..], id)
  }

  /** `COUNT(*) ... WHERE reminder_id = id AND status = 'sent' AND sent_at > since` */
  function SentSince(logs: seq<LogEntry>, id: ReminderId, since: int): nat
  {
    if logs == [] then 0
    else
      (if logs[0].reminderId == id && logs[0].status == Sent && logs[0].sentAt > since then 1 else 0)
      + SentSince(logs[1..], id, since)
  }

  /** The identifiers present in a set of reminder rows. */
  function IdsOf(reminders: seq<Reminder>): (ids: set<ReminderId>)
    ensures forall r :: r in reminders ==> r.id in ids
    ensures forall id :: id in ids ==> exists r :: r in reminders && r.id == id
  {
    set r | r in reminders :: r.id
  }

  lemma {:induction false} SentCountAppend(logs: seq<LogEntry>, extra: seq<LogEntry>, id: ReminderId)
    ensures SentCount(logs + extra, id) == SentCount(logs, id) + SentCount(extra, id)
  {
    if logs == [] {
      assert logs + extra == extra;
    } else {
      assert (logs + extra)[1..] == logs[1..] + extra;
      SentCountAppend(logs[1..], extra, id);
    }
  }

  /** A `failed` row, or a row for another reminder, leaves a reminder's `sent` count alone. */
  lemma SentCountOneMore(logs: seq<LogEntry>, entry: LogEntry, id: ReminderId)
    ensures SentCount(logs + [entry], id)
         == SentCount(logs, id) + (if entry.reminderId == id && entry.status == Sent then 1 else 0)
  {
    SentCountAppend(logs, [entry], id);
    assert [entry][1..] == [];
  }

  /** An id at or above the counter has no log rows, so no `sent` rows. */
  lemma {:induction false} NoRowsForFreshId(logs: seq<LogEntry>, id: ReminderId)
    requires LogsBelow(logs, id)
    ensures SentCount(logs, id) == 0
  {
    if logs != [] {
      assert LogsBelow(logs[1..], id) by {
        forall i | 0 <= i < |logs[1..]| ensures logs[1..][i].reminderId < id {
          assert logs[1..][i] == logs[i + 1];
        }
      }
      NoRowsForFreshId(logs[1..], id);
    }
  }

  /** A reminder with no `sent` row since `since` has none at all after that instant. */
  lemma {:induction false} SentSinceZero(logs: seq<LogEntry>, id: ReminderId, since: int)
    requires SentSince(logs, id, since) == 0
    ensures forall i :: 0 <= i < |logs| && logs[i].reminderId == id && logs[i].status == Sent ==> logs[i].sentAt <= since
  {
    if logs != [] {
      SentSinceZero(logs[1..], id, since);
      assert forall i :: 1 <= i < |logs| ==> logs[i] == logs[1..][i - 1];
    }
  }

  /** Removing only rows of other reminders leaves the `sent` count of `id` unchanged. */
  lemma {:induction false} SentCountFilterOthers(logs: seq<LogEntry>, keep: LogEntry -> bool, id: ReminderId)
    requires forall i :: 0 <= i < |logs| && logs[i].reminderId == id ==> keep(logs[i])
    ensures SentCount(Collections.Filter(logs, keep), id) == SentCount(logs, id)
  {
    if logs != [] {
      SentCountFilterOthers(logs[1..], keep, id);
    }
  }

  /** Removing rows never raises a `sent` count. */
  lemma {:induction false} SentCountFilterLe(logs: seq<LogEntry>, keep: LogEntry -> bool, id: ReminderId)
    ensures SentCount(Collections.Filter(logs, keep), id) <= SentCount(logs, id)
  {
    if logs != [] {
      SentCountFilterLe(logs[1..], keep, id);
    }
  }

  /** The primary key of `reminders`: no two rows share an id. */
  predicate UniqueIds(reminders: seq<Reminder>)
  {
    forall i, j :: 0 <= i < j < |reminders| ==> reminders[i].id != reminders[j].id
  }

  /** Deleting rows keeps the primary key unique. */
  lemma FilterKeepsUniqueIds(reminders: seq<Reminder>, keep: Reminder -> bool)
    requires UniqueIds(reminders)
    ensures UniqueIds(Collections.Filter(reminders, keep))
  {
    Collections.FilterKeepsPairwise(reminders, keep, (a: Reminder, b: Reminder) => a.id != b.id);
  }

  lemma UniqueTail(reminders: seq<Reminder>)
    requires UniqueIds(reminders) && reminders != []
    ensures UniqueIds(reminders[1..])
  {
    var rest := reminders[1..];
    forall i, j | 0 <= i < j < |rest| ensures rest[i].id != rest[j].id {
      assert rest[i] == reminders[i + 1] && rest[j] == reminders[j + 1];
    }
  }

  /** Every reminder id lies below the counter. */
  predicate IdsBelow(reminders: seq<Reminder>, bound: int)
  {
    forall i :: 0 <= i < |reminders| ==> reminders[i].id < bound
  }

  /** Every log row names an id below the counter: one handed out at some time. */
  predicate LogsBelow(logs: seq<LogEntry>, bound: int)
  {
    forall i :: 0 <= i < |logs| ==> logs[i].reminderId < bound
  }

  /** Deleting rows keeps every remaining id below the counter. */
  lemma FilterKeepsIdsBelow(reminders: seq<Reminder>, keep: Reminder -> bool, bound: int)
    requires IdsBelow(reminders, bound)
    ensures IdsBelow(Collections.Filter(reminders, keep), bound)
  {
    var rs := Collections.Filter(reminders, keep);
    forall i | 0 <= i < |rs| ensures rs[i].id < bound {
      assert rs[i] in reminders;
    }
  }

  /** Deleting log rows keeps every remaining row below the counter. */
  lemma FilterKeepsLogsBelow(logs: seq<LogEntry>, keep: LogEntry -> bool, bound: int)
    requires LogsBelow(logs, bound)
    ensures LogsBelow(Collections.Filter(logs, keep), bound)
  {
    var ls := Collections.Filter(logs, keep);
    forall i | 0 <= i < |ls| ensures ls[i].reminderId < bound {
      assert ls[i] in logs;
    }
  }

  /** The key constraints of the three tables, given the auto-increment counter. */
  ghost predicate Keyed(tasks: map<TaskId, Task>, reminders: seq<Reminder>, logs: seq<LogEntry>, next: ReminderId)
  {
    && (forall k :: k in tasks ==> tasks[k].id == k)
    && UniqueIds(reminders)
    && IdsBelow(reminders, next)
    && LogsBelow(logs, next)
  }

  /** The in-memory database. `nextReminderId` is the `AUTO_INCREMENT` counter of
      `reminders`. */
  class Store {
    var tasks: map<TaskId, Task>
    var students: map<StudentId, string>
    var reminders: seq<Reminder>
    var logs: seq<LogEntry>
    var nextReminderId: ReminderId

    /** Primary keys are unique, the auto-increment counter is above every id ever
        handed out, and every log row names such an id. */
    ghost predicate Valid()
      reads this
    {
      Keyed(tasks, reminders, logs, nextReminderId)
    }

    constructor (tasks: map<TaskId, Task>, students: map<StudentId, string>)
      requires forall k :: k in tasks ==> tasks[k].id == k
      ensures Valid()
      ensures this.tasks == tasks && this.students == students
      ensures reminders == [] && logs == [] && nextReminderId == 1
    {
      this.tasks := tasks;
      this.students := students;
      reminders := [];
      logs := [];
      nextReminderId := 1;
    }

    /** `INSERT INTO reminders (...) VALUES (..., TRUE, created)`: appends an active
        row under the next auto-increment id and answers that id. A fresh id has no
        log rows, so every budget still holds. */
    method InsertReminder(studentId: StudentId, taskId: TaskId, taskName: string, leadHours: int,
                          frequency: int, kind: string, contact: string, created: int) returns (id: ReminderId)
      requires Valid()
      modifies this`reminders, this`nextReminderId
      ensures Valid()
      ensures id == old(nextReminderId) && nextReminderId == id + 1
      ensures reminders == old(reminders) + [Reminder(id, studentId, taskId, taskName, leadHours, frequency, kind, contact, true, created)]
      ensures WithinBudget(old(reminders), logs) ==> WithinBudget(reminders, logs)
    {
      id := nextReminderId;
      var row := Reminder(id, studentId, taskId, taskName, leadHours, frequency, kind, contact, true, created);
      NoRowsForFreshId(logs, id);
      reminders := reminders + [row];
      nextReminderId := id + 1;
    }

    /** `DELETE FROM reminders WHERE NOT keep`, answering the number of rows deleted.
        Log rows stay; the key constraints and every frequency budget still hold. */
    method DeleteReminders(keep: Reminder -> bool) returns (deleted: nat)
      requires Valid()
      modifies this`reminders
      ensures Valid()
      ensures reminders == Collections.Filter(old(reminders), keep)
      ensures deleted == |old(reminders)| - |reminders|
      ensures WithinBudget(old(reminders), logs) ==> WithinBudget(reminders, logs)
    {
      DeleteKeepsStore(tasks, reminders, logs, nextReminderId, keep);
      var kept := Collections.Filter(reminders, keep);
      deleted := |reminders| - |kept|;
      reminders := kept;
    }

    /** `DELETE FROM reminder_logs WHERE NOT keep`, answering the number of rows
        deleted. Fewer rows keep every budget and keep `sent` rows an hour apart. */
    method DeleteLogs(keep: LogEntry -> bool) returns (deleted: nat)
      requires Valid()
      modifies this`logs
      ensures Valid()
      ensures logs == Collections.Filter(old(logs), keep)
      ensures deleted == |old(logs)| - |logs|
      ensures WithinBudget(reminders, old(logs)) ==> WithinBudget(reminders, logs)
      ensures Spaced(old(logs)) ==> Spaced(logs)
    {
      var kept := Collections.Filter(logs, keep);
      FilterKeepsLogsBelow(logs, keep, nextReminderId);
      if WithinBudget(reminders, logs) {
        forall i | 0 <= i < |reminders| ensures SentCount(kept, reminders[i].id) <= Budget(reminders[i]) {
          SentCountFilterLe(logs, keep, reminders[i].id);
        }
      }
      if Spaced(logs) {
        SpacedFilter(logs, keep);
      }
      deleted := |logs| - |kept|;
      logs := kept;
    }
  }

  /** No reminder has more `sent` rows than its frequency allows (a frequency below
      zero allowing none). */
  ghost predicate WithinBudget(reminders: seq<Reminder>, logs: seq<LogEntry>)
  {
    forall i :: 0 <= i < |reminders| ==> SentCount(logs, reminders[i].id) <= Budget(reminders[i])
  }

  /** Deleting reminders keeps the rest within their frequency. */
  lemma FilterKeepsBudget(reminders: seq<Reminder>, keep: Reminder -> bool, logs: seq<LogEntry>)
    requires WithinBudget(reminders, logs)
    ensures WithinBudget(Collections.Filter(reminders, keep), logs)
  {
    var rs := Collections.Filter(reminders, keep);
    forall i | 0 <= i < |rs| ensures SentCount(logs, rs[i].id) <= Budget(rs[i]) {
      assert rs[i] in reminders;
    }
  }

  /** Deleting reminders (their log rows staying) keeps the key constraints and keeps
      the rest within their frequency. */
  lemma DeleteKeepsStore(tasks: map<TaskId, Task>, reminders: seq<Reminder>, logs: seq<LogEntry>, next: ReminderId, keep: Reminder -> bool)
    requires Keyed(tasks, reminders, logs, next)
    ensures Keyed(tasks, Collections.Filter(reminders, keep), logs, next)
    ensures WithinBudget(reminders, logs) ==> WithinBudget(Collections.Filter(reminders, keep), logs)
  {
    FilterKeepsUniqueIds(reminders, keep);
    FilterKeepsIdsBelow(reminders, keep, next);
    if WithinBudget(reminders, logs) {
      FilterKeepsBudget(reminders, keep, logs);
    }
  }

  function Budget(r: Reminder): nat
  {
    if r.frequency < 0 then 0 else r.frequency
  }

  /** No two `sent` rows of one reminder are less than an hour apart, the later row
      coming later in the log. */
  ghost predicate Spaced(logs: seq<LogEntry>)
  {
    forall i, j :: 0 <= i < j < |logs| ==> SpacedPair(logs[i], logs[j])
  }

  predicate SpacedPair(earlier: LogEntry, later: LogEntry)
  {
    earlier.reminderId == later.reminderId && earlier.status == Sent && later.status == Sent
    ==> later.sentAt >= earlier.sentAt + HOUR_MS
  }

  /** Deleting log rows keeps the rest spaced. */
  lemma SpacedFilter(logs: seq<LogEntry>, keep: LogEntry -> bool)
    requires Spaced(logs)
    ensures Spaced(Collections.Filter(logs, keep))
  {
    Collections.FilterKeepsPairwise(logs, keep, SpacedPair);
  }

}
