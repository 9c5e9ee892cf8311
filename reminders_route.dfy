/** The `/api/reminders` handlers of the LMS: listing a student's reminders, creating
    a reminder after an ordered chain of checks, and deleting a reminder together with
    its log rows. Each handler answers an HTTP status code; a created reminder answers
    201, a listing or deletion 200. */
module RemindersRoute {

  import opened Collections
  import opened Database

  // ---------------------------------------------------------------- GET

  /** A row of the listing: the reminder joined with its task. */
  datatype ListedReminder = ListedReminder(reminder: Reminder, taskName: string, courseName: string, due: int, taskStatus: string)

  datatype GetResponse = Listing(rows: seq<ListedReminder>) | GetRejected(status: int, message: string)

  /** The `WHERE` clause of the listing: the student's active reminders whose task
      exists and is not submitted. */
  predicate Listed(r: Reminder, tasks: map<TaskId, Task>, studentId: StudentId)
  {
    r.studentId == studentId && r.active && r.taskId in tasks && tasks[r.taskId].status != SUBMITTED
  }

  function JoinTask(r: Reminder, t: Task): ListedReminder
  {
    ListedReminder(r, t.name, t.courseName, t.due, t.status)
  }

  function ListedRows(reminders: seq<Reminder>, tasks: map<TaskId, Task>, studentId: StudentId): seq<ListedReminder>
  {
    if reminders == [] then []
    else
      var rest := ListedRows(reminders[1..], tasks, studentId);
      if Listed(reminders[0], tasks, studentId) then [JoinTask(reminders[0], tasks[reminders[0].taskId])] + rest
      else rest
  }

  /** The listing holds the joined row of every listed reminder and nothing else. */
  lemma {:induction false} ListedRowsExact(reminders: seq<Reminder>, tasks: map<TaskId, Task>, studentId: StudentId)
    ensures var rows := ListedRows(reminders, tasks, studentId);
      forall row :: row in rows <==>
        row.reminder in reminders && Listed(row.reminder, tasks, studentId) && row == JoinTask(row.reminder, tasks[row.reminder.taskId])
  {
    if reminders != [] {
      ListedRowsExact(reminders[1..], tasks, studentId);
      assert reminders == [reminders[0]] + reminders[1..];
    }
  }

  /** No two rows of a listing are for the same reminder. */
  predicate OncePerReminder(rows: seq<ListedReminder>)
  {
    forall i, j :: 0 <= i < j < |rows| ==> rows[i].reminder.id != rows[j].reminder.id
  }

  /** With unique reminder ids, each listed reminder appears in one row. */
  lemma {:induction false} ListedRowsOnce(reminders: seq<Reminder>, tasks: map<TaskId, Task>, studentId: StudentId)
    requires UniqueIds(reminders)
    ensures OncePerReminder(ListedRows(reminders, tasks, studentId))
  {
    if reminders != [] {
      UniqueTail(reminders);
      ListedRowsOnce(reminders[1..], tasks, studentId);
      var rows := ListedRows(reminders, tasks, studentId);
      var rest := ListedRows(reminders[1..], tasks, studentId);
      if Listed(reminders[0], tasks, studentId) {
        assert rows == [rows[0]] + rest && rows[0].reminder == reminders[0];
        ListedRowsExact(reminders[1..], tasks, studentId);
        forall i, j | 0 <= i < j < |rows| ensures rows[i].reminder.id != rows[j].reminder.id {
          assert rows[j] == rest[j - 1] && rest[j - 1] in rest;
          var k :| 0 <= k < |reminders[1..]| && reminders[1..][k] == rows[j].reminder;
          assert reminders[k + 1] == rows[j].reminder;
          if i > 0 {
            assert rows[i] == rest[i - 1];
          }
        }
      } else {
        assert rows == rest;
      }
    }
  }

  /** `ORDER BY ct.due_date ASC, r.created_at DESC` */
  function ListingKey(row: ListedReminder): Key
  {
    (row.due, -row.reminder.createdAt)
  }

  /** `GET ?student_id=`: a missing or empty student id is refused with 400; otherwise
      the student's active reminders on unsubmitted tasks, joined with their task,
      earliest due date first and, for one due date, the latest created first. */
  method GetReminders(store: Store, studentId: Option<StudentId>) returns (response: GetResponse)
    ensures studentId.None? <==> response == GetRejected(400, "Student ID is required")
    ensures response.Listing? ==> forall row :: row in response.rows <==>
      && row.reminder in store.reminders
      && Listed(row.reminder, store.tasks, studentId.value)
      && row == JoinTask(row.reminder, store.tasks[row.reminder.taskId])
    ensures response.Listing? ==> SortedBy(response.rows, ListingKey)
    ensures response.Listing? ==> multiset(response.rows) == multiset(ListedRows(store.reminders, store.tasks, studentId.value))
  {
    if studentId.None? {
      return GetRejected(400, "Student ID is required");
    }
    var unordered := ListedRows(store.reminders, store.tasks, studentId.value);
    ListedRowsExact(store.reminders, store.tasks, studentId.value);
    var rows := SortBy(unordered, ListingKey);
    assert forall row :: row in rows <==> row in unordered by {
      assert forall row :: row in rows <==> row in multiset(rows);
      assert forall row :: row in unordered <==> row in multiset(unordered);
    }
    return Listing(rows);
  }

  // ---------------------------------------------------------------- POST

  /** The request body. A field the client left out arrives as `0` or `""`; the task
      and course names it carries are not used. */
  datatype ReminderRequest = ReminderRequest(
    studentId: StudentId,
    taskId: TaskId,
    taskName: string,
    courseName: string,
    remindBeforeHours: int,
    frequency: int,
    notificationType: string,
    contactInfo: string)

  /** JavaScript's `!field` on the six required fields: zero counts as missing. */
  predicate MissingField(req: ReminderRequest)
  {
    || req.studentId == 0
    || req.taskId == ""
    || req.remindBeforeHours == 0
    || req.frequency == 0
    || req.notificationType == ""
    || req.contactInfo == ""
  }

  predicate KnownChannel(kind: string)
  {
    kind == EMAIL || kind == WHATSAPP
  }

  /** Passes the two checks made before the database is consulted. */
  predicate WellFormed(req: ReminderRequest)
  {
    !MissingField(req) && KnownChannel(req.notificationType)
  }

  predicate Twins(a: Reminder, b: Reminder)
  {
    a.active && b.active && a.studentId == b.studentId && a.taskId == b.taskId
  }

  /** An active reminder exists for the student and the task. */
  predicate HasActive(reminders: seq<Reminder>, studentId: StudentId, taskId: TaskId)
  {
    exists r :: r in reminders && r.active && r.studentId == studentId && r.taskId == taskId
  }

  /** No two active reminders share a student and a task. */
  ghost predicate OneActivePerPair(reminders: seq<Reminder>)
  {
    forall i, j :: 0 <= i < j < |reminders| ==> !Twins(reminders[i], reminders[j])
  }

  /** The task exists and is not submitted. */
  predicate OpenTask(tasks: map<TaskId, Task>, taskId: TaskId)
  {
    taskId in tasks && tasks[taskId].status != SUBMITTED
  }

  datatype PostResponse = Created(reminder: Reminder, courseName: string) | PostRejected(status: int, message: string)

  /** Adding an active reminder for a pair that has none keeps one per pair. */
  lemma AppendKeepsOneActive(reminders: seq<Reminder>, row: Reminder)
    requires OneActivePerPair(reminders)
    requires !HasActive(reminders, row.studentId, row.taskId)
    ensures OneActivePerPair(reminders + [row])
  {
    var rs := reminders + [row];
    forall i, j | 0 <= i < j < |rs| ensures !Twins(rs[i], rs[j]) {
      if j == |reminders| {
        assert rs[i] in reminders;
      } else {
        assert rs[i] == reminders[i] && rs[j] == reminders[j];
      }
    }
  }

  /** `POST`: the checks run in order — required fields (400), notification type
      (400), an active reminder for the same student and task (409), the task missing
      or submitted (404), the task already due (400) — and only a request passing all
      five inserts one active reminder, under the task's stored name, answering 201. */
  method PostReminder(store: Store, req: ReminderRequest, now: int) returns (response: PostResponse)
    requires store.Valid()
    modifies store`reminders, store`nextReminderId
    ensures store.Valid()
    ensures MissingField(req) ==> response == PostRejected(400, "Missing required fields")
    ensures !MissingField(req) && !KnownChannel(req.notificationType) ==>
      response == PostRejected(400, "Invalid notification type")
    ensures WellFormed(req) && HasActive(old(store.reminders), req.studentId, req.taskId) ==>
      response == PostRejected(409, "A reminder already exists for this task")
    ensures WellFormed(req) && !HasActive(old(store.reminders), req.studentId, req.taskId) && !OpenTask(store.tasks, req.taskId) ==>
      response == PostRejected(404, "Task not found or already submitted")
    ensures (WellFormed(req) && !HasActive(old(store.reminders), req.studentId, req.taskId) && OpenTask(store.tasks, req.taskId)
             && store.tasks[req.taskId].due < now) ==>
      response == PostRejected(400, "Cannot create reminder for past due tasks")
    ensures response.Created? <==>
      && WellFormed(req) && !HasActive(old(store.reminders), req.studentId, req.taskId)
      && OpenTask(store.tasks, req.taskId) && store.tasks[req.taskId].due >= now
    ensures response.Created? ==>
      var t := store.tasks[req.taskId];
      && response.reminder == Reminder(old(store.nextReminderId), req.studentId, req.taskId, t.name,
           req.remindBeforeHours, req.frequency, req.notificationType, req.contactInfo, true, now)
      && response.courseName == t.courseName
      && store.reminders == old(store.reminders) + [response.reminder]
      && store.nextReminderId == old(store.nextReminderId) + 1
    ensures response.PostRejected? ==>
      store.reminders == old(store.reminders) && store.nextReminderId == old(store.nextReminderId)
    ensures OneActivePerPair(old(store.reminders)) ==> OneActivePerPair(store.reminders)
    ensures WithinBudget(old(store.reminders), store.logs) ==> WithinBudget(store.reminders, store.logs)
  {
    if MissingField(req) {
      return PostRejected(400, "Missing required fields");
    }
    if !KnownChannel(req.notificationType) {
      return PostRejected(400, "Invalid notification type");
    }
    if HasActive(store.reminders, req.studentId, req.taskId) {
      return PostRejected(409, "A reminder already exists for this task");
    }
    if !OpenTask(store.tasks, req.taskId) {
      return PostRejected(404, "Task not found or already submitted");
    }
    var task := store.tasks[req.taskId];
    if task.due < now {
      return PostRejected(400, "Cannot create reminder for past due tasks");
    }
    var before := store.reminders;
    var id := store.InsertReminder(req.studentId, req.taskId, task.name, req.remindBeforeHours,
                                   req.frequency, req.notificationType, req.contactInfo, now);
    if OneActivePerPair(before) {
      AppendKeepsOneActive(before, store.reminders[|before|]);
    }
    return Created(store.reminders[|before|], task.courseName);
  }

  // ---------------------------------------------------------------- DELETE

  datatype DeleteResponse = Deleted | DeleteRejected(status: int, message: string)

  /** With unique ids, deleting by id removes exactly one row when the id is present
      and none when it is not. */
  lemma DeleteByIdCount(reminders: seq<Reminder>, id: ReminderId)
    requires UniqueIds(reminders)
    ensures id in IdsOf(reminders) ==> |Filter(reminders, (r: Reminder) => r.id != id)| == |reminders| - 1
    ensures id !in IdsOf(reminders) ==> Filter(reminders, (r: Reminder) => r.id != id) == reminders
  {
    if id in IdsOf(reminders) {
      var q :| q in reminders && q.id == id;
      var k :| 0 <= k < |reminders| && reminders[k] == q;
      DeleteByIdPresent(reminders, id, k);
    } else {
      var keep := (r: Reminder) => r.id != id;
      forall i | 0 <= i < |reminders| ensures keep(reminders[i]) {
        assert reminders[i] in reminders;
      }
      FilterKeepsAll(reminders, keep);
    }
  }

  /** The row at `k` is the only one with its id, so deleting by that id removes it
      alone. */
  lemma {:induction false} DeleteByIdPresent(reminders: seq<Reminder>, id: ReminderId, k: nat)
    requires UniqueIds(reminders) && k < |reminders| && reminders[k].id == id
    ensures |Filter(reminders, (r: Reminder) => r.id != id)| == |reminders| - 1
  {
    var rest := reminders[1..];
    if k == 0 {
      forall i | 0 <= i < |rest| ensures rest[i].id != id {
        assert rest[i] == reminders[i + 1];
      }
      FilterKeepsAll(rest, (r: Reminder) => r.id != id);
    } else {
      UniqueTail(reminders);
      assert rest[k - 1] == reminders[k];
      DeleteByIdPresent(rest, id, k - 1);
    }
  }

  /** Deleting rows keeps one active reminder per student and task. */
  lemma FilterKeepsOneActive(reminders: seq<Reminder>, keep: Reminder -> bool)
    requires OneActivePerPair(reminders)
    ensures OneActivePerPair(Filter(reminders, keep))
  {
    FilterKeepsPairwise(reminders, keep, (a: Reminder, b: Reminder) => !Twins(a, b));
  }

  /** `DELETE /api/reminders/[id]`: a missing id is refused with 400 and an id no row
      has with 404, both changing nothing; otherwise the reminder's row and then all of
      its log rows are deleted, and nothing else. */
  method DeleteReminder(store: Store, id: Option<ReminderId>) returns (response: DeleteResponse)
    requires store.Valid()
    modifies store`reminders, store`logs
    ensures store.Valid()
    ensures id.None? ==> response == DeleteRejected(400, "Reminder ID is required")
    ensures id.Some? && id.value !in IdsOf(old(store.reminders)) ==> response == DeleteRejected(404, "Reminder not found")
    ensures response.DeleteRejected? ==> store.reminders == old(store.reminders) && store.logs == old(store.logs)
    ensures response.Deleted? <==> id.Some? && id.value in IdsOf(old(store.reminders))
    ensures response.Deleted? ==>
      && store.reminders == Filter(old(store.reminders), (r: Reminder) => r.id != id.value)
      && |store.reminders| == |old(store.reminders)| - 1
      && store.logs == Filter(old(store.logs), (e: LogEntry) => e.reminderId != id.value)
    ensures OneActivePerPair(old(store.reminders)) ==> OneActivePerPair(store.reminders)
    ensures WithinBudget(old(store.reminders), old(store.logs)) ==> WithinBudget(store.reminders, store.logs)
    ensures Spaced(old(store.logs)) ==> Spaced(store.logs)
  {
    if id.None? {
      return DeleteRejected(400, "Reminder ID is required");
    }
    var rid := id.value;
    DeleteByIdCount(store.reminders, rid);
    if OneActivePerPair(store.reminders) {
      FilterKeepsOneActive(store.reminders, (r: Reminder) => r.id != rid);
    }
    var deleted := store.DeleteReminders((r: Reminder) => r.id != rid);
    if deleted == 0 {
      return DeleteRejected(404, "Reminder not found");
    }
    var gone := store.DeleteLogs((e: LogEntry) => e.reminderId != rid);
    return Deleted;
  }
}
