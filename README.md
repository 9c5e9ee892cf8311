# Task-Reminder: a Dafny model of the reminder engine

Task-Reminder is a learning-management site where a student registers a reminder for a course task:
"remind me N hours before the due date, at most F times, by e-mail or WhatsApp, at this address". This project models the parts of it that decide things:

- **The reminder engine** (`reminder_processor.dfy`, on the store of `database.dfy`). A cycle runs in this order:
  - It first deletes obsolete reminders: those of submitted tasks, those of tasks more than a day overdue, and those whose sends are used up. It then deletes log rows left without a reminder.
  - It selects the active reminders whose fire time fell within the last minute.
  - For each one, it skips the reminder when it was sent in the last hour or its frequency is used up.
  - Otherwise it composes a message for the channel, sends it and logs the attempt.
  - The engine also deletes a task's reminders, and lists the upcoming reminders.
- **The reminders API** (`reminders_route.dfy`). It has three verbs:
  - GET lists a student's reminders, in order.
  - POST creates a reminder. It checks fields, channel, duplicate, task and past due, in that order.
  - DELETE removes one reminder with its logs.
- **The WhatsApp service** (`whatsapp_service.dfy`). It validates the credentials, chooses the sender number, builds the message template and sends.
- **The two cron drivers.** `cron_scheduler.dfy` runs every minute through HTTP. `cron_service.dfy` runs every half hour in process. Both are classes whose start, stop and status methods update their fields.
- **The front-end helpers.**
  - `reminder_form.dfy`: the reminder form's validators, the masking, the frequency text, the submission chain and the grouping of tasks by course.
  - `task_status.dfy`: the status badge of the task list.
  - `course_overview.dfy`: the course overview's tab counts, search and sort.

The database is a `Store` class. Its fields are the `course_tasks`, `students`, `reminders` and `reminder_logs` tables, plus the next reminder id. Each SQL statement is a method that reassigns those fields.

The environment is given to each operation as parameters:
- the clock (`now`);
- which sends the provider accepts;
- which statements throw;
- the date formatter.

Several properties are proved as invariants that every state-changing operation keeps:
- **Budget**: no reminder has more `sent` rows than its frequency.
- **Spacing**: two `sent` rows of one reminder are at least an hour apart.
- **One active reminder per student and task** (kept by the API).

Times are integers in milliseconds. `Collections` and `Text` hold the shared sequence and string functions: filter, count, insertion sort, JavaScript's `trim`, `toLowerCase`, `includes` and number printing.

## Model

| member | source | states |
|---|---|---|
| Collections.Filter | my-lms/app/api/reminders/route.ts:31-44 | A `WHERE` filter keeps exactly the rows that satisfy the predicate, each of which satisfies it; the result is no longer than the input |
| Collections.SortBy | my-lms/app/api/reminders/route.ts:43 | `ORDER BY` and `Array.sort`: the result is sorted by the key and is a permutation of the input |
| Collections.CountIsFilterLength | my-lms/app/components/sections/CourseOverview.tsx:94-121 | A count of the elements meeting a predicate equals the length of `filter(...)` with that predicate, as the tab counts `courses.filter(...).length` are computed |
| Text.Trim | codingan/app/services/whatsappService.ts:75 | `String.trim`: the result is a slice of the input, everything before and after that slice is white space, and the result neither starts nor ends with white space |
| Text.TrimEmptyIffBlank | codingan/app/components/sections/Reminder.tsx:138 | `!s.trim()` holds exactly when every character is white space |
| Text.TrimPadded | codingan/app/services/whatsappService.ts:59-75 | Trimming white-space padding around a body that does not start or end in white space gives back the body |
| Text.IntToStringRoundTrip | codingan/app/components/sections/Reminder.tsx:229-231 | The decimal text of a number reads back as that number |
| Text.ToLowerIdempotent | my-lms/app/components/sections/CourseOverview.tsx:126-128 | Lower-casing twice is lower-casing once |
| Database.Store.InsertReminder | my-lms/app/api/reminders/route.ts:135-160 | The insert appends one active row under the next id and advances the id; the budget invariant is kept |
| Database.Store.DeleteReminders | my_lms/reminderProcessor.ts:332-335 | A `DELETE` keeps exactly the rows the filter keeps and reports how many it removed; the budget invariant is kept |
| Database.Store.DeleteLogs | my_lms/reminderProcessor.ts:160-164 | A log `DELETE` keeps exactly the kept rows and reports the count; the budget and spacing invariants are kept |
| Database.DeleteKeepsStore | my_lms/reminderProcessor.ts:119-154 | Deleting reminders, whose log rows stay, keeps ids unique and below the next id; the rest stay within their frequency |
| Database.SpacedFilter | my_lms/reminderProcessor.ts:160-164 | Deleting log rows keeps the remaining `sent` rows of each reminder an hour apart |
| ReminderProcessor.SelectCandidates | my_lms/reminderProcessor.ts:74-91 | The due query: each reminder joined with its task and student, kept when it is due, in store order; `SelectCandidatesExact` states which rows it returns |
| ReminderProcessor.SelectCandidatesExact | my_lms/reminderProcessor.ts:74-91 | The due query returns exactly the joined active reminders whose task is unsubmitted and less than a day overdue and whose fire time is in the last minute |
| ReminderProcessor.MinuteTicksCoverOnce | my-lms/app/scripts/cron-scheduler.ts:25 | With a cycle every minute, each fire time falls in the window of exactly one cycle |
| ReminderProcessor.WindowTick | my_lms/reminderProcessor.ts:89-90 | The one cycle that selects a fire time is the first tick at or after it |
| ReminderProcessor.HoursUntilDue | my_lms/reminderProcessor.ts:227 | `Math.floor` of the milliseconds to the due date over an hour; `HoursIsFloor` proves it is the floor |
| ReminderProcessor.MinutesUntilDue | my_lms/reminderProcessor.ts:228 | `Math.floor` of the milliseconds to the due date over a minute; `ClassifyMeasures` bounds the minutes shown |
| ReminderProcessor.HoursIsFloor | my_lms/reminderProcessor.ts:227 | `hoursUntilDue` is the floor of the time to the due date, in hours |
| ReminderProcessor.Classify | my_lms/reminderProcessor.ts:230-237 | Overdue iff the due date has passed; due within the hour iff it is less than an hour away; upcoming otherwise |
| ReminderProcessor.ClassifyMeasures | my_lms/reminderProcessor.ts:227-237 | The minutes, hours or hours late that the message shows bracket the real time to or past the due date |
| ReminderProcessor.EmailSubject | my_lms/reminderProcessor.ts:264-271 | The subject line for each urgency; `SubjectShowsUrgency` and `SubjectNamesTask` state what it shows |
| ReminderProcessor.SubjectShowsUrgency | my_lms/reminderProcessor.ts:264-271 | The e-mail subject opens with the alarm, clock or memo sign exactly when the task is overdue, due within the hour, or later |
| ReminderProcessor.SubjectNamesTask | my_lms/reminderProcessor.ts:264-271 | Every e-mail subject contains the task's name |
| ReminderProcessor.Compose | my_lms/reminderProcessor.ts:257-305 | Something is sent iff the channel is e-mail or WhatsApp; it goes to the reminder's contact, as an e-mail exactly for the e-mail channel |
| ReminderProcessor.ComposedContent | my_lms/reminderProcessor.ts:263-298 | The e-mail subject names the task and shows its urgency; the WhatsApp message names the student, task, course and due date |
| ReminderProcessor.LogReminderAttempt | my_lms/reminderProcessor.ts:307-324 | One row with the outcome and the current time is appended, unless the insert throws; nothing else changes |
| ReminderProcessor.ProcessIndividualReminder | my_lms/reminderProcessor.ts:181-255 | The reminder's result and the rows it appends are those of the dispatch function; no other table changes |
| ReminderProcessor.DispatchOf | my_lms/reminderProcessor.ts:181-255 | `processIndividualReminder` as a function of the log: skip a submitted task, a failing count query, or a reminder that may not fire; otherwise compose, send and log one row unless the insert throws; the lemmas below state its properties |
| ReminderProcessor.RecentlySentIsSkipped | my_lms/reminderProcessor.ts:203-216 | A reminder sent in the last hour sends nothing, logs nothing and yields false |
| ReminderProcessor.ExhaustedIsSkipped | my_lms/reminderProcessor.ts:219-250 | A reminder with as many `sent` rows as its frequency sends nothing, logs nothing and yields false |
| ReminderProcessor.AttemptIsLoggedOnce | my_lms/reminderProcessor.ts:226-246 | A reminder that may fire logs exactly one row for itself at the current time; the row is `sent` iff the result is true iff the channel is known and the provider accepted |
| ReminderProcessor.DispatchShape | my_lms/reminderProcessor.ts:181-255 | Any reminder logs at most one row, stamped now and for itself; anything sent or logged implies the reminder was allowed to fire |
| ReminderProcessor.FailedRowIsInvisible | my_lms/reminderProcessor.ts:317 | A `failed` row changes neither the total nor the last-hour `sent` count |
| ReminderProcessor.DispatchWithinBudget | my_lms/reminderProcessor.ts:219-246 | One dispatch never takes a reminder past its frequency |
| ReminderProcessor.DispatchKeepsSpacing | my_lms/reminderProcessor.ts:203-216 | One dispatch never puts two `sent` rows of a reminder less than an hour apart |
| ReminderProcessor.DispatchAll | my_lms/reminderProcessor.ts:96-100 | The loop counts at most one success per candidate and only appends to the log, at most a row per candidate |
| ReminderProcessor.DispatchAllWithinBudget | my_lms/reminderProcessor.ts:96-100 | A whole cycle's dispatch loop keeps every reminder within its frequency |
| ReminderProcessor.DispatchAllKeepsSpacing | my_lms/reminderProcessor.ts:96-100 | A whole cycle's dispatch loop keeps `sent` rows an hour apart |
| ReminderProcessor.DispatchAllLogsOwnReminders | my_lms/reminderProcessor.ts:96-100 | Every row the loop appends belongs to an existing reminder id |
| ReminderProcessor.DropSubmitted | my_lms/reminderProcessor.ts:119-123 | Cleanup step 1: keep the reminders whose task is not submitted |
| ReminderProcessor.DropOverdue | my_lms/reminderProcessor.ts:130-135 | Cleanup step 2: keep the reminders whose unsubmitted task is not more than 24 hours overdue |
| ReminderProcessor.DropExhausted | my_lms/reminderProcessor.ts:141-154 | Cleanup step 3: keep the reminders with fewer `sent` rows than their frequency |
| ReminderProcessor.DropOrphans | my_lms/reminderProcessor.ts:160-164 | Cleanup step 4: keep the log rows whose reminder still exists |
| ReminderProcessor.Cleaned | my_lms/reminderProcessor.ts:119-154 | The reminders left by steps 1 to 3 in order; `CleanupGuarantees` and `CleanupRemovesResolved` state what is left |
| ReminderProcessor.CleanupGuarantees | my_lms/reminderProcessor.ts:114-179 | After cleanup every reminder left was there before, its task is neither submitted nor more than a day overdue, and it has sends left; every log row left was there before and has its reminder |
| ReminderProcessor.CleanupRemovesResolved | my_lms/reminderProcessor.ts:119-164 | A reminder of a submitted or long-overdue task, or with its sends used up, is gone after cleanup, and so are its log rows |
| ReminderProcessor.CompleteCleanup | my_lms/reminderProcessor.ts:114-179 | When no cleanup statement throws, the reminders left are those of the full cleanup |
| ReminderProcessor.DeleteObsoleteReminders | my_lms/reminderProcessor.ts:119-157 | The three reminder deletions run in order and a throwing one stops the rest and is reported; the reminders left are those of the steps run, the counts add up to the rows removed, and the budget is kept |
| ReminderProcessor.CleanupObsoleteReminders | my_lms/reminderProcessor.ts:114-179 | The four deletions run in order; a throwing one stops the rest and is reported; the counts add up to the rows removed; budget and spacing are kept |
| ReminderProcessor.CleanupKeepsBudget | my_lms/reminderProcessor.ts:141-164 | The cleaned store is within budget when the original was |
| ReminderProcessor.DispatchCandidates | my_lms/reminderProcessor.ts:96-100 | The loop's log and success count are those of the dispatch function over the candidates in order |
| ReminderProcessor.DispatchDue | my_lms/reminderProcessor.ts:74-103 | The selected candidates are dispatched in order; processed is at most total; budget and spacing are kept |
| ReminderProcessor.ProcessReminders | my_lms/reminderProcessor.ts:63-112 | `CycleEffect`: a connection failure changes nothing; a cleanup failure aborts after the deletions before it; a failing selection leaves the full cleanup; otherwise the logs and the report are those of dispatching the selected candidates in order over the cleaned log; budget and spacing are kept; tasks, students and the next id are unchanged |
| ReminderProcessor.DeleteRemindersForTask | my_lms/reminderProcessor.ts:326-349 | Removes exactly the task's reminders and returns how many, or returns 0 and changes nothing when the statement throws |
| ReminderProcessor.CountComplement | my_lms/reminderProcessor.ts:332-340 | The rows kept and the rows counted as deleted add up to the table |
| ReminderProcessor.UpcomingRows | my_lms/reminderProcessor.ts:358-380 | The upcoming query before its `ORDER BY`: reminders joined with student and task, kept when they fire within the limit, with the minutes to firing; `UpcomingRowsExact` and `UpcomingRowsOnce` state which rows it returns |
| ReminderProcessor.UpcomingRowsExact | my_lms/reminderProcessor.ts:358-380 | Lists exactly the joined active reminders whose fire time is later than now and within the limit, each with its fire time and `TIMESTAMPDIFF(MINUTE, NOW(), reminder_time)`, the whole minutes to it, which is between 0 and the limit |
| ReminderProcessor.UpcomingRowsOnce | my_lms/reminderProcessor.ts:358-380 | With unique reminder ids, no reminder is listed twice |
| ReminderProcessor.GetUpcomingReminders | my_lms/reminderProcessor.ts:352-391 | The listing holds exactly the joined reminders firing within the limit, each with its whole minutes to firing, sorted by fire time, with each row as often as the unordered query gives it; empty when the query throws |
| RemindersRoute.ListedRows | my-lms/app/api/reminders/route.ts:31-44 | The listing query before its `ORDER BY`: the student's listed reminders joined with their task; `ListedRowsExact` and `ListedRowsOnce` state which rows it returns |
| RemindersRoute.ListedRowsExact | my-lms/app/api/reminders/route.ts:31-44 | The listing holds exactly the student's active reminders whose task exists and is unsubmitted, joined with the task |
| RemindersRoute.ListedRowsOnce | my-lms/app/api/reminders/route.ts:31-44 | With unique reminder ids, each listed reminder appears in one row |
| RemindersRoute.GetReminders | my-lms/app/api/reminders/route.ts:14-58 | A missing student id is a 400; otherwise the exact listing, with each row as often as the query gives it, by due date and then newest first |
| RemindersRoute.PostReminder | my-lms/app/api/reminders/route.ts:60-188 | The 400, 400, 409, 404 and 400 rejections in the source's order; created iff all checks pass, appending one active row with the task's name |
| RemindersRoute.AppendKeepsOneActive | my-lms/app/api/reminders/route.ts:95-105 | Adding an active reminder for a pair without one keeps one active reminder per student and task |
| RemindersRoute.DeleteByIdCount | my-lms/app/api/reminders/route.ts:210-222 | With unique ids, deleting by id removes one row when the id exists and none otherwise |
| RemindersRoute.DeleteByIdPresent | my-lms/app/api/reminders/route.ts:210-222 | Deleting by the id of an existing row removes exactly one row when ids are unique |
| RemindersRoute.FilterKeepsOneActive | my-lms/app/api/reminders/route.ts:210-213 | Deleting rows keeps one active reminder per student and task |
| RemindersRoute.DeleteReminder | my-lms/app/api/reminders/route.ts:191-242 | A 400 without an id, a 404 for an unknown id, with nothing changed; otherwise the row and its logs are removed; all invariants are kept |
| WhatsApp.CheckCredentials | codingan/app/services/whatsappService.ts:14-37 | Accepts iff both are set, the SID starts with `AC` and has 34 characters and the token has 32; each error exactly in its case |
| WhatsApp.FromNumber | codingan/app/services/whatsappService.ts:16 | The configured number when set and non-empty, the sandbox number otherwise |
| WhatsApp.Create | codingan/app/services/whatsappService.ts:13-40 | A service is built iff the credentials check passes, holding those credentials and the sender number; otherwise the check's error |
| WhatsApp.WhatsAppService.SendWhatsAppMessage | codingan/app/services/whatsappService.ts:42-56 | Sends the message from the service's number to `whatsapp:` plus the address; true iff the provider accepts |
| WhatsApp.CreateReminderMessage | codingan/app/services/whatsappService.ts:58-76 | The trimmed message template; `TemplateTrimmed` and `MessageMentions` state what it holds |
| WhatsApp.TemplateTrimmed | codingan/app/services/whatsappService.ts:58-76 | The message is the template body with the padding trimmed |
| WhatsApp.MessageMentions | codingan/app/services/whatsappService.ts:58-76 | The message contains the student, task, course, due date and the hours remaining |
| CronScheduler.Scheduler.constructor | my-lms/app/scripts/cron-scheduler.ts:10-12 | A new scheduler is stopped, with no tasks and the given base URL |
| CronScheduler.Scheduler.Start | my-lms/app/scripts/cron-scheduler.ts:14-36 | Starting a stopped scheduler schedules one every-minute task; starting a running one changes nothing |
| CronScheduler.Scheduler.Stop | my-lms/app/scripts/cron-scheduler.ts:64-80 | After stopping, the scheduler is stopped with no tasks |
| CronScheduler.Scheduler.GetStatus | my-lms/app/scripts/cron-scheduler.ts:89-95 | The status reports the fields; the task count is 1 when running and 0 when not |
| CronScheduler.Scheduler.SetCustomSchedule | my-lms/app/scripts/cron-scheduler.ts:98-113 | Afterwards exactly one task runs, on the given expression |
| CronService.Service.constructor | codingan/app/services/cronService.ts:6-7 | A new service is stopped with no jobs |
| CronService.Service.Start | codingan/app/services/cronService.ts:9-32 | Afterwards the service runs with the one `reminders` job; starting a running service changes nothing |
| CronService.Service.Stop | codingan/app/services/cronService.ts:34-42 | Afterwards the service is stopped with no jobs |
| CronService.Service.GetStatus | codingan/app/services/cronService.ts:44-50 | The job names listed are the jobs, without repeats; running iff the list is the `reminders` job; the next-run text follows the running flag |
| CronService.Service.TriggerReminders | codingan/app/services/cronService.ts:52-62 | Returns the reminder cycle's own result with its effect on the store (`CycleEffect`: the reminders and logs left, the counts, each abort case, budget and spacing kept); tasks, students and the next id are unchanged; completes iff nothing throws |
| CronService.HalfHourTicksSelectLastMinute | codingan/app/services/cronService.ts:16 | With cycles on UTC half hours and the one-minute selection window, only fire times on the tick or in the minute before it are ever selected |
| CronService.HalfHourTicksMissFivePast | codingan/app/services/cronService.ts:16 | A reminder due to fire at five past any hour is never selected, if the half-hourly ticks fall on UTC half hours and the processor uses the one-minute window |
| TaskStatus.IsOverdue | my-lms/app/tasks/page.tsx:58-60 | Past due and not submitted |
| TaskStatus.StatusText | my-lms/app/tasks/page.tsx:82-90 | "Submitted", then "Overdue", then "Pending", in the source's order of tests |
| TaskStatus.StatusColor | my-lms/app/tasks/page.tsx:62-70 | Green, then red, then yellow classes, in the same order of tests |
| TaskStatus.StatusIcon | my-lms/app/tasks/page.tsx:72-80 | Check, then alert, then clock icon, in the same order of tests |
| TaskStatus.BadgeAgrees | my-lms/app/tasks/page.tsx:58-90 | The badge's colour, icon and text all show the same one of submitted, overdue and pending |
| TaskStatus.TextDeterminesBadge | my-lms/app/tasks/page.tsx:62-90 | Two tasks with the same badge text have the same colour and icon |
| TaskStatus.StatusCases | my-lms/app/tasks/page.tsx:58-90 | A submitted task shows "Submitted"; otherwise "Overdue" iff the due date has passed; a task due exactly now is "Pending" |
| CourseOverview.Tabs | my-lms/app/components/sections/CourseOverview.tsx:94-121 | The six tabs with their counts: all courses, then the count of each status; `TabsPartition` and `TabCountsFilter` state how they relate |
| CourseOverview.TabsPartition | my-lms/app/components/sections/CourseOverview.tsx:94-121 | When each course has one of the five statuses, the five status tabs' counts add up to the All tab's count |
| CourseOverview.TabCountsFilter | my-lms/app/components/sections/CourseOverview.tsx:94-130 | Each status tab's count is the length of the list that tab shows with an empty search |
| CourseOverview.MatchesSearch | my-lms/app/components/sections/CourseOverview.tsx:125-128 | The lower-cased title, code or instructor contains the lower-cased term |
| CourseOverview.FilteredCourses | my-lms/app/components/sections/CourseOverview.tsx:123-130 | The courses on the tab that match the search, in order; `FilteredExactly` and `SearchEmptyKeepsTab` state which |
| CourseOverview.FilteredExactly | my-lms/app/components/sections/CourseOverview.tsx:123-130 | A course is listed iff it is on the tab (any course on All) and matches the search |
| CourseOverview.SearchEmptyKeepsTab | my-lms/app/components/sections/CourseOverview.tsx:123-130 | An empty search shows the tab's courses in order, and on All every course |
| CourseOverview.SearchIgnoresTermCase | my-lms/app/components/sections/CourseOverview.tsx:125-128 | Lower-casing the search term first does not change which courses match |
| CourseOverview.SortedCourses | my-lms/app/components/sections/CourseOverview.tsx:133-145 | The sorted list is a permutation of the filtered list, ordered by instructor, start date or title as the menu says |
| ReminderForm.ValidateEmail | codingan/app/components/sections/Reminder.tsx:91-94 | The e-mail regular expression `^[^\s@]+@[^\s@]+\.[^\s@]+$` as a scan; `EmailValidIffShape` ties it to the shape it describes |
| ReminderForm.EmailValidIffShape | codingan/app/components/sections/Reminder.tsx:91-94 | The e-mail check passes iff the text is local `@` domain `.` suffix, each part non-empty without white space or `@` |
| ReminderForm.EmailValidHasShape | codingan/app/components/sections/Reminder.tsx:91-94 | A text the e-mail check passes has the local `@` domain `.` suffix shape |
| ReminderForm.EmailShapeIsValid | codingan/app/components/sections/Reminder.tsx:91-94 | A text of the local `@` domain `.` suffix shape passes the e-mail check |
| ReminderForm.ValidatePhone | codingan/app/components/sections/Reminder.tsx:96-99 | The phone regular expression and the ten-digit count as a scan; `PhoneValidIffShape` ties it to the shape it describes |
| ReminderForm.PhoneValidIffShape | codingan/app/components/sections/Reminder.tsx:96-99 | The phone check passes iff the text is an optional `+` then digits, white space, dashes and parentheses, with at least ten digits; such a text is at least ten long |
| ReminderForm.Digits | codingan/app/components/sections/Reminder.tsx:98 | The digits kept are digits and no more than the text |
| ReminderForm.FormatContactInfo | codingan/app/components/sections/Reminder.tsx:233-244 | E-mail addresses unchanged; WhatsApp numbers over ten characters as the first six, `...` and the last four; `MaskRevealsTenCharacters` and `ShortContactShownInFull` state what is shown |
| ReminderForm.MaskRevealsTenCharacters | codingan/app/components/sections/Reminder.tsx:233-244 | A masked phone number is 13 characters, and two are masked alike iff their first six and last four characters agree |
| ReminderForm.ShortContactShownInFull | codingan/app/components/sections/Reminder.tsx:233-244 | E-mail addresses and contacts of ten characters or fewer are shown unchanged |
| ReminderForm.CalculateReminderTime | codingan/app/components/sections/Reminder.tsx:126-135 | The due date less the lead in milliseconds; `ReminderTimeIsFireTime` ties it to the engine |
| ReminderForm.ReminderTimeIsFireTime | codingan/app/components/sections/Reminder.tsx:126-135 | The form's reminder time is the engine's fire time, and it is before the due date iff the lead is positive |
| ReminderForm.GetFrequencyText | codingan/app/components/sections/Reminder.tsx:229-231 | "1 time" for one, the number and " times" otherwise; `FrequencyTextReadsBack` states it |
| ReminderForm.FrequencyTextReadsBack | codingan/app/components/sections/Reminder.tsx:229-231 | The text starts with the number, which reads back; it ends in " time" iff the number is 1 and " times" otherwise |
| ReminderForm.ActiveTasks | codingan/app/components/sections/Reminder.tsx:80-83 | The form offers exactly the unsubmitted tasks |
| ReminderForm.FindTask | codingan/app/components/sections/Reminder.tsx:122-124 | None iff no task has the id; otherwise the first task with that id |
| ReminderForm.PickedTaskIsOpen | codingan/app/components/sections/Reminder.tsx:80-124 | A task picked from the offered list is unsubmitted and one of the fetched tasks |
| ReminderForm.HandleSubmit | codingan/app/components/sections/Reminder.tsx:137-175 | The alerts in the source's order; a request iff the checks pass, carrying the form and the picked task; when its numbers are non-zero and the channel known, it passes the API's field and channel checks |
| ReminderForm.ByCourse | codingan/app/components/sections/Reminder.tsx:252-258 | The grouping the picker needs, defined independently of the loop: one group per course name that occurs, holding that course's tasks in order |
| ReminderForm.EachTaskInOneGroup | codingan/app/components/sections/Reminder.tsx:252-258 | Each task is in its course's group, each group holds only its course's tasks, and no group is empty |
| ReminderForm.GroupStep | codingan/app/components/sections/Reminder.tsx:252-258 | Grouping one more task pushes it onto its course's group, creating the group when new |
| ReminderForm.GroupTasks | codingan/app/components/sections/Reminder.tsx:252-258 | The grouping loop builds exactly the groups by course |
| ReminderForm.GroupTasksAsWritten | codingan/app/components/sections/Reminder.tsx:252-258 | The loop as written fails iff some course is named after an inherited object member, on the first such task's course, and otherwise builds the groups by course |
| ReminderForm.ToStringCourseBreaksGrouping | codingan/app/components/sections/Reminder.tsx:252-258 | A single task of a course named `toString` makes the grouping as written fail on that course, while the corrected grouping gives the one group `toString` holding the task |

## Left out

- Database connections, `connection.end()` and the 500 responses of the API. A throwing statement is a parameter that says which stage fails.
- Date parsing and formatting. Instants are integers, `toLocaleString` is a formatter parameter, and invalid dates (NaN) are not modelled.
- `localeCompare` is a collation rank parameter. Sort stability is not stated, only sortedness and permutation.
- `toLowerCase` folds ASCII letters only. Strings are sequences of characters, not UTF-16 code units.
- The e-mail transport and its HTML body live in a separate e-mail service, which is not part of this model. Only the subject is modelled.
- The Twilio client, node-cron timers, `fetch` of the cron endpoint, `triggerManually`, and `destroy()` / `job.stop()` are left out. Scheduled jobs are records of their cron expression.
- JSON body parsing and the query string's conversion to a number are left out. A missing id is `None`, and an empty or zero field is a missing field.
- Rows an unordered SQL query returns are kept in store order.
- A cycle reads one `now` for all of its statements.
- CronService: the student app's service imports its own `reminderProcessor` module, which is not part of this model. `TriggerReminders` and the half-hour lemmas assume it behaves like `my_lms/reminderProcessor.ts`, with the one-minute selection window. They also assume node-cron's half-hour ticks fall on multiples of 30 minutes since the epoch. Local time zones whose offset is not a multiple of 30 minutes (such as +05:45) shift the ticks, and then the lemmas do not apply.
- ReminderProcessor.ProcessReminders: cleanup is not best-effort. A failing cleanup statement aborts the whole cycle, following the code, which rethrows.
- Fractional `remind_before_hours` values are not modelled: the lead is an integer number of hours, as the column is.
- The UI state updates after a response (setting reminders, success alerts) and the client side of deleting a reminder are left out.
- The delete in the cleanup `completed` query compares the count of `sent` rows with the frequency column. A negative frequency is treated as a zero budget in the invariant.

## Findings

| source | as written | input that shows it | evidently intended | confidence | as-written member | corrected member |
|---|---|---|---|---|---|---|
| codingan/app/components/sections/Reminder.tsx:252-258 | The grouping reduces into a `{}` object and creates a group only when `!acc[name]`. For a course named after a member inherited from `Object.prototype`, `acc[name]` is that member, so no array is created and `push` throws. | one task whose `course_name` is `"toString"` | every task grouped under its course name, whatever the name | high, not executed | ReminderForm.GroupTasksAsWritten, ReminderForm.ToStringCourseBreaksGrouping | ReminderForm.GroupTasks |
