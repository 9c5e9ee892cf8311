/** The student's reminder form: the contact validators, the masked contact shown in
    the list, the reminder instant and frequency texts, the order in which a
    submission is checked before it is posted, the task list without submitted
    tasks, and the tasks grouped by course for the task picker. */
module ReminderForm {

  import opened Collections
  import Text
  import Database
  import ReminderProcessor
  import RemindersRoute

  /** A course task as the form receives it; the due date is an instant in
      milliseconds. */
  datatype CourseTask = CourseTask(id: string, name: string, courseName: string, due: int, status: string)

  /** The form's fields. */
  datatype FormData = FormData(
    courseTask: string,
    remindBefore: int,
    frequency: int,
    notificationType: string,
    contactInfo: string)

  /** What a submission ends in: an alert, or the request posted to the reminders
      API. */
  datatype Submission = Alert(message: string) | Submit(request: RemindersRoute.ReminderRequest)

  const FILL_IN := "Please fill in all required fields"
  const BAD_EMAIL := "Please enter a valid email address"
  const BAD_PHONE := "Please enter a valid phone number"
  const BAD_TASK := "Please select a valid course task"

  // ---------------------------------------------------------------------------
  // Email

  /** `[^\s@]`: neither white space nor `@`. */
  predicate Plain(c: char)
  {
    !Text.IsWhitespace(c) && c != '@'
  }

  /** No white space and no `@` anywhere in `s`. */
  predicate NoSpaceOrAt(s: string)
  {
    forall k :: 0 <= k < |s| ==> Plain(s[k])
  }

  /** `[^\s@]+`: a non-empty run of characters other than white space and `@`. */
  predicate EmailPart(s: string)
  {
    s != [] && NoSpaceOrAt(s)
  }

  /** What the pattern `^[^\s@]+@[^\s@]+\.[^\s@]+$` accepts: a part, `@`, a part, a
      dot, a part. */
  ghost predicate EmailShape(s: string)
  {
    exists i, j :: 0 < i < j < |s| - 1 && s[i] == '@' && s[j] == '.'
      && EmailPart(s[..i]) && EmailPart(s[i + 1..j]) && EmailPart(s[j + 1..])
  }

  /** The index of the first `c` in `s`, or -1. */
  function IndexOf(s: string, c: char): (r: int)
    ensures -1 <= r < |s|
    ensures r == -1 <==> c !in s
    ensures r >= 0 ==> s[r] == c && c !in s[..r]
  {
    if s == [] then -1
    else if s[0] == c then 0
    else
      var k := IndexOf(s[1..], c);
      assert s[1..][..k + 1] == s[1..k + 2] by { }
      if k < 0 then -1 else k + 1
  }

  lemma {:induction false} IndexOfFirst(s: string, c: char, i: nat)
    requires i < |s| && s[i] == c && c !in s[..i]
    ensures IndexOf(s, c) == i
  {
    if i > 0 {
      assert s[0] in s[..i];
      assert s[1..][..i - 1] == s[1..i];
      assert c !in s[1..][..i - 1];
      IndexOfFirst(s[1..], c, i - 1);
    }
  }

  /** `validateEmail`: the first `@` is not the first character, nothing before it
      is white space, and what follows it has no white space or `@` and holds a dot
      that is neither its first nor its last character. */
  predicate ValidateEmail(s: string)
  {
    var i := IndexOf(s, '@');
    && i > 0 && NoSpaceOrAt(s[..i])
    && var domain := s[i + 1..];
      |domain| >= 3 && NoSpaceOrAt(domain) && '.' in domain[1..|domain| - 1]
  }

  /** Two clean runs joined by a dot make a clean run. */
  lemma DomainClean(s: string, i: nat, j: nat)
    requires i < j < |s| && s[j] == '.' && NoSpaceOrAt(s[i + 1..j]) && NoSpaceOrAt(s[j + 1..])
    ensures NoSpaceOrAt(s[i + 1..])
  {
    var domain := s[i + 1..];
    forall k | 0 <= k < |domain|
      ensures Plain(domain[k])
    {
      if i + 1 + k < j {
        assert domain[k] == s[i + 1..j][k];
      } else if i + 1 + k > j {
        assert domain[k] == s[j + 1..][k + i - j];
      }
    }
  }

  lemma NoSpaceOrAtSlice(x: string, a: nat, b: nat)
    requires NoSpaceOrAt(x) && a <= b <= |x|
    ensures NoSpaceOrAt(x[a..b])
  {
    assert forall k :: 0 <= k < b - a ==> x[a..b][k] == x[a + k];
  }

  /** What the validator accepts splits as the pattern requires. */
  lemma {:induction false} EmailValidHasShape(s: string)
    requires ValidateEmail(s)
    ensures EmailShape(s)
  {
    var i := IndexOf(s, '@');
    var domain := s[i + 1..];
    var m :| 0 <= m < |domain[1..|domain| - 1]| && domain[1..|domain| - 1][m] == '.';
    var j := i + 2 + m;
    assert s[j] == '.';
    assert s[i + 1..j] == domain[..m + 1];
    assert s[j + 1..] == domain[m + 2..];
    NoSpaceOrAtSlice(domain, 0, m + 1);
    NoSpaceOrAtSlice(domain, m + 2, |domain|);
    assert domain[m + 2..|domain|] == domain[m + 2..];
    assert EmailPart(s[..i]) && EmailPart(s[i + 1..j]) && EmailPart(s[j + 1..]);
  }

  lemma DotInside(d: string, m: nat)
    requires 0 < m < |d| - 1 && d[m] == '.'
    ensures '.' in d[1..|d| - 1]
  {
    assert d[1..|d| - 1][m - 1] == '.';
  }

  /** A text split at `i` and `j` as the pattern requires is accepted. */
  lemma EmailSplitIsValid(s: string, i: nat, j: nat)
    requires 0 < i < j < |s| - 1 && s[i] == '@' && s[j] == '.'
    requires EmailPart(s[..i]) && EmailPart(s[i + 1..j]) && EmailPart(s[j + 1..])
    ensures ValidateEmail(s)
  {
    assert s[i] !in s[i + 1..j];
    assert '@' !in s[..i];
    IndexOfFirst(s, '@', i);
    DomainClean(s, i, j);
    assert s[i + 1..][j - i - 1] == s[j];
    DotInside(s[i + 1..], j - i - 1);
  }

  /** What splits as the pattern requires, the validator accepts. */
  lemma EmailShapeIsValid(s: string)
    requires EmailShape(s)
    ensures ValidateEmail(s)
  {
    var i, j :| 0 < i < j < |s| - 1 && s[i] == '@' && s[j] == '.'
      && EmailPart(s[..i]) && EmailPart(s[i + 1..j]) && EmailPart(s[j + 1..]);
    EmailSplitIsValid(s, i, j);
  }

  /** The validator accepts exactly the texts the pattern describes. */
  lemma EmailValidIffShape(s: string)
    ensures ValidateEmail(s) <==> EmailShape(s)
  {
    if ValidateEmail(s) {
      EmailValidHasShape(s);
    }
    if EmailShape(s) {
      EmailShapeIsValid(s);
    }
  }

  // ---------------------------------------------------------------------------
  // Phone

  /** `[\d\s-()]`: outside unicode mode a class escape before `-` makes the `-`
      literal, so the class is digits, white space, `-`, `(` and `)`. */
  predicate PhoneChar(c: char)
  {
    Text.IsDigit(c) || Text.IsWhitespace(c) || c == '-' || c == '(' || c == ')'
  }

  /** `phone.replace(/\D/g, "")`: the digits of `s`, in order. */
  function Digits(s: string): (r: string)
    ensures |r| <= |s|
    ensures forall i :: 0 <= i < |r| ==> Text.IsDigit(r[i])
  {
    Filter(s, Text.IsDigit)
  }

  /** What the pattern `^\+?[\d\s-()]+$` accepts: an optional `+` followed by a
      non-empty run of phone characters. */
  ghost predicate PhoneShape(s: string)
  {
    exists k :: 0 <= k <= 1 && k < |s| && s[..k] == "+"[..k]
      && forall i :: k <= i < |s| ==> PhoneChar(s[i])
  }

  /** `validatePhone`: after an optional leading `+`, a non-empty run of phone
      characters, and at least ten digits overall. */
  predicate ValidatePhone(s: string)
  {
    var body := if s != [] && s[0] == '+' then s[1..] else s;
    && body != []
    && (forall i :: 0 <= i < |body| ==> PhoneChar(body[i]))
    && |Digits(s)| >= 10
  }

  /** What the validator accepts has the pattern's shape and ten digits. */
  lemma PhoneValidHasShape(s: string)
    requires ValidatePhone(s)
    ensures PhoneShape(s) && |Digits(s)| >= 10 && |s| >= 10
  {
    var k := if s[0] == '+' then 1 else 0;
    assert s[..k] == "+"[..k];
    forall i | k <= i < |s|
      ensures PhoneChar(s[i])
    {
      assert s[i] == s[k..][i - k];
    }
  }

  /** What has the pattern's shape and ten digits, the validator accepts. */
  lemma PhoneShapeIsValid(s: string)
    requires PhoneShape(s) && |Digits(s)| >= 10
    ensures ValidatePhone(s)
  {
    var k :| 0 <= k <= 1 && k < |s| && s[..k] == "+"[..k]
      && forall i :: k <= i < |s| ==> PhoneChar(s[i]);
    if k == 1 {
      assert s[0] == s[..k][0] == '+';
    } else {
      assert PhoneChar(s[0]);
      assert s[0] != '+';
    }
    var body := s[k..];
    forall i | 0 <= i < |body|
      ensures PhoneChar(body[i])
    {
      assert body[i] == s[k + i];
    }
  }

  /** The validator accepts exactly the texts the pattern describes that hold ten or
      more digits; such a text is at least ten characters long. */
  lemma PhoneValidIffShape(s: string)
    ensures ValidatePhone(s) <==> PhoneShape(s) && |Digits(s)| >= 10
    ensures ValidatePhone(s) ==> |s| >= 10
  {
    if ValidatePhone(s) {
      PhoneValidHasShape(s);
    }
    if PhoneShape(s) && |Digits(s)| >= 10 {
      PhoneShapeIsValid(s);
    }
  }

  // ---------------------------------------------------------------------------
  // What the list shows

  /** `formatContactInfo`: an email address is shown as is; any other contact
      longer than ten characters keeps its first six and last four characters
      around `...`. */
  function FormatContactInfo(contact: string, kind: string): string
  {
    if kind == Database.EMAIL then contact
    else if |contact| > 10 then contact[..6] + "..." + contact[|contact| - 4..]
    else contact
  }

  /** A masked contact is 13 characters long and two long contacts show the same
      mask exactly when they agree on their first six and last four characters:
      nothing else of the number is revealed. */
  lemma MaskRevealsTenCharacters(c1: string, c2: string, kind: string)
    requires kind != Database.EMAIL && |c1| > 10 && |c2| > 10
    ensures |FormatContactInfo(c1, kind)| == 13
    ensures FormatContactInfo(c1, kind) == FormatContactInfo(c2, kind)
      <==> c1[..6] == c2[..6] && c1[|c1| - 4..] == c2[|c2| - 4..]
  {
    var m1 := FormatContactInfo(c1, kind);
    var m2 := FormatContactInfo(c2, kind);
    assert m1[..6] == c1[..6] && m1[9..] == c1[|c1| - 4..];
    assert m2[..6] == c2[..6] && m2[9..] == c2[|c2| - 4..];
  }

  /** An email address, or a contact of at most ten characters, is shown in full. */
  lemma ShortContactShownInFull(contact: string, kind: string)
    requires kind == Database.EMAIL || |contact| <= 10
    ensures FormatContactInfo(contact, kind) == contact
  {
  }

  /** `calculateReminderTime`: the due instant less the lead time in hours. */
  function CalculateReminderTime(due: int, remindBeforeHours: int): int
  {
    due - remindBeforeHours * 60 * 60 * 1000
  }

  /** The instant the form shows is the one at which the dispatch engine fires the
      reminder. */
  lemma ReminderTimeIsFireTime(due: int, remindBeforeHours: int)
    ensures CalculateReminderTime(due, remindBeforeHours) == ReminderProcessor.FireTime(due, remindBeforeHours)
    ensures CalculateReminderTime(due, remindBeforeHours) < due <==> remindBeforeHours > 0
  {
    assert remindBeforeHours * 60 * 60 * 1000 == remindBeforeHours * Database.HOUR_MS;
  }

  /** `getFrequencyText` */
  function GetFrequencyText(frequency: int): string
  {
    if frequency == 1 then "1 time" else Text.IntToString(frequency) + " times"
  }

  /** The text starts with the frequency written in decimal, which reads back as the
      frequency, and the unit is singular exactly for one. */
  lemma FrequencyTextReadsBack(frequency: int)
    ensures var t := GetFrequencyText(frequency);
      var n := Text.IntToString(frequency);
      && |n| < |t| && t[..|n|] == n && Text.ParseInt(t[..|n|]) == frequency
      && (t[|n|..] == " time" <==> frequency == 1)
      && (t[|n|..] == " times" <==> frequency != 1)
  {
    Text.IntToStringRoundTrip(frequency);
    var n := Text.IntToString(frequency);
    if frequency == 1 {
      assert n == "1";
    } else {
      var t := n + " times";
      assert t[..|n|] == n && t[|n|..] == " times";
    }
  }

  // ---------------------------------------------------------------------------
  // The task list

  /** `activeTasks`: the tasks the form offers are those not submitted, in the
      order received. */
  function ActiveTasks(data: seq<CourseTask>): (r: seq<CourseTask>)
    ensures forall t :: t in r <==> t in data && t.status != Database.SUBMITTED
    ensures |r| <= |data|
  {
    Filter(data, (t: CourseTask) => t.status != Database.SUBMITTED)
  }

  /** `courseTasks.find(task => task.id === id)`: the first task with that id. */
  function FindTask(tasks: seq<CourseTask>, id: string): (r: Option<CourseTask>)
    ensures r.None? <==> forall t :: t in tasks ==> t.id != id
    ensures r.Some? ==> r.value in tasks && r.value.id == id
    ensures r.Some? ==> exists k :: 0 <= k < |tasks| && tasks[k] == r.value && forall j :: 0 <= j < k ==> tasks[j].id != id
  {
    if tasks == [] then None
    else if tasks[0].id == id then Some(tasks[0])
    else FindTask(tasks[1..], id)
  }

  /** A task picked from the offered list is never a submitted one. */
  lemma PickedTaskIsOpen(data: seq<CourseTask>, id: string)
    requires FindTask(ActiveTasks(data), id).Some?
    ensures FindTask(ActiveTasks(data), id).value.status != Database.SUBMITTED
    ensures FindTask(ActiveTasks(data), id).value in data
  {
  }

  // ---------------------------------------------------------------------------
  // Submission

  /** `!x.trim()` on the task or the contact. */
  predicate Blank(form: FormData)
  {
    Text.Trim(form.courseTask) == [] || Text.Trim(form.contactInfo) == []
  }

  /** The contact passes the validator of the chosen channel; any other channel is
      not checked. */
  predicate ContactAccepted(form: FormData)
  {
    && (form.notificationType == Database.EMAIL ==> ValidateEmail(form.contactInfo))
    && (form.notificationType == Database.WHATSAPP ==> ValidatePhone(form.contactInfo))
  }

  lemma TrimmedNonEmpty(s: string)
    requires Text.Trim(s) != []
    ensures s != []
  {
  }

  /** `handleSubmit` up to the request it posts: a blank task or contact, then an
      invalid contact for the chosen channel, then an unknown task, each stops the
      submission with its alert; otherwise the request carries the form's fields and
      the picked task's name and course. A request the form posts passes the API's
      own field and channel checks whenever the numbers are non-zero and the channel
      is one of the two. */
  method HandleSubmit(form: FormData, courseTasks: seq<CourseTask>, studentId: Database.StudentId)
    returns (outcome: Submission)
    ensures Blank(form) ==> outcome == Alert(FILL_IN)
    ensures !Blank(form) && form.notificationType == Database.EMAIL && !ValidateEmail(form.contactInfo)
      ==> outcome == Alert(BAD_EMAIL)
    ensures !Blank(form) && form.notificationType == Database.WHATSAPP && !ValidatePhone(form.contactInfo)
      ==> outcome == Alert(BAD_PHONE)
    ensures !Blank(form) && ContactAccepted(form) && FindTask(courseTasks, form.courseTask).None?
      ==> outcome == Alert(BAD_TASK)
    ensures outcome.Submit? <==> !Blank(form) && ContactAccepted(form) && FindTask(courseTasks, form.courseTask).Some?
    ensures outcome.Submit? ==>
      var task := FindTask(courseTasks, form.courseTask).value;
      outcome.request == RemindersRoute.ReminderRequest(studentId, form.courseTask, task.name, task.courseName,
        form.remindBefore, form.frequency, form.notificationType, form.contactInfo)
    ensures outcome.Submit? && studentId != 0 && form.remindBefore != 0 && form.frequency != 0
      && RemindersRoute.KnownChannel(form.notificationType)
      ==> RemindersRoute.WellFormed(outcome.request)
  {
    if Text.Trim(form.courseTask) == [] || Text.Trim(form.contactInfo) == [] {
      return Alert(FILL_IN);
    }
    if form.notificationType == Database.EMAIL && !ValidateEmail(form.contactInfo) {
      return Alert(BAD_EMAIL);
    }
    if form.notificationType == Database.WHATSAPP && !ValidatePhone(form.contactInfo) {
      return Alert(BAD_PHONE);
    }
    var selected := FindTask(courseTasks, form.courseTask);
    if selected.None? {
      return Alert(BAD_TASK);
    }
    TrimmedNonEmpty(form.courseTask);
    TrimmedNonEmpty(form.contactInfo);
    outcome := Submit(RemindersRoute.ReminderRequest(studentId, form.courseTask, selected.value.name,
      selected.value.courseName, form.remindBefore, form.frequency, form.notificationType, form.contactInfo));
  }

  // ---------------------------------------------------------------------------
  // Grouping by course

  function InCourse(courseName: string): CourseTask -> bool
  {
    (t: CourseTask) => t.courseName == courseName
  }

  function CourseNames(tasks: seq<CourseTask>): set<string>
  {
    set t | t in tasks :: t.courseName
  }

  /** The grouping the picker needs: one group per course name that occurs, holding
      that course's tasks in the order received. */
  function ByCourse(tasks: seq<CourseTask>): map<string, seq<CourseTask>>
  {
    map name | name in CourseNames(tasks) :: Filter(tasks, InCourse(name))
  }

  /** Every task sits in the group of its course and in no other, and every group
      is non-empty. */
  lemma EachTaskInOneGroup(tasks: seq<CourseTask>)
    ensures var groups := ByCourse(tasks);
      && (forall t :: t in tasks ==> t.courseName in groups && t in groups[t.courseName])
      && (forall name, t :: name in groups && t in groups[name] ==> t in tasks && t.courseName == name)
      && (forall name :: name in groups ==> groups[name] != [])
  {
    var groups := ByCourse(tasks);
    forall t | t in tasks
      ensures t.courseName in groups && t in groups[t.courseName]
    {
      assert InCourse(t.courseName)(t);
    }
    forall name | name in groups
      ensures groups[name] != []
    {
      var t :| t in tasks && t.courseName == name;
      assert t in groups[name];
    }
  }

  /** The grouping after `task` is pushed onto its course's group, the group being
      created empty on the course's first task. */
  function Pushed(groups: map<string, seq<CourseTask>>, task: CourseTask): map<string, seq<CourseTask>>
  {
    var name := task.courseName;
    groups[name := (if name in groups then groups[name] else []) + [task]]
  }

  lemma CourseNamesAppend(tasks: seq<CourseTask>, task: CourseTask)
    ensures CourseNames(tasks + [task]) == CourseNames(tasks) + {task.courseName}
  {
    assert forall t :: t in tasks + [task] <==> t in tasks || t == task;
  }

  /** A course none of the tasks belongs to has no tasks. */
  lemma NewCourseHasNoTasks(tasks: seq<CourseTask>, name: string)
    requires name !in CourseNames(tasks)
    ensures Filter(tasks, InCourse(name)) == []
  {
    forall k | 0 <= k < |tasks|
      ensures !InCourse(name)(tasks[k])
    {
      assert tasks[k] in tasks;
    }
    FilterKeepsNone(tasks, InCourse(name));
  }

  /** Appending a task extends its own course's tasks by it and leaves every other
      course's tasks alone. */
  lemma CourseTasksAppend(tasks: seq<CourseTask>, task: CourseTask, name: string)
    ensures Filter(tasks + [task], InCourse(name)) ==
      if name == task.courseName then Filter(tasks, InCourse(name)) + [task] else Filter(tasks, InCourse(name))
  {
    FilterAppend(tasks, [task], InCourse(name));
    if name == task.courseName {
      assert Filter([task], InCourse(name)) == [task];
    } else {
      assert Filter([task], InCourse(name)) == [];
    }
  }

  /** One group of the grouping after a push. */
  lemma GroupEntryStep(tasks: seq<CourseTask>, task: CourseTask, name: string)
    requires name in CourseNames(tasks) + {task.courseName}
    ensures CourseNames(tasks + [task]) == CourseNames(tasks) + {task.courseName}
    ensures ByCourse(tasks + [task])[name] == Pushed(ByCourse(tasks), task)[name]
  {
    CourseNamesAppend(tasks, task);
    CourseTasksAppend(tasks, task, name);
    if name !in CourseNames(tasks) {
      NewCourseHasNoTasks(tasks, name);
    }
  }

  lemma MapsAgree(a: map<string, seq<CourseTask>>, b: map<string, seq<CourseTask>>)
    requires a.Keys == b.Keys && forall k :: k in a ==> a[k] == b[k]
    ensures a == b
  {
  }

  /** Pushing the next task onto the grouping of the tasks before it gives the
      grouping of them all. */
  lemma GroupStep(tasks: seq<CourseTask>, task: CourseTask)
    ensures ByCourse(tasks + [task]) == Pushed(ByCourse(tasks), task)
  {
    var after := ByCourse(tasks + [task]);
    var pushed := Pushed(ByCourse(tasks), task);
    CourseNamesAppend(tasks, task);
    forall name | name in after
      ensures after[name] == pushed[name]
    {
      GroupEntryStep(tasks, task, name);
    }
    MapsAgree(after, pushed);
  }

  /** The `reduce` over the tasks, pushing each onto the grouping of those before
      it. */
  function Reduced(tasks: seq<CourseTask>): map<string, seq<CourseTask>>
  {
    if tasks == [] then map[] else Pushed(Reduced(tasks[..|tasks| - 1]), tasks[|tasks| - 1])
  }

  /** The reduction builds exactly the grouping by course. */
  lemma {:induction false} ReducedIsByCourse(tasks: seq<CourseTask>)
    ensures Reduced(tasks) == ByCourse(tasks)
  {
    if tasks == [] {
      assert CourseNames(tasks) == {};
    } else {
      var last := |tasks| - 1;
      ReducedIsByCourse(tasks[..last]);
      GroupStep(tasks[..last], tasks[last]);
      assert tasks[..last] + [tasks[last]] == tasks;
    }
  }

  lemma ReducedStep(tasks: seq<CourseTask>, i: nat)
    requires i < |tasks|
    ensures Reduced(tasks[..i + 1]) == Pushed(Reduced(tasks[..i]), tasks[i])
  {
    assert tasks[..i + 1][..i] == tasks[..i];
  }

  /** The `reduce` that builds the grouping, with the accumulator updated in place:
      `acc[name]` is created empty on the first task of a course and the task
      appended to it. */
  method GroupTasks(tasks: seq<CourseTask>) returns (groups: map<string, seq<CourseTask>>)
    ensures groups == ByCourse(tasks)
  {
    groups := map[];
    var i := 0;
    while i < |tasks|
      invariant 0 <= i <= |tasks|
      invariant groups == Reduced(tasks[..i])
    {
      var task := tasks[i];
      ReducedStep(tasks, i);
      if task.courseName !in groups {
        groups := groups[task.courseName := []];
      }
      groups := groups[task.courseName := groups[task.courseName] + [task]];
      i := i + 1;
    }
    assert tasks[..i] == tasks;
    ReducedIsByCourse(tasks);
  }

  // ---------------------------------------------------------------------------
  // Grouping as the source writes it

  /** The names a plain JavaScript object inherits from `Object.prototype`. Reading
      one of them from `{}` gives a truthy value that is not an array. */
  const INHERITED: set<string> := {
    "constructor", "hasOwnProperty", "isPrototypeOf", "propertyIsEnumerable",
    "toLocaleString", "toString", "valueOf", "__proto__",
    "__defineGetter__", "__defineSetter__", "__lookupGetter__", "__lookupSetter__" }

  /** `push` called on a value that is not an array. */
  datatype GroupingError = PushOnNonArray(courseName: string)

  /** The `reduce` over a `{}` accumulator as written: for a course named after an
      inherited member, `!acc[name]` is false, no array is created, and the `push`
      that follows throws. The grouping fails exactly when some task's course has
      such a name, and otherwise agrees with `GroupTasks`. */
  method GroupTasksAsWritten(tasks: seq<CourseTask>)
    returns (outcome: Result<map<string, seq<CourseTask>>, GroupingError>)
    ensures outcome.Failure? <==> exists i :: 0 <= i < |tasks| && tasks[i].courseName in INHERITED
    ensures outcome.Failure? ==> exists i :: (0 <= i < |tasks| && outcome.error == PushOnNonArray(tasks[i].courseName)
      && tasks[i].courseName in INHERITED && forall j :: 0 <= j < i ==> tasks[j].courseName !in INHERITED)
    ensures outcome.Success? ==> outcome.value == ByCourse(tasks)
  {
    var groups := map[];
    var i := 0;
    while i < |tasks|
      invariant 0 <= i <= |tasks|
      invariant groups == Reduced(tasks[..i])
      invariant forall j :: 0 <= j < i ==> tasks[j].courseName !in INHERITED
      invariant forall name :: name in groups ==> name !in INHERITED
    {
      var task := tasks[i];
      ReducedStep(tasks, i);
      if task.courseName !in groups {
        if task.courseName in INHERITED {
          return Failure(PushOnNonArray(task.courseName));
        }
        groups := groups[task.courseName := []];
      }
      groups := groups[task.courseName := groups[task.courseName] + [task]];
      i := i + 1;
    }
    assert tasks[..i] == tasks;
    ReducedIsByCourse(tasks);
    return Success(groups);
  }

  /** A single task of a course called `toString` is enough to make the grouping as
      written fail, on that course; `GroupTasks` puts the task in a group of its own. */
  method ToStringCourseBreaksGrouping()
    returns (asWritten: Result<map<string, seq<CourseTask>>, GroupingError>, corrected: map<string, seq<CourseTask>>)
    ensures asWritten == Failure(PushOnNonArray("toString"))
    ensures corrected == map["toString" := [CourseTask("1", "Essay", "toString", 0, "pending")]]
  {
    var task := CourseTask("1", "Essay", "toString", 0, "pending");
    var tasks := [task];
    assert tasks[0].courseName in INHERITED;
    asWritten := GroupTasksAsWritten(tasks);
    corrected := GroupTasks(tasks);
    assert tasks[..|tasks| - 1] == [] && [] + [task] == [task];
    assert Reduced(tasks) == Pushed(map[], task);
    ReducedIsByCourse(tasks);
  }
}
