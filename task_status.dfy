/** The status badge of the LMS task list: a task is shown as submitted, overdue or
    pending, and its text, colour and icon are three separate functions that branch
    the same way. Due dates are instants in milliseconds; `now` is the page's clock. */
module TaskStatus {

  import opened Collections

  const SUBMITTED := "submitted"

  /** A task row of the list; the status column may be absent. */
  datatype Task = Task(id: string, name: string, courseName: string, due: int, status: Option<string>)

  datatype Icon = CheckCircle | AlertCircle | Clock

  /** The three states a badge can show. */
  datatype Shown = Submitted | Overdue | Pending

  function IsSubmitted(t: Task): bool
  {
    t.status == Some(SUBMITTED)
  }

  /** `isOverdue`: due strictly before now and not submitted; an absent status is
      not submitted. */
  function IsOverdue(due: int, status: Option<string>, now: int): bool
  {
    due < now && status != Some(SUBMITTED)
  }

  function StatusText(t: Task, now: int): string
  {
    if IsSubmitted(t) then "Submitted"
    else if IsOverdue(t.due, t.status, now) then "Overdue"
    else "Pending"
  }

  function StatusColor(t: Task, now: int): string
  {
    if IsSubmitted(t) then "text-green-600 bg-green-50 border-green-200"
    else if IsOverdue(t.due, t.status, now) then "text-red-600 bg-red-50 border-red-200"
    else "text-yellow-600 bg-yellow-50 border-yellow-200"
  }

  function StatusIcon(t: Task, now: int): Icon
  {
    if IsSubmitted(t) then CheckCircle
    else if IsOverdue(t.due, t.status, now) then AlertCircle
    else Clock
  }

  /** The state of a task, defined directly from its status and due date. */
  function StateOf(t: Task, now: int): Shown
  {
    if t.status == Some(SUBMITTED) then Submitted
    else if t.due < now then Overdue
    else Pending
  }

  function TextOf(s: Shown): string
  {
    match s
    case Submitted => "Submitted"
    case Overdue => "Overdue"
    case Pending => "Pending"
  }

  function ColorOf(s: Shown): string
  {
    match s
    case Submitted => "text-green-600 bg-green-50 border-green-200"
    case Overdue => "text-red-600 bg-red-50 border-red-200"
    case Pending => "text-yellow-600 bg-yellow-50 border-yellow-200"
  }

  function IconOf(s: Shown): Icon
  {
    match s
    case Submitted => CheckCircle
    case Overdue => AlertCircle
    case Pending => Clock
  }

  /** Text, colour and icon always show the same one of the three states. */
  lemma BadgeAgrees(t: Task, now: int)
    ensures var s := StateOf(t, now);
      StatusText(t, now) == TextOf(s) && StatusColor(t, now) == ColorOf(s) && StatusIcon(t, now) == IconOf(s)
  {
  }

  /** The three texts tell the states apart, so the text alone determines the colour
      and the icon. */
  lemma TextDeterminesBadge(t: Task, u: Task, now: int)
    requires StatusText(t, now) == StatusText(u, now)
    ensures StatusColor(t, now) == StatusColor(u, now) && StatusIcon(t, now) == StatusIcon(u, now)
  {
    BadgeAgrees(t, now);
    BadgeAgrees(u, now);
  }

  /** A submitted task shows as submitted whatever its due date; any other task shows
      as overdue exactly when its due date has passed, so a task due right now is
      pending. */
  lemma StatusCases(t: Task, now: int)
    ensures IsSubmitted(t) ==> StatusText(t, now) == "Submitted"
    ensures !IsSubmitted(t) ==> (StatusText(t, now) == "Overdue" <==> t.due < now)
    ensures !IsSubmitted(t) && t.due == now ==> StatusText(t, now) == "Pending"
  {
  }
}
