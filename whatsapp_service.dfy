/** The WhatsApp notification channel (codingan/app/services/whatsappService.ts):
    credential checks made once at construction, the request a send issues, and the
    reminder message text. The Twilio client itself is outside the model; what it
    answers to a send is the `accepted` parameter. */
module WhatsApp {

  import opened Collections
  import Text

  const DEFAULT_FROM := "whatsapp:+14155238886"
  const SID_PREFIX := "AC"
  const SID_LENGTH := 34
  const TOKEN_LENGTH := 32

  /** The environment variables the service reads; `None` is an unset variable. */
  datatype TwilioEnv = TwilioEnv(accountSid: Option<string>, authToken: Option<string>, whatsappNumber: Option<string>)

  datatype Credentials = Credentials(accountSid: string, authToken: string)

  datatype ConfigError = MissingCredentials | InvalidAccountSid | InvalidAuthToken

  /** What JavaScript's `!v` says of an optional string. */
  predicate Falsy(v: Option<string>)
  {
    v.None? || v.value == ""
  }

  predicate StartsWith(s: string, prefix: string)
  {
    |prefix| <= |s| && s[..|prefix|] == prefix
  }

  /** The checks of the constructor, in its order: both credentials present, then the
      account SID's shape, then the auth token's length. */
  function CheckCredentials(env: TwilioEnv): (r: Result<Credentials, ConfigError>)
    ensures r.Success? <==>
      && !Falsy(env.accountSid) && !Falsy(env.authToken)
      && StartsWith(env.accountSid.value, SID_PREFIX) && |env.accountSid.value| == SID_LENGTH
      && |env.authToken.value| == TOKEN_LENGTH
    ensures r.Success? ==> r.value == Credentials(env.accountSid.value, env.authToken.value)
    ensures r == Failure(MissingCredentials) <==> Falsy(env.accountSid) || Falsy(env.authToken)
    ensures r == Failure(InvalidAccountSid) <==>
      && !Falsy(env.accountSid) && !Falsy(env.authToken)
      && !(StartsWith(env.accountSid.value, SID_PREFIX) && |env.accountSid.value| == SID_LENGTH)
  {
    if Falsy(env.accountSid) || Falsy(env.authToken) then Failure(MissingCredentials)
    else if !StartsWith(env.accountSid.value, SID_PREFIX) || |env.accountSid.value| != SID_LENGTH then Failure(InvalidAccountSid)
    else if |env.authToken.value| != TOKEN_LENGTH then Failure(InvalidAuthToken)
    else Success(Credentials(env.accountSid.value, env.authToken.value))
  }

  /** `process.env.TWILIO_WHATSAPP_NUMBER || 'whatsapp:+14155238886'` */
  function FromNumber(env: TwilioEnv): (from: string)
    ensures from != ""
    ensures Falsy(env.whatsappNumber) ==> from == DEFAULT_FROM
    ensures !Falsy(env.whatsappNumber) ==> from == env.whatsappNumber.value
  {
    if Falsy(env.whatsappNumber) then DEFAULT_FROM else env.whatsappNumber.value
  }

  /** The message creation request handed to Twilio. */
  datatype MessageRequest = MessageRequest(body: string, from: string, to: string)

  const WHATSAPP_PREFIX := "whatsapp:"

  class WhatsAppService {
    const credentials: Credentials
    const fromNumber: string

    constructor (credentials: Credentials, fromNumber: string)
      ensures this.credentials == credentials && this.fromNumber == fromNumber
    {
      this.credentials := credentials;
      this.fromNumber := fromNumber;
    }

    /** `sendWhatsAppMessage`: addresses `whatsapp:<to>` from the configured sender and
        reports whether Twilio accepted the message; a Twilio error is reported as
        `false`, never thrown. */
    method SendWhatsAppMessage(to: string, message: string, accepted: bool) returns (ok: bool, request: MessageRequest)
      ensures ok == accepted
      ensures request.body == message && request.from == fromNumber
      ensures StartsWith(request.to, WHATSAPP_PREFIX) && request.to[|WHATSAPP_PREFIX|..] == to
    {
      request := MessageRequest(message, fromNumber, WHATSAPP_PREFIX + to);
      assert request.to[..|WHATSAPP_PREFIX|] == WHATSAPP_PREFIX;
      ok := accepted;
    }
  }

  /** `new WhatsAppService()`: the service, or the error the constructor throws. */
  method Create(env: TwilioEnv) returns (r: Result<WhatsAppService, ConfigError>)
    ensures r.Success? <==> CheckCredentials(env).Success?
    ensures r.Success? ==>
      fresh(r.value) && r.value.credentials == CheckCredentials(env).value && r.value.fromNumber == FromNumber(env)
    ensures r.Failure? ==> r.error == CheckCredentials(env).error
  {
    var from := FromNumber(env);
    var checked := CheckCredentials(env);
    if checked.Failure? {
      return Failure(checked.error);
    }
    var service := new WhatsAppService(checked.value, from);
    return Success(service);
  }

  /** The text of `createReminderMessage` once trimmed (the template's pieces are
      grouped from the right). */
  function MessageBody(studentName: string, taskName: string, courseName: string, dueDate: string, hoursRemaining: int): string
  {
    "\U{1F514} *Task Reminder*\n\nHi " + (studentName
    + ("!\n\nYou have an upcoming task:\n\n\U{1F4DD} *" + (taskName
    + ("*\n\U{1F4DA} Course: " + (courseName
    + ("\n\U{23F0} Due: " + (dueDate
    + ("\n\U{1F6A8} " + (DueInHours(hoursRemaining)
    + "\n\nDon't forget to complete your task on time. Good luck!\n\nBest regards,\nYour LMS Team")))))))))
  }

  function DueInHours(hoursRemaining: int): string
  {
    "Due in " + Text.IntToString(hoursRemaining) + " hours"
  }

  /** `createReminderMessage`: the reminder text, as `TemplateTrimmed` shows it to be
      the trimmed template literal. */
  function CreateReminderMessage(studentName: string, taskName: string, courseName: string, dueDate: string, hoursRemaining: int): string
  {
    MessageBody(studentName, taskName, courseName, dueDate, hoursRemaining)
  }

  /** The template literal opens with a line break and closes with a line break and
      indentation; `trim` removes exactly those and nothing of the text itself. */
  lemma TemplateTrimmed(studentName: string, taskName: string, courseName: string, dueDate: string, hoursRemaining: int)
    ensures var body := MessageBody(studentName, taskName, courseName, dueDate, hoursRemaining);
      Text.Trim("\n" + body + "\n    ") == CreateReminderMessage(studentName, taskName, courseName, dueDate, hoursRemaining)
  {
    var body := MessageBody(studentName, taskName, courseName, dueDate, hoursRemaining);
    Text.TrimPadded("\n", body, "\n    ");
  }

  /** The reminder text names the student, the task, the course and the due date, and
      says how many hours remain. */
  lemma MessageMentions(studentName: string, taskName: string, courseName: string, dueDate: string, hoursRemaining: int)
    ensures var m := CreateReminderMessage(studentName, taskName, courseName, dueDate, hoursRemaining);
      && Text.Includes(m, studentName) && Text.Includes(m, taskName) && Text.Includes(m, courseName)
      && Text.Includes(m, dueDate) && Text.Includes(m, DueInHours(hoursRemaining))
  {
    var p1 := "\U{1F514} *Task Reminder*\n\nHi ";
    var p2 := "!\n\nYou have an upcoming task:\n\n\U{1F4DD} *";
    var p3 := "*\n\U{1F4DA} Course: ";
    var p4 := "\n\U{23F0} Due: ";
    var p5 := "\n\U{1F6A8} ";
    var p6 := "\n\nDon't forget to complete your task on time. Good luck!\n\nBest regards,\nYour LMS Team";
    var due := DueInHours(hoursRemaining);
    var s6 := due + p6;
    var s5 := dueDate + (p5 + s6);
    var s4 := courseName + (p4 + s5);
    var s3 := taskName + (p3 + s4);
    var s2 := studentName + (p2 + s3);
    assert CreateReminderMessage(studentName, taskName, courseName, dueDate, hoursRemaining) == p1 + s2;
    Text.IncludesHead(due, p6);
    Text.IncludesAfter(p5, s6, due);
    Text.IncludesAfter(dueDate, p5 + s6, due);
    Text.IncludesHead(dueDate, p5 + s6);
    Text.IncludesAfter(p4, s5, due);
    Text.IncludesAfter(p4, s5, dueDate);
    Text.IncludesAfter(courseName, p4 + s5, due);
    Text.IncludesAfter(courseName, p4 + s5, dueDate);
    Text.IncludesHead(courseName, p4 + s5);
    Text.IncludesAfter(p3, s4, due);
    Text.IncludesAfter(p3, s4, dueDate);
    Text.IncludesAfter(p3, s4, courseName);
    Text.IncludesAfter(taskName, p3 + s4, due);
    Text.IncludesAfter(taskName, p3 + s4, dueDate);
    Text.IncludesAfter(taskName, p3 + s4, courseName);
    Text.IncludesHead(taskName, p3 + s4);
    Text.IncludesAfter(p2, s3, due);
    Text.IncludesAfter(p2, s3, dueDate);
    Text.IncludesAfter(p2, s3, courseName);
    Text.IncludesAfter(p2, s3, taskName);
    Text.IncludesAfter(studentName, p2 + s3, due);
    Text.IncludesAfter(studentName, p2 + s3, dueDate);
    Text.IncludesAfter(studentName, p2 + s3, courseName);
    Text.IncludesAfter(studentName, p2 + s3, taskName);
    Text.IncludesHead(studentName, p2 + s3);
    Text.IncludesAfter(p1, s2, due);
    Text.IncludesAfter(p1, s2, dueDate);
    Text.IncludesAfter(p1, s2, courseName);
    Text.IncludesAfter(p1, s2, taskName);
    Text.IncludesAfter(p1, s2, studentName);
  }
}
