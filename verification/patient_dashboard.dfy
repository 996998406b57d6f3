/** The patient dashboard's local state: the daily-log form and its list of saved logs, the
    expand/collapse toggle of that list, and the chat with the doctor. */
module PatientDashboard {
  import opened Common
  import opened JsText

  /** The pain level: the number 5 at first, then the string the range slider reports. */
  datatype PainLevel = PainNumber(n: int) | PainText(s: string)

  /** JavaScript truthiness of the pain level: `0` and `""` are falsy. */
  predicate PainTruthy(p: PainLevel)
  {
    match p
    case PainNumber(n) => n != 0
    case PainText(s) => s != ""
  }

  /** The photo: `null`, or the object URL of the uploaded file (an opaque string). */
  type Photo = Option<string>

  predicate PhotoTruthy(p: Photo)
  {
    p.Some? && p.value != ""
  }

  /** The form fields of the daily log. */
  datatype Form = Form(
    painLevel: PainLevel,
    medication: string,
    time: string,
    photo: Photo,
    steps: string,
    notes: string)

  /** A saved log: the day it was saved (an opaque, locale-formatted string) and the form's fields. */
  datatype Log = Log(
    date: string,
    painLevel: PainLevel,
    medication: string,
    time: string,
    photo: Photo,
    steps: string,
    notes: string)

  /** The daily-log page: the form, the saved logs (newest first) and the expanded log's index. */
  datatype LogPage = LogPage(form: Form, logs: seq<Log>, expanded: Option<nat>)

  /** The values the form starts with and returns to. */
  function DefaultForm(): Form
  {
    Form(PainNumber(5), "", "", None, "", "")
  }

  /** The page as it is first shown. */
  function InitialLogPage(): LogPage
  {
    LogPage(DefaultForm(), [], None)
  }

  /** The four required fields are all truthy. */
  predicate FormComplete(f: Form)
  {
    PainTruthy(f.painLevel) && f.medication != "" && f.time != "" && PhotoTruthy(f.photo)
  }

  /** The form fields a log was saved from. */
  function FieldsOf(l: Log): Form
  {
    Form(l.painLevel, l.medication, l.time, l.photo, l.steps, l.notes)
  }

  /** A stored log passes the same required-field test as the form it came from. */
  predicate LogComplete(l: Log)
  {
    FormComplete(FieldsOf(l))
  }

  /** The alert `handleSave` shows when a required field is missing. */
  const RequiredFieldsAlert := "Please fill all required fields."

  /** The page after a click on "Save Log", and the alert shown instead, if any. */
  datatype SaveStep = SaveStep(page: LogPage, alert: Option<string>)

  /** `handleSave`; `today` is the formatted date the new log records. */
  function Save(page: LogPage, today: string): (r: SaveStep)
    ensures !FormComplete(page.form) <==> r.alert.Some?
    ensures !FormComplete(page.form) ==> r.page == page && r.alert == Some("Please fill all required fields.")
    ensures FormComplete(page.form) ==>
              && |r.page.logs| == |page.logs| + 1
              && r.page.logs[1..] == page.logs
              && var l := r.page.logs[0];
                 && l.date == today && l.painLevel == page.form.painLevel
                 && l.medication == page.form.medication && l.time == page.form.time
                 && l.photo == page.form.photo && l.steps == page.form.steps && l.notes == page.form.notes
    ensures FormComplete(page.form) ==>
              && r.page.form.painLevel == PainNumber(5) && r.page.form.photo == None
              && r.page.form.medication == "" && r.page.form.time == ""
              && r.page.form.steps == "" && r.page.form.notes == ""
              && r.page.expanded == page.expanded
  {
    var f := page.form;
    if !FormComplete(f) then
      SaveStep(page, Some(RequiredFieldsAlert))
    else
      var newLog := Log(today, f.painLevel, f.medication, f.time, f.photo, f.steps, f.notes);
      SaveStep(page.(form := DefaultForm(), logs := [newLog] + page.logs), None)
  }

  /** `handleReset`. */
  function Reset(page: LogPage): (r: LogPage)
    ensures r.form.painLevel == PainNumber(5) && r.form.photo == None
    ensures r.form.medication == "" && r.form.time == "" && r.form.steps == "" && r.form.notes == ""
    ensures r.logs == page.logs && r.expanded == page.expanded
  {
    page.(form := DefaultForm())
  }

  /** Resetting twice is resetting once, and a successful save leaves the same form a reset does. */
  lemma ResetIdempotent(page: LogPage, today: string)
    ensures Reset(Reset(page)) == Reset(page)
    ensures FormComplete(page.form) ==> Save(page, today).page.form == Reset(page).form
  {
  }

  /** `setExpanded(expanded === idx ? null : idx)` for a click on the log at `idx`. */
  function Toggle(expanded: Option<nat>, idx: nat): (r: Option<nat>)
    ensures r.None? <==> expanded == Some(idx)
    ensures r.Some? ==> r.value == idx
  {
    if expanded == Some(idx) then None else Some(idx)
  }

  /** Two clicks on the same log restore the prior state exactly when nothing, or that log, was
      expanded; when another log was expanded, the first click moves the expansion and the second
      collapses everything. */
  lemma ToggleTwice(expanded: Option<nat>, idx: nat)
    ensures Toggle(Toggle(expanded, idx), idx) == expanded <==> (expanded.None? || expanded == Some(idx))
    ensures expanded.Some? && expanded != Some(idx) ==> Toggle(Toggle(expanded, idx), idx) == None
  {
  }

  /** Saving does not move `expanded`, so the open panel now shows the log just above the one
      that was open (or the new log, if the first was open). */
  lemma SaveShiftsExpandedLog(page: LogPage, today: string, i: nat)
    requires FormComplete(page.form) && page.expanded == Some(i) && i < |page.logs|
    ensures Save(page, today).page.expanded == Some(i)
    ensures Save(page, today).page.logs[i + 1] == page.logs[i]
    ensures i > 0 ==> Save(page, today).page.logs[i] == page.logs[i - 1]
    ensures i == 0 ==> Save(page, today).page.logs[i].date == today
  {
  }

  /** The user actions on the daily-log page. */
  datatype LogAction =
    | EditForm(form: Form)           // any change to the form's fields
    | ClickSave(today: string)
    | ClickReset
    | ClickLog(idx: nat)

  function Apply(page: LogPage, a: LogAction): LogPage
  {
    match a
    case EditForm(f) => page.(form := f)
    case ClickSave(today) => Save(page, today).page
    case ClickReset => Reset(page)
    case ClickLog(idx) => page.(expanded := Toggle(page.expanded, idx))
  }

  function Run(page: LogPage, actions: seq<LogAction>): LogPage
    decreases |actions|
  {
    if |actions| == 0 then page else Run(Apply(page, actions[0]), actions[1..])
  }

  predicate AllLogsComplete(page: LogPage)
  {
    forall i :: 0 <= i < |page.logs| ==> LogComplete(page.logs[i])
  }

  /** One action stores only complete logs and keeps the earlier logs at the end of the list. */
  lemma ApplyKeepsLogsComplete(page: LogPage, a: LogAction)
    requires AllLogsComplete(page)
    ensures AllLogsComplete(Apply(page, a))
    ensures |page.logs| <= |Apply(page, a).logs|
    ensures Apply(page, a).logs[|Apply(page, a).logs| - |page.logs|..] == page.logs
  {
    if a.ClickSave? && FormComplete(page.form) {
      var next := Save(page, a.today).page;
      assert next.logs == [next.logs[0]] + page.logs;
    }
  }

  /** Whatever the user does, only logs whose required fields were filled are ever stored, and
      the stored logs only grow: earlier logs remain, in order, at the end of the list. */
  lemma {:induction false} RunKeepsLogsComplete(page: LogPage, actions: seq<LogAction>)
    requires AllLogsComplete(page)
    ensures AllLogsComplete(Run(page, actions))
    ensures |page.logs| <= |Run(page, actions).logs|
    ensures Run(page, actions).logs[|Run(page, actions).logs| - |page.logs|..] == page.logs
    decreases |actions|
  {
    if |actions| > 0 {
      var next := Apply(page, actions[0]);
      ApplyKeepsLogsComplete(page, actions[0]);
      RunKeepsLogsComplete(next, actions[1..]);
      var fin := Run(page, actions);
      assert fin == Run(next, actions[1..]);
      assert fin.logs[|fin.logs| - |page.logs|..] == fin.logs[|fin.logs| - |next.logs|..][|next.logs| - |page.logs|..];
    }
  }

  /** From the page as first shown, no sequence of user actions ever stores an incomplete log. */
  lemma InitialRunStoresOnlyComplete(actions: seq<LogAction>)
    ensures AllLogsComplete(Run(InitialLogPage(), actions))
  {
    RunKeepsLogsComplete(InitialLogPage(), actions);
  }

  /** The chat with the doctor: the messages and the text box. */
  datatype ChatState = ChatState(messages: seq<ChatMessage>, input: string)

  /** `ChatWithDoctorPage.handleSend`; `now` is the formatted time of the new message. */
  function SendChat(st: ChatState, now: string): (r: ChatState)
    ensures IsBlank(st.input) ==> r == st
    ensures !IsBlank(st.input) ==>
              && r.messages == st.messages + [ChatMessage("patient", st.input, now)]
              && r.input == ""
  {
    TrimEmptyIffBlank(st.input);
    if Trim(st.input) == "" then st
    else ChatState(st.messages + [ChatMessage("patient", st.input, now)], "")
  }

  /** A send never rewrites history: the old messages are a prefix of the new ones, and at most
      one message is added. */
  lemma SendChatAppendsOnly(st: ChatState, now: string)
    ensures st.messages <= SendChat(st, now).messages
    ensures |SendChat(st, now).messages| <= |st.messages| + 1
  {
  }
}
