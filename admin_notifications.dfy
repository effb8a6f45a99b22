/**
 * backend/staticfiles/js/admin_notifications.js: the checks `validateForm`
 * makes before a notification is sent, the colour of the two character
 * counters, the audience line of the preview and the draft kept in
 * `localStorage`.
 */
module Notifications {
  import opened Text
  import opened Wrappers

  // ------------------------------------------------------------ validateForm

  const NoTitle := "Please enter a notification title"
  const NoMessage := "Please enter a notification message"
  const LongTitle := "Title must be 100 characters or less"
  const LongMessage := "Message must be 500 characters or less"
  const NoScheduleTime := "Please select a schedule time"
  const PastScheduleTime := "Schedule time must be in the future"

  const MaxTitle := 100
  const MaxMessage := 500

  /**
   * The inputs of `validateForm`: the raw title and message, the send
   * method, the raw `schedule_time` value, that value read as a `Date` in
   * milliseconds (None for an Invalid Date) and the current time.
   */
  datatype Submission = Submission(title: string, message: string, sendMethod: string,
                                   scheduleTime: string, scheduledAt: Option<int>, now: int)

  /**
   * Every rule the submission breaks, in the order `validateForm` tests them.
   * An Invalid Date is never `<= now`, so it breaks no rule.
   */
  function Failures(s: Submission): (r: seq<string>)
    ensures |r| <= 3
    ensures s.sendMethod != "scheduled" ==> NoScheduleTime !in r && PastScheduleTime !in r
  {
    ScheduleMessagesApart();
    TextFailures(Strip(s.title), Strip(s.message)) + ScheduleFailures(s)
  }

  const TextMessages: set<string> := {NoTitle, NoMessage, LongTitle, LongMessage}

  /** The rules on the stripped title and message, in `validateForm`'s order. */
  function TextFailures(title: string, message: string): (r: seq<string>)
    ensures |r| <= 2
    ensures forall x :: x in r ==> x in TextMessages
  {
    (if title == [] then [NoTitle] else []) +
    (if message == [] then [NoMessage] else []) +
    (if |title| > MaxTitle then [LongTitle] else []) +
    (if |message| > MaxMessage then [LongMessage] else [])
  }

  /** The rules on the schedule time, which only a scheduled notification has. */
  function ScheduleFailures(s: Submission): (r: seq<string>)
    ensures |r| <= 1
    ensures s.sendMethod != "scheduled" ==> r == []
  {
    var scheduled := s.sendMethod == "scheduled";
    (if scheduled && s.scheduleTime == [] then [NoScheduleTime] else []) +
    (if scheduled && s.scheduleTime != [] && s.scheduledAt.Some? && s.scheduledAt.value <= s.now
     then [PastScheduleTime] else [])
  }

  /** The two schedule messages are none of the title and message ones. */
  lemma ScheduleMessagesApart()
    ensures NoScheduleTime !in TextMessages && PastScheduleTime !in TextMessages
  {
    assert NoScheduleTime[0] == 'P' && NoScheduleTime[7] == 's';
    assert PastScheduleTime[0] == 'S';
    assert NoTitle[0] == 'P' && NoTitle[7] == 'e';
    assert NoMessage[0] == 'P' && NoMessage[7] == 'e';
  }

  /**
   * `validateForm`: None when the form may be sent, else the message of the
   * first failing check, which `showValidationError` displays.
   */
  function ValidateForm(s: Submission): (r: Option<string>)
    ensures r.None? <==>
      Strip(s.title) != [] && Strip(s.message) != [] &&
      |Strip(s.title)| <= MaxTitle && |Strip(s.message)| <= MaxMessage &&
      (s.sendMethod == "scheduled" ==>
        s.scheduleTime != [] && !(s.scheduledAt.Some? && s.scheduledAt.value <= s.now))
    ensures s.sendMethod != "scheduled" ==> r.None? || r.value in {NoTitle, NoMessage, LongTitle, LongMessage}
  {
    var title := Strip(s.title);
    var message := Strip(s.message);
    if title == [] then Some(NoTitle)
    else if message == [] then Some(NoMessage)
    else if |title| > MaxTitle then Some(LongTitle)
    else if |message| > MaxMessage then Some(LongMessage)
    else if s.sendMethod == "scheduled" && s.scheduleTime == [] then Some(NoScheduleTime)
    else if s.sendMethod == "scheduled" && s.scheduledAt.Some? && s.scheduledAt.value <= s.now then Some(PastScheduleTime)
    else None
  }

  /** The message shown is always the first rule broken, and none is shown iff no rule is broken. */
  lemma ValidateFormFirstFailure(s: Submission)
    ensures ValidateForm(s) == (if Failures(s) == [] then None else Some(Failures(s)[0]))
  {
  }

  // ------------------------------------------------------------ character counters

  const Red := "#dc3545"
  const Yellow := "#ffc107"
  const Green := "#28a745"

  /** A counter's colour: red above `red` characters, yellow above `yellow`, green otherwise. */
  function CounterColour(length: nat, red: nat, yellow: nat): (c: string)
    ensures c == Red <==> length > red
    ensures c == Green <==> length <= red && length <= yellow
    ensures c == Yellow <==> yellow < length <= red
  {
    if length > red then Red else if length > yellow then Yellow else Green
  }

  /** The title counter: 80 and 60. */
  function TitleCounterColour(length: nat): string { CounterColour(length, 80, 60) }

  /** The message counter: 400 and 300. */
  function MessageCounterColour(length: nat): string { CounterColour(length, 400, 300) }

  function Severity(c: string): nat {
    if c == Red then 2 else if c == Yellow then 1 else 0
  }

  /** Typing more never makes a counter less alarming. */
  lemma CounterColourMonotone(a: nat, b: nat, red: nat, yellow: nat)
    requires yellow <= red && a <= b
    ensures Severity(CounterColour(a, red, yellow)) <= Severity(CounterColour(b, red, yellow))
  {
  }

  /** A title can be red and still be accepted: red starts at 81, the limit is 100. */
  lemma RedTitleStillAccepted()
    ensures TitleCounterColour(90) == Red && 90 <= MaxTitle
  {
  }

  // ------------------------------------------------------------ getSelectedAudienceText

  /** The preview's audience line for the checked `notification_type` radio, if any. */
  function AudienceText(selected: Option<string>): (r: string)
    ensures selected == Some("all") ==> r == "All Users"
    ensures selected == Some("students") ==> r == "Students Only"
    ensures selected == Some("agents") ==> r == "Agents Only"
    ensures selected == Some("custom") ==> r == "Custom Selection"
    ensures selected.None? || selected.value !in {"all", "students", "agents", "custom"} ==> r == "All Users"
  {
    if selected.None? then "All Users"
    else if selected.value == "students" then "Students Only"
    else if selected.value == "agents" then "Agents Only"
    else if selected.value == "custom" then "Custom Selection"
    else "All Users"
  }

  // ------------------------------------------------------------ saveDraft / loadDraft

  /** The fields the drafts touch; `notificationType` is the value of the checked radio. */
  datatype FormState = FormState(title: string, message: string, priority: string,
                                 notificationType: Option<string>, sendMethod: string,
                                 scheduleTime: string)

  /** The object stored under 'notification_draft'. */
  datatype Draft = Draft(title: string, message: string, priority: string, notificationType: string,
                         sendMethod: string, scheduleTime: string, savedAt: string)

  /**
   * The outcome of `saveDraft`: refused with a message, stopped by the
   * TypeError of reading `.value` when no radio is checked, or the draft written.
   */
  datatype SaveOutcome = Refused(message: string) | NoTypeChecked | Saved(draft: Draft)

  const EmptyDraftMessage := "Please enter some content before saving as draft"

  /** `saveDraft`, given the time stamp `new Date().toISOString()`. */
  function SaveDraft(f: FormState, savedAt: string): (r: SaveOutcome)
    ensures r.Refused? <==> Strip(f.title) == [] && Strip(f.message) == []
    ensures r.Refused? ==> r.message == EmptyDraftMessage
    ensures r.NoTypeChecked? <==> (Strip(f.title) != [] || Strip(f.message) != []) && f.notificationType.None?
    ensures r.Saved? ==> r.draft.title == Strip(f.title) && r.draft.message == Strip(f.message) &&
                         Some(r.draft.notificationType) == f.notificationType && r.draft.savedAt == savedAt
  {
    var title := Strip(f.title);
    var message := Strip(f.message);
    if title == [] && message == [] then Refused(EmptyDraftMessage)
    else if f.notificationType.None? then NoTypeChecked
    else Saved(Draft(title, message, f.priority, f.notificationType.value, f.sendMethod, f.scheduleTime, savedAt))
  }

  /** `value || fallback`: the empty string counts as missing. */
  function OrElse(value: string, fallback: string): string {
    if value == [] then fallback else value
  }

  /**
   * `loadDraft` with a stored draft, on a form whose radios carry the values
   * `radios`: each field takes the draft's value or its fallback, and the
   * radio named by the draft is checked when one carries that value.
   */
  function LoadDraft(f: FormState, d: Draft, radios: seq<string>): (r: FormState)
    ensures r.title == d.title && r.message == d.message && r.scheduleTime == d.scheduleTime
    ensures r.priority != [] && r.sendMethod != []
    ensures d.notificationType != [] && d.notificationType in radios ==> r.notificationType == Some(d.notificationType)
    ensures d.notificationType == [] || d.notificationType !in radios ==> r.notificationType == f.notificationType
  {
    var notificationType :=
      if d.notificationType != [] && d.notificationType in radios then Some(d.notificationType) else f.notificationType;
    FormState(d.title, d.message, OrElse(d.priority, "normal"), notificationType,
              OrElse(d.sendMethod, "immediate"), d.scheduleTime)
  }

  /**
   * Saving then loading brings back the trimmed title and message, the
   * priority, checked type, send method and schedule time, into any form
   * with the same radios; an empty priority or send method comes back as
   * its default.
   */
  lemma DraftRoundTrip(f: FormState, savedAt: string, g: FormState, radios: seq<string>)
    requires f.notificationType.Some? ==> f.notificationType.value in radios && f.notificationType.value != []
    requires SaveDraft(f, savedAt).Saved?
    ensures LoadDraft(g, SaveDraft(f, savedAt).draft, radios) ==
      FormState(Strip(f.title), Strip(f.message), OrElse(f.priority, "normal"), f.notificationType,
                OrElse(f.sendMethod, "immediate"), f.scheduleTime)
  {
  }

  /** The notification form, the radio values it offers and the draft in `localStorage`. */
  class NotificationPage {
    var form: FormState
    const radios: seq<string>
    var stored: Option<Draft>

    constructor(form: FormState, radios: seq<string>, stored: Option<Draft>)
      ensures this.form == form && this.radios == radios && this.stored == stored
    {
      this.form := form;
      this.radios := radios;
      this.stored := stored;
    }

    /** The save button: the form is left as it is, the store written only on success. */
    method SaveDraftClicked(savedAt: string) returns (outcome: SaveOutcome)
      modifies this
      ensures outcome == SaveDraft(form, savedAt) && form == old(form)
      ensures stored == (if outcome.Saved? then Some(outcome.draft) else old(stored))
    {
      outcome := SaveDraft(form, savedAt);
      if outcome.Saved? {
        stored := Some(outcome.draft);
      }
    }

    /**
     * Page load: with a stored draft the user is asked whether to load it,
     * and only an accepted prompt writes it back into the form.
     */
    method LoadDraftOnLoad(confirmed: bool)
      modifies this
      ensures stored == old(stored)
      ensures !confirmed ==> form == old(form)
      ensures form == (if stored.Some? && confirmed then LoadDraft(old(form), stored.value, radios) else old(form))
    {
      if stored.Some? && confirmed {
        form := LoadDraft(form, stored.value, radios);
      }
    }
  }
}
