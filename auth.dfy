/**
 * backend/staticfiles/js/auth.js: the login and register pages' field
 * checks, the debounced username and email availability checks, the
 * password visibility toggle and the Enter-key focus advance.
 */
module Auth {
  import opened Text
  import opened Wrappers
  import opened Patterns
  import FormsScript
  import FieldChecks

  // ------------------------------------------------------------ validateField

  const EmailMessage := "Please enter a valid email address"
  const PasswordMessage := "Password must be at least 6 characters long"
  const UsernameMessage := "Username must be at least 3 characters long"

  const MinPassword := 6
  const MinUsername := 3

  /** `${name.charAt(0).toUpperCase() + name.slice(1)} is required`. */
  function RequiredMessage(name: string): string {
    FormsScript.Capitalised(name) + " is required"
  }

  /**
   * `validateField`: None when the field passes, else the one message of
   * the first rule it breaks.
   */
  function FieldError(name: string, raw: string, required: bool): (r: Option<string>)
    ensures r.Some? ==> r.value in {RequiredMessage(name), EmailMessage, PasswordMessage, UsernameMessage}
    ensures !required && Strip(raw) == [] ==> r.None?
  {
    var value := Strip(raw);
    if required && value == [] then Some(RequiredMessage(name))
    else if name == "email" && value != [] && !IsValidEmail(value) then Some(EmailMessage)
    else if name == "password" && value != [] && |value| < MinPassword then Some(PasswordMessage)
    else if name == "username" && value != [] && |value| < MinUsername then Some(UsernameMessage)
    else None
  }

  /**
   * A field passes iff it breaks none of the rules: required and empty, a
   * malformed email, a password under six characters, a username under
   * three; an empty required field is always reported as missing, and any
   * other failure carries the message of its field's own rule.
   */
  lemma FieldErrorRules(name: string, raw: string, required: bool)
    ensures FieldError(name, raw, required).None? <==>
      (required ==> Strip(raw) != []) &&
      (name == "email" && Strip(raw) != [] ==> IsValidEmail(Strip(raw))) &&
      (name == "password" && Strip(raw) != [] ==> |Strip(raw)| >= MinPassword) &&
      (name == "username" && Strip(raw) != [] ==> |Strip(raw)| >= MinUsername)
    ensures required && Strip(raw) == [] ==> FieldError(name, raw, required) == Some(RequiredMessage(name))
    ensures !(required && Strip(raw) == []) && FieldError(name, raw, required).Some? ==>
      (name == "email" && FieldError(name, raw, required).value == EmailMessage) ||
      (name == "password" && FieldError(name, raw, required).value == PasswordMessage) ||
      (name == "username" && FieldError(name, raw, required).value == UsernameMessage)
  {
  }

  /**
   * The `.error-message` elements under a field's parent after
   * `validateField`: the first existing one is removed, then the new
   * message, if any, appended.
   */
  function AfterValidate(errors: seq<string>, verdict: Option<string>): (r: seq<string>)
    ensures |errors| <= 1 ==> r == (if verdict.Some? then [verdict.value] else [])
  {
    (if errors == [] then [] else errors[1..]) + (if verdict.Some? then [verdict.value] else [])
  }

  /** One `.form-input` and the error messages and `error` class of its group. */
  class AuthField {
    const name: string
    const required: bool
    var value: string
    var errors: seq<string>
    var errorClass: bool

    /** A field never shows more than one message, and is marked exactly when it shows one. */
    predicate Valid()
      reads this
    {
      |errors| <= 1 && (errorClass <==> errors != [])
    }

    constructor(name: string, required: bool, value: string)
      ensures Valid() && this.name == name && this.required == required && this.value == value
      ensures errors == []
    {
      this.name := name;
      this.required := required;
      this.value := value;
      errors := [];
      errorClass := false;
    }

    /** `validateField`, on blur or submit: the field shows exactly its current verdict. */
    method Validate() returns (isValid: bool)
      requires Valid()
      modifies this
      ensures Valid() && value == old(value)
      ensures isValid <==> FieldError(name, value, required).None?
      ensures errors == AfterValidate(old(errors), FieldError(name, value, required))
      ensures errors == ErrorsFor(FieldError(name, value, required))
    {
      var verdict := FieldError(name, value, required);
      errorClass := false;
      if errors != [] {
        errors := errors[1..];
      }
      isValid := verdict.None?;
      if !isValid {
        errorClass := true;
        errors := errors + [verdict.value];
      }
    }

    /** The input handler: a new value, and the error state cleared. */
    method Typed(raw: string)
      requires Valid()
      modifies this
      ensures Valid() && value == raw && errors == [] && !errorClass
    {
      value := raw;
      errorClass := false;
      if errors != [] {
        errors := errors[1..];
      }
    }
  }

  /** The messages a field shows for a verdict: none when it passes, its one message otherwise. */
  function ErrorsFor(verdict: Option<string>): (r: seq<string>)
    ensures |r| <= 1 && (r == [] <==> verdict.None?)
  {
    if verdict.None? then [] else [verdict.value]
  }

  /** What the submit handler reads of one `.form-input`. */
  datatype FormInput = FormInput(name: string, value: string, required: bool)

  function InputError(x: FormInput): Option<string> { FieldError(x.name, x.value, x.required) }

  /**
   * The submit handler: every input validated in turn, a failure not
   * stopping the others; each input ends up showing its own verdict's
   * message (none when it passes), and the loading state is shown only
   * when all pass.
   */
  method SubmitForm(inputs: seq<FormInput>) returns (isValid: bool, shown: seq<seq<string>>)
    ensures |shown| == |inputs|
    ensures forall k :: 0 <= k < |inputs| ==> shown[k] == ErrorsFor(InputError(inputs[k]))
    ensures isValid <==> forall k :: 0 <= k < |inputs| ==> InputError(inputs[k]).None?
  {
    var verdicts, first;
    isValid, verdicts, first := FieldChecks.CheckAll(inputs, InputError);
    shown := seq(|verdicts|, k requires 0 <= k < |verdicts| => ErrorsFor(verdicts[k]));
  }

  // ------------------------------------------------------------ availability checks

  datatype Kind = Username | Email

  /** Whether a trimmed value is worth asking the server about. */
  function Gate(kind: Kind, value: string): (b: bool)
    ensures b ==> |value| >= MinUsername
    ensures kind == Email && b ==> '@' in value
  {
    match kind
    case Username => |value| >= MinUsername
    case Email => |value| >= 5 && '@' in value
  }

  /** Every well-formed email passes the email gate: "a@b.c" is five characters. */
  lemma ValidEmailPassesGate(value: string)
    requires IsValidEmail(value)
    ensures Gate(Email, value)
  {
    var p :| 0 < p < |value| && value[p] == '@' && OnlyAtIs(value, p) && DotInside(value, p + 1);
    var q :| p + 1 < q < |value| - 1 && value[q] == '.';
  }

  /** A non-empty username is asked about exactly when `validateField` accepts its length. */
  lemma UsernameGateAgrees(raw: string)
    requires Strip(raw) != []
    ensures Gate(Username, Strip(raw)) <==> FieldError("username", raw, false).None?
  {
    FieldErrorRules("username", raw, false);
  }

  /** The server's reply: `data.available` and `data.error` ("" when absent). */
  datatype Reply = Reply(available: bool, error: string)

  datatype Colour = Green | Red | Orange

  /** The feedback line under the input: cleared, or a text in a colour. */
  datatype Feedback = Blank | Shown(text: string, colour: Colour)

  /** The feedback for a reply, or for a failed request (None). */
  function ReplyFeedback(kind: Kind, reply: Option<Reply>): (f: Feedback)
    ensures f.Shown?
    ensures f.colour == Green <==> reply.Some? && reply.value.available
    ensures f.colour == Orange <==> reply.None?
    ensures reply.Some? && !reply.value.available && reply.value.error != [] ==> f.text == reply.value.error
  {
    match reply
    case None => Shown(if kind == Username then "Could not check username" else "Could not check email", Orange)
    case Some(r) =>
      if r.available then Shown(if kind == Username then "Username is available" else "Email is available", Green)
      else if r.error != [] then Shown(r.error, Red)
      else Shown(if kind == Username then "Username is already taken" else "Email is already registered", Red)
  }

  /** An input's value, the trimmed value a pending 400 ms timer will ask about, and the feedback line. */
  datatype Watch = Watch(value: string, pending: Option<string>, feedback: Feedback)

  /**
   * The input handler as written: the feedback is cleared and, for a value
   * past the gate, the timer restarted for it; a value short of the gate
   * returns before `clearTimeout`, leaving an earlier timer running.
   */
  function AfterInputAsWritten(kind: Kind, w: Watch, raw: string): (r: Watch)
    ensures r.value == raw && r.feedback == Blank
    ensures Gate(kind, Strip(raw)) ==> r.pending == Some(Strip(raw))
    ensures !Gate(kind, Strip(raw)) ==> r.pending == w.pending
  {
    var value := Strip(raw);
    if !Gate(kind, value) then Watch(raw, w.pending, Blank)
    else Watch(raw, Some(value), Blank)
  }

  /** The input handler with the timer cancelled before the gate is tested. */
  function AfterInput(kind: Kind, w: Watch, raw: string): (r: Watch)
    ensures r.value == raw && r.feedback == Blank
    ensures r.pending.Some? <==> Gate(kind, Strip(raw))
    ensures Gate(kind, Strip(raw)) ==> r == AfterInputAsWritten(kind, w, raw)
  {
    var value := Strip(raw);
    if !Gate(kind, value) then Watch(raw, None, Blank)
    else Watch(raw, Some(value), Blank)
  }

  /** The timer firing: the request is made for the pending value and its reply shown. */
  function AfterTimer(kind: Kind, w: Watch, reply: Option<Reply>): (r: Watch)
    requires w.pending.Some?
    ensures r.value == w.value && r.pending.None? && r.feedback == ReplyFeedback(kind, reply)
  {
    Watch(w.value, None, ReplyFeedback(kind, reply))
  }

  /** A pending request is always about the value now in the input, and that value passes the gate. */
  predicate Current(kind: Kind, w: Watch) {
    w.pending.Some? ==> w.pending.value == Strip(w.value) && Gate(kind, w.pending.value)
  }

  /**
   * With the timer cancelled first, every request is about what the input
   * holds when the timer fires, whatever came before.
   */
  lemma InputKeepsCurrent(kind: Kind, w: Watch, raw: string)
    ensures Current(kind, AfterInput(kind, w, raw))
  {
  }

  /**
   * As written, typing "abc" and then deleting back to "ab" within 400 ms
   * still asks about "abc", and "Username is available" appears under "ab".
   */
  lemma StaleAvailabilityAsWritten()
    ensures var w0 := Watch([], None, Blank);
      var w2 := AfterInputAsWritten(Username, AfterInputAsWritten(Username, w0, "abc"), "ab");
      w2.pending == Some("abc") && !Current(Username, w2) &&
      AfterTimer(Username, w2, Some(Reply(true, []))).value == "ab" &&
      AfterTimer(Username, w2, Some(Reply(true, []))).feedback == Shown("Username is available", Green)
  {
    var w1 := AfterInputAsWritten(Username, Watch([], None, Blank), "abc");
    StripStripped("abc");
    StripStripped("ab");
    assert Strip("abc") == "abc";
    assert w1.pending == Some("abc");
  }

  /** The username or email input with its debounce timer and feedback line. */
  class AvailabilityField {
    const kind: Kind
    var value: string
    var pending: Option<string>
    var feedback: Feedback

    function State(): Watch
      reads this
    {
      Watch(value, pending, feedback)
    }

    constructor(kind: Kind, value: string)
      ensures this.kind == kind && State() == Watch(value, None, Blank) && Current(kind, State())
    {
      this.kind := kind;
      this.value := value;
      pending := None;
      feedback := Blank;
    }

    /** A keystroke (with the timer cancelled before the gate). */
    method Input(raw: string)
      modifies this
      ensures State() == AfterInput(kind, old(State()), raw) && Current(kind, State())
    {
      value := raw;
      feedback := Blank;
      pending := None;
      var v := Strip(raw);
      if Gate(kind, v) {
        pending := Some(v);
      }
    }

    /** The timer firing, given the server's answer or None when the request fails. */
    method TimerFires(reply: Option<Reply>) returns (asked: string)
      requires pending.Some? && Current(kind, State())
      modifies this
      ensures asked == Strip(value) && Gate(kind, asked)
      ensures State() == AfterTimer(kind, old(State()), reply)
    {
      asked := pending.value;
      pending := None;
      feedback := ReplyFeedback(kind, reply);
    }
  }

  // ------------------------------------------------------------ password toggle

  /** The new `type` of the password input after a click on its eye button. */
  function ToggledType(t: string): (r: string)
    ensures r == "text" <==> t == "password"
    ensures r == "password" <==> t != "password"
  {
    if t == "password" then "text" else "password"
  }

  /** The eye icon's classes after a click that set the input's type to `t`. */
  function IconAfter(icon: set<string>, t: string): (r: set<string>)
    ensures t == "password" ==> "fa-eye" in r && "fa-eye-slash" !in r
    ensures t != "password" ==> "fa-eye-slash" in r && "fa-eye" !in r
    ensures r - {"fa-eye", "fa-eye-slash"} == icon - {"fa-eye", "fa-eye-slash"}
  {
    if t == "password" then icon - {"fa-eye-slash"} + {"fa-eye"}
    else icon - {"fa-eye"} + {"fa-eye-slash"}
  }

  /** A password input and its toggle button's icon. */
  class PasswordToggle {
    var inputType: string
    var icon: set<string>

    /** The icon shows an eye while the password is hidden and a slashed eye while it shows. */
    predicate Agrees()
      reads this
    {
      (inputType == "password" <==> "fa-eye" in icon) && ("fa-eye" in icon <==> "fa-eye-slash" !in icon)
    }

    constructor(inputType: string, icon: set<string>)
      ensures this.inputType == inputType && this.icon == icon
    {
      this.inputType := inputType;
      this.icon := icon;
    }

    /** A click: the input flips between hidden and shown, and the icon follows. */
    method Click()
      modifies this
      ensures inputType == ToggledType(old(inputType))
      ensures icon == IconAfter(old(icon), inputType) && Agrees()
    {
      inputType := ToggledType(inputType);
      icon := IconAfter(icon, inputType);
    }
  }

  /**
   * Two clicks restore a password or text input; an input of any other type ends up
   * shown as text. The icon afterwards is the one matching the final type, which is
   * the original icon when that already matched the input.
   */
  lemma ToggleTwice(t: string, icon: set<string>)
    ensures t in {"password", "text"} ==> ToggledType(ToggledType(t)) == t
    ensures t !in {"password", "text"} ==> ToggledType(ToggledType(t)) == "text"
    ensures var t2 := ToggledType(ToggledType(t));
      IconAfter(IconAfter(icon, ToggledType(t)), t2) == IconAfter(icon, t2)
    ensures (t in {"password", "text"} && (t == "password" <==> "fa-eye" in icon) &&
             ("fa-eye" in icon <==> "fa-eye-slash" !in icon)) ==>
      IconAfter(IconAfter(icon, ToggledType(t)), ToggledType(ToggledType(t))) == icon
  {
  }

  // ------------------------------------------------------------ Enter key

  /** What Enter in the `i`-th of `n` form inputs does. */
  datatype EnterAction = Focus(next: nat) | Submit

  function EnterKey(n: nat, i: nat): (r: EnterAction)
    requires i < n
    ensures r.Focus? <==> i < n - 1
    ensures r.Focus? ==> r.next == i + 1 && r.next < n
  {
    if i < n - 1 then Focus(i + 1) else Submit
  }

  /** The number of Enter presses from input `i` until the form is submitted. */
  function PressesToSubmit(n: nat, i: nat): nat
    requires i < n
    decreases n - i
  {
    match EnterKey(n, i)
    case Submit => 1
    case Focus(j) => 1 + PressesToSubmit(n, j)
  }

  /** Pressing Enter repeatedly visits every later input once and then submits. */
  lemma {:induction false} EnterWalksToSubmit(n: nat, i: nat)
    requires i < n
    ensures PressesToSubmit(n, i) == n - i
    decreases n - i
  {
    if i < n - 1 {
      EnterWalksToSubmit(n, i + 1);
    }
  }
}
