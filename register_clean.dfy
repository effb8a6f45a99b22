/**
 * backend/staticfiles/js/register_clean.js: the password-strength score and
 * its label, the per-field `validationState` record that the availability
 * checks update, and the submit gate `validateForm`.  The fetch itself, the
 * 500 ms debounce and the feedback markup are not modelled: a check's
 * outcome arrives as a method call.
 */
module RegisterClean {
  import opened Text
  import opened Wrappers

  // ------------------------------------------------------------ password strength

  predicate HasUpper(s: string) { exists i :: 0 <= i < |s| && IsUpper(s[i]) }
  predicate HasLower(s: string) { exists i :: 0 <= i < |s| && IsLowerCase(s[i]) }
  /** `/[\d\W]/`: a digit or any character outside `[A-Za-z0-9_]`. */
  predicate HasDigitOrSymbol(s: string) { exists i :: 0 <= i < |s| && (IsDigit(s[i]) || !IsWordChar(s[i])) }

  const HintLength := "At least 8 characters"
  const HintUpper := "One uppercase letter"
  const HintLower := "One lowercase letter"
  const HintSymbol := "One number or special character"

  /** The outcome of the four strength tests, in the order they run. */
  function StrengthTests(password: string): (t: seq<bool>)
    ensures |t| == 4
  {
    [|password| >= 8, HasUpper(password), HasLower(password), HasDigitOrSymbol(password)]
  }

  function Hints(): (h: seq<string>)
    ensures |h| == 4
  {
    [HintLength, HintUpper, HintLower, HintSymbol]
  }

  function CountTrue(bs: seq<bool>): (n: nat)
    ensures n <= |bs|
  {
    if bs == [] then 0 else (if bs[0] then 1 else 0) + CountTrue(bs[1..])
  }

  /**
   * `calculatePasswordStrength`: 25 points per passed test and one hint per
   * failed one, in test order.
   */
  method CalculatePasswordStrength(password: string) returns (score: int, feedback: seq<string>)
    ensures score == 25 * CountTrue(StrengthTests(password))
    ensures score + 25 * |feedback| == 100
    ensures score == 0 || score == 25 || score == 50 || score == 75 || score == 100
    ensures forall k :: 0 <= k < 4 ==> (Hints()[k] in feedback <==> !StrengthTests(password)[k])
  {
    score := 0;
    feedback := [];
    if |password| >= 8 {
      score := score + 25;
    } else {
      feedback := feedback + [HintLength];
    }
    if HasUpper(password) {
      score := score + 25;
    } else {
      feedback := feedback + [HintUpper];
    }
    if HasLower(password) {
      score := score + 25;
    } else {
      feedback := feedback + [HintLower];
    }
    if HasDigitOrSymbol(password) {
      score := score + 25;
    } else {
      feedback := feedback + [HintSymbol];
    }
    CountTrueFour(|password| >= 8, HasUpper(password), HasLower(password), HasDigitOrSymbol(password));
  }

  lemma CountTrueFour(a: bool, b: bool, c: bool, d: bool)
    ensures CountTrue([a, b, c, d]) == (if a then 1 else 0) + (if b then 1 else 0) + (if c then 1 else 0) + (if d then 1 else 0)
  {
    assert [a, b, c, d][1..] == [b, c, d];
    assert [b, c, d][1..] == [c, d];
    assert [c, d][1..] == [d];
    assert [d][1..] == [];
    assert CountTrue([d]) == (if d then 1 else 0);
    assert CountTrue([c, d]) == (if c then 1 else 0) + CountTrue([d]);
    assert CountTrue([b, c, d]) == (if b then 1 else 0) + CountTrue([c, d]);
  }

  datatype Strength = Strength(text: string, colour: string)

  /** `updateStrengthIndicator`: the text and bar colour for a score. */
  function StrengthIndicator(score: int): (s: Strength)
    ensures s.text == "Weak password" <==> score < 50
    ensures s.text == "Fair password" <==> 50 <= score < 75
    ensures s.text == "Good password" <==> 75 <= score < 100
    ensures s.text == "Strong password" <==> score >= 100
    ensures s.colour == "#28a745" <==> score >= 75
  {
    if score < 50 then Strength("Weak password", "#dc3545")
    else if score < 75 then Strength("Fair password", "#ffc107")
    else if score < 100 then Strength("Good password", "#28a745")
    else Strength("Strong password", "#28a745")
  }

  /** A password reads as strong exactly when it passes all four tests. */
  lemma StrongIffAllTests(password: string, score: int, feedback: seq<string>)
    requires score == 25 * CountTrue(StrengthTests(password)) && score + 25 * |feedback| == 100
    ensures StrengthIndicator(score).text == "Strong password" <==>
      |password| >= 8 && HasUpper(password) && HasLower(password) && HasDigitOrSymbol(password)
    ensures StrengthIndicator(score).text == "Weak password" <==> |feedback| >= 3
  {
    CountTrueFour(|password| >= 8, HasUpper(password), HasLower(password), HasDigitOrSymbol(password));
  }

  // ------------------------------------------------------------ validation state

  datatype Field = Username | Email

  /**
   * One entry of `validationState`.  `checking` is absent (falsy) in the
   * initial record and `value` is absent until a check succeeds.
   */
  datatype FieldState = FieldState(available: bool, checked: bool, checking: bool, value: Option<string>)

  const Unchecked := FieldState(false, false, false, None)
  const Checking := FieldState(false, false, true, None)

  /** What an input event does: schedule a check of the trimmed value, or clear the field's state. */
  function UsernameInput(raw: string): (scheduled: Option<string>)
    ensures scheduled.Some? <==> |Strip(raw)| >= 3
    ensures scheduled.Some? ==> scheduled.value == Strip(raw)
  {
    var value := Strip(raw);
    if |value| >= 3 then Some(value) else None
  }

  function EmailInput(raw: string): (scheduled: Option<string>)
    ensures scheduled.Some? <==> |Strip(raw)| >= 5 && '@' in Strip(raw) && '.' in Strip(raw)
    ensures scheduled.Some? ==> scheduled.value == Strip(raw)
  {
    var value := Strip(raw);
    if |value| >= 5 && '@' in value && '.' in value then Some(value) else None
  }

  class ValidationState {
    var username: FieldState
    var email: FieldState

    constructor()
      ensures username == Unchecked && email == Unchecked
    {
      username := Unchecked;
      email := Unchecked;
    }

    function Get(f: Field): (s: FieldState)
      reads this
      ensures f == Username ==> s == username
      ensures f == Email ==> s == email
    {
      if f == Username then username else email
    }

    method Set(f: Field, s: FieldState)
      modifies this
      ensures Get(f) == s
      ensures f == Username ==> email == old(email)
      ensures f == Email ==> username == old(username)
    {
      if f == Username { username := s; } else { email := s; }
    }

    /** `checkAvailability` before the response: the field is marked as checking. */
    method StartCheck(f: Field)
      modifies this
      ensures Get(f) == Checking
      ensures f == Username ==> email == old(email)
      ensures f == Email ==> username == old(username)
    {
      Set(f, Checking);
    }

    /** A successful response records the answer and the value it was for. */
    method CheckSucceeded(f: Field, available: bool, value: string)
      modifies this
      ensures Get(f) == FieldState(available, true, false, Some(value))
      ensures f == Username ==> email == old(email)
      ensures f == Email ==> username == old(username)
    {
      Set(f, FieldState(available, true, false, Some(value)));
    }

    /** `clearFeedback`. */
    method ClearFeedback(f: Field)
      modifies this
      ensures Get(f) == Unchecked
      ensures f == Username ==> email == old(email)
      ensures f == Email ==> username == old(username)
    {
      Set(f, Unchecked);
    }

    /** The username `input` handler: returns the value a check is scheduled for, if any. */
    method OnUsernameInput(raw: string) returns (scheduled: Option<string>)
      modifies this
      ensures scheduled == UsernameInput(raw)
      ensures scheduled.Some? ==> username == old(username)
      ensures scheduled.None? ==> username == Unchecked
      ensures email == old(email)
    {
      scheduled := UsernameInput(raw);
      if scheduled.None? {
        ClearFeedback(Username);
      }
    }

    /** The email `input` handler. */
    method OnEmailInput(raw: string) returns (scheduled: Option<string>)
      modifies this
      ensures scheduled == EmailInput(raw)
      ensures scheduled.Some? ==> email == old(email)
      ensures scheduled.None? ==> email == Unchecked
      ensures username == old(username)
    {
      scheduled := EmailInput(raw);
      if scheduled.None? {
        ClearFeedback(Email);
      }
    }

    /**
     * `validateForm`: the errors in the order they are pushed, and whether
     * none was.  `agreeTerms` is absent when the page has no terms box.
     */
    method ValidateForm(usernameRaw: string, emailRaw: string, password: string, confirm: string,
                        agreeTerms: Option<bool>)
      returns (isValid: bool, errors: seq<string>)
      ensures errors == FormErrors(username, email, Strip(usernameRaw), Strip(emailRaw), password, confirm, agreeTerms)
      ensures isValid <==> errors == []
    {
      isValid := true;
      errors := [];
      var u := UsernameError(username, Strip(usernameRaw));
      if u.Some? {
        errors := errors + [u.value];
        isValid := false;
      }
      assert errors == AsList(u) && (isValid <==> errors == []);
      var e := EmailError(email, Strip(emailRaw));
      if e.Some? {
        errors := errors + [e.value];
        isValid := false;
      }
      assert errors == AsList(u) + AsList(e) && (isValid <==> errors == []);
      var a := errors;
      if password != confirm {
        errors := errors + [MismatchMessage];
        isValid := false;
      }
      assert errors == a + (if password != confirm then [MismatchMessage] else []) && (isValid <==> errors == []);
      var b := errors;
      if |password| < 8 {
        errors := errors + [ShortPasswordMessage];
        isValid := false;
      }
      assert errors == b + (if |password| < 8 then [ShortPasswordMessage] else []) && (isValid <==> errors == []);
      var c := errors;
      if agreeTerms == Some(false) {
        errors := errors + [TermsMessage];
        isValid := false;
      }
      assert errors == c + (if agreeTerms == Some(false) then [TermsMessage] else []);
    }
  }

  const MismatchMessage := "Passwords do not match"
  const ShortPasswordMessage := "Password must be at least 8 characters long"
  const TermsMessage := "You must agree to the terms and conditions"

  function WaitMessage(field: string): string { "Please wait for " + field + " validation to complete" }
  function EnsureMessage(field: string): string { "Please ensure " + field + " is available" }

  /** The availability part of a field's rule, once its format is acceptable. */
  function StateError(s: FieldState, current: string, field: string): (r: Option<string>)
    ensures r.None? <==> !s.checking && s.checked && s.available && s.value == Some(current)
    ensures s.checking ==> r == Some(WaitMessage(field))
    ensures !s.checking && (!s.checked || !s.available) ==> r == Some(EnsureMessage(field))
  {
    if s.checking then Some(WaitMessage(field))
    else if !s.checked || !s.available then Some(EnsureMessage(field))
    else if s.value != Some(current) then Some(WaitMessage(field))
    else None
  }

  function UsernameError(s: FieldState, username: string): (r: Option<string>)
    ensures r.None? <==> |username| >= 3 && !s.checking && s.checked && s.available && s.value == Some(username)
  {
    if |username| < 3 then Some("Username must be at least 3 characters")
    else StateError(s, username, "username")
  }

  function EmailError(s: FieldState, email: string): (r: Option<string>)
    ensures r.None? <==> '@' in email && '.' in email && !s.checking && s.checked && s.available && s.value == Some(email)
  {
    if '@' !in email || '.' !in email then Some("Please enter a valid email address")
    else StateError(s, email, "email")
  }

  function AsList(o: Option<string>): (l: seq<string>)
    ensures |l| <= 1 && (l == [] <==> o.None?)
  {
    if o.Some? then [o.value] else []
  }

  /** The errors `validateForm` reports, in order. */
  function FormErrors(u: FieldState, e: FieldState, username: string, email: string, password: string,
                      confirm: string, agreeTerms: Option<bool>): seq<string>
  {
    AsList(UsernameError(u, username)) + AsList(EmailError(e, email)) +
    (if password != confirm then [MismatchMessage] else []) +
    (if |password| < 8 then [ShortPasswordMessage] else []) +
    (if agreeTerms == Some(false) then [TermsMessage] else [])
  }

  /** The submit goes through exactly when every rule holds. */
  lemma FormErrorsEmptyIff(u: FieldState, e: FieldState, username: string, email: string, password: string,
                           confirm: string, agreeTerms: Option<bool>)
    ensures FormErrors(u, e, username, email, password, confirm, agreeTerms) == [] <==>
      (UsernameError(u, username).None? && EmailError(e, email).None? &&
       password == confirm && |password| >= 8 && agreeTerms != Some(false))
  {
    var errs := FormErrors(u, e, username, email, password, confirm, agreeTerms);
    if errs == [] {
      assert |AsList(UsernameError(u, username))| <= |errs|;
      assert |AsList(EmailError(e, email))| <= |errs|;
    }
  }

  /** Mismatched or short passwords always block the submit. */
  lemma BadPasswordBlocks(u: FieldState, e: FieldState, username: string, email: string, password: string,
                          confirm: string, agreeTerms: Option<bool>)
    requires password != confirm || |password| < 8
    ensures FormErrors(u, e, username, email, password, confirm, agreeTerms) != []
  {
    FormErrorsEmptyIff(u, e, username, email, password, confirm, agreeTerms);
  }

  /**
   * A check whose request failed leaves the field in the checking state, so
   * any username long enough is reported as still waiting.
   */
  lemma FailedCheckKeepsWaiting(username: string)
    requires |username| >= 3
    ensures UsernameError(Checking, username) == Some(WaitMessage("username"))
  {
  }

  /** A recorded answer for an earlier value does not pass once the input has changed. */
  lemma StaleAnswerWaits(value: string, username: string)
    requires |username| >= 3 && value != username
    ensures UsernameError(FieldState(true, true, false, Some(value)), username) == Some(WaitMessage("username"))
  {
  }
}
