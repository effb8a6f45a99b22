/**
 * backend/static/js/personal_info_modern.js: the per-field check of the
 * modern personal information form, its phone and PIN code tests, the
 * contact formatter and the check of every required field on submit.
 */
module PersonalInfoModern {
  import opened Text
  import opened Wrappers
  import opened Patterns
  import PersonalInfo
  import FieldChecks

  /** `/^[0-9]{10}$/`. */
  predicate IsValidPhone(v: string) { |v| == 10 && AllDigits(v) }

  /** `/^[0-9]{6}$/`. */
  predicate IsValidPinCode(v: string) { |v| == 6 && AllDigits(v) }

  /**
   * The contact formatter (the same digits-then-ten code as the older
   * personal information page) yields a valid phone number exactly when
   * at least ten digits were typed, and never an over-long one.
   */
  lemma FormattedPhone(raw: string)
    ensures IsValidPhone(PersonalInfo.FormatContact(raw)) <==> |KeepDigits(raw)| >= 10
    ensures |PersonalInfo.FormatContact(raw)| <= 10
  {
  }

  const RequiredMessage := "This field is required"
  const EmailMessage := "Please enter a valid email address"
  const PhoneMessage := "Please enter a valid 10-digit phone number"
  const PinMessage := "Please enter a valid 6-digit PIN code"
  const FirstNameMessage := "First name must be at least 2 characters"
  const LastNameMessage := "Last name must be at least 2 characters"

  /** Every rule a field breaks, in the order `validateField` tests them. */
  function Failures(name: string, raw: string, required: bool): seq<string> {
    var v := Strip(raw);
    (if required && v == [] then [RequiredMessage] else []) +
    (if name == "email" && v != [] && !IsValidEmail(v) then [EmailMessage] else []) +
    (if name == "contact" && v != [] && !IsValidPhone(v) then [PhoneMessage] else []) +
    (if name == "pin_code" && v != [] && !IsValidPinCode(v) then [PinMessage] else []) +
    (if name == "first_name" && v != [] && |v| < 2 then [FirstNameMessage] else []) +
    (if name == "last_name" && v != [] && |v| < 2 then [LastNameMessage] else [])
  }

  /** `validateField`'s verdict: None when valid, else the message it shows. */
  function FieldError(name: string, raw: string, required: bool): (r: Option<string>)
    ensures required && Strip(raw) == [] ==> r == Some(RequiredMessage)
    ensures !required && Strip(raw) == [] ==> r.None?
    ensures r.Some? ==> r.value in {RequiredMessage, EmailMessage, PhoneMessage, PinMessage, FirstNameMessage, LastNameMessage}
  {
    var v := Strip(raw);
    if required && v == [] then Some(RequiredMessage)
    else if name == "email" && v != [] && !IsValidEmail(v) then Some(EmailMessage)
    else if name == "contact" && v != [] && !IsValidPhone(v) then Some(PhoneMessage)
    else if name == "pin_code" && v != [] && !IsValidPinCode(v) then Some(PinMessage)
    else if name == "first_name" && v != [] && |v| < 2 then Some(FirstNameMessage)
    else if name == "last_name" && v != [] && |v| < 2 then Some(LastNameMessage)
    else None
  }

  /**
   * The message shown is the first rule broken, and none is shown iff no
   * rule is broken; the rules exclude one another, so a field never breaks
   * more than one.
   */
  lemma FieldErrorFirstFailure(name: string, raw: string, required: bool)
    ensures FieldError(name, raw, required) ==
      if Failures(name, raw, required) == [] then None else Some(Failures(name, raw, required)[0])
    ensures |Failures(name, raw, required)| <= 1
  {
  }

  /** An optional field left blank always passes, whatever its name. */
  lemma BlankOptionalPasses(name: string, raw: string)
    requires Strip(raw) == []
    ensures FieldError(name, raw, false).None?
  {
  }

  /** The state classes of a `.form-group` and its `.form-error` messages. */
  class FormGroup {
    var success: bool
    var error: bool
    var errors: seq<string>

    /** At most one message, shown exactly when the group is marked as an error, never with success. */
    predicate Valid()
      reads this
    {
      |errors| <= 1 && (error <==> errors != []) && !(success && error)
    }

    constructor()
      ensures Valid() && errors == [] && !success
    {
      success := false;
      error := false;
      errors := [];
    }

    /**
     * `validateField` on the group's input: old state cleared, then the
     * message shown, or the group marked as a success when the value is
     * non-empty and passes.
     */
    method Validate(name: string, raw: string, required: bool) returns (isValid: bool)
      requires Valid()
      modifies this
      ensures Valid()
      ensures isValid <==> FieldError(name, raw, required).None?
      ensures errors == (if isValid then [] else [FieldError(name, raw, required).value])
      ensures success <==> isValid && Strip(raw) != []
    {
      var verdict := FieldError(name, raw, required);
      success := false;
      error := false;
      if errors != [] {
        errors := errors[1..];
      }
      isValid := verdict.None?;
      if !isValid {
        error := true;
        errors := errors + [verdict.value];
      } else if Strip(raw) != [] {
        success := true;
      }
    }
  }

  /** A required input as the submit check reads it. */
  datatype RequiredInput = RequiredInput(name: string, value: string)

  function InputError(x: RequiredInput): Option<string> { FieldError(x.name, x.value, true) }

  /**
   * `validateAllFields` with the submit handler's focus: every required
   * field checked even after a failure, the form valid iff all pass, and
   * otherwise the first failing field focused.
   */
  method ValidateAllFields(inputs: seq<RequiredInput>) returns (allValid: bool, verdicts: seq<Option<string>>, focus: Option<nat>)
    ensures |verdicts| == |inputs| && forall k :: 0 <= k < |inputs| ==> verdicts[k] == InputError(inputs[k])
    ensures allValid <==> forall k :: 0 <= k < |inputs| ==> verdicts[k].None?
    ensures focus.None? <==> allValid
    ensures focus.Some? ==>
      focus.value < |inputs| && verdicts[focus.value].Some? &&
      (forall k :: 0 <= k < focus.value ==> verdicts[k].None?)
  {
    allValid, verdicts, focus := FieldChecks.CheckAll(inputs, InputError);
  }

  /** A blank required field always stops the submit. */
  lemma BlankRequiredBlocks(x: RequiredInput)
    requires Strip(x.value) == []
    ensures InputError(x) == Some(RequiredMessage)
  {
  }
}
