/**
 * backend/staticfiles/js/personal_info.js: step 1 of the personal
 * information form, with the contact-number formatter and check, the
 * profile-photo check, the submit-time check of the four required fields
 * and the capitalisation of the name fields.
 */
module PersonalInfo {
  import opened Text
  import opened Wrappers
  import opened Patterns
  import FormsScript

  // ------------------------------------------------------------ contact number

  const ContactDigits := 10

  /** The input handler: every non-digit removed, then cut to ten digits. */
  function FormatContact(raw: string): (r: string)
    ensures AllDigits(r) && |r| <= ContactDigits
    ensures |KeepDigits(raw)| <= ContactDigits ==> r == KeepDigits(raw)
    ensures |KeepDigits(raw)| > ContactDigits ==> r == KeepDigits(raw)[..ContactDigits]
  {
    var value := KeepDigits(raw);
    if |value| > ContactDigits then value[..ContactDigits] else value
  }

  /** Formatting an already formatted number changes nothing. */
  lemma FormatContactIdempotent(raw: string)
    ensures FormatContact(FormatContact(raw)) == FormatContact(raw)
  {
  }

  /** `^[6-9]\d{9}$`: an Indian mobile number. */
  predicate IndianMobile(v: string) {
    |v| == ContactDigits && '6' <= v[0] <= '9' && AllDigits(v)
  }

  const TenDigitMessage := "Please enter a valid 10-digit mobile number"
  const IndianMobileMessage := "Please enter a valid Indian mobile number"

  /** `validateContactField`: None when valid, else the error shown under the field. */
  function ValidateContact(raw: string): (r: Option<string>)
    ensures r.None? <==> Strip(raw) == [] || IndianMobile(Strip(raw))
    ensures r.Some? && |Strip(raw)| != ContactDigits ==> r.value == TenDigitMessage
    ensures r.Some? && |Strip(raw)| == ContactDigits ==> r.value == IndianMobileMessage
  {
    var v := Strip(raw);
    if v != [] && |v| != ContactDigits then Some(TenDigitMessage)
    else if v != [] && !IndianMobile(v) then Some(IndianMobileMessage)
    else None
  }

  lemma DigitsStripped(s: string)
    requires AllDigits(s)
    ensures Strip(s) == s
  {
    StripStripped(s);
  }

  /**
   * After the formatter runs, the check that follows it only ever complains
   * about the length or the leading digit.
   */
  lemma FormattedContactCheck(raw: string)
    ensures var v := FormatContact(raw);
      ValidateContact(v).None? <==> v == [] || (|v| == ContactDigits && '6' <= v[0] <= '9')
  {
    DigitsStripped(FormatContact(raw));
  }

  // ------------------------------------------------------------ profile photo

  const PhotoTypes: seq<string> := ["image/jpeg", "image/jpg", "image/png", "image/gif"]

  /** `5 * 1024 * 1024`. */
  const MaxPhotoBytes := 5242880

  const PhotoTypeMessage := "Please select a valid image file (JPEG, PNG, or GIF)"
  const PhotoSizeMessage := "Profile photo must be less than 5MB"

  /** `handlePhotoPreview`: no file, a rejected file (input cleared), or a preview. */
  datatype PhotoCheck = NoPhoto | PhotoRejected(message: string) | Preview

  /** The check of the chosen file, given its MIME type and size in bytes. */
  function HandlePhoto(file: Option<(string, nat)>): (r: PhotoCheck)
    ensures r.NoPhoto? <==> file.None?
    ensures r.Preview? <==> file.Some? && file.value.0 in PhotoTypes && file.value.1 <= MaxPhotoBytes
    ensures r.PhotoRejected? && file.value.0 !in PhotoTypes ==> r.message == PhotoTypeMessage
    ensures r.PhotoRejected? && file.value.0 in PhotoTypes ==> r.message == PhotoSizeMessage
  {
    if file.None? then NoPhoto
    else if file.value.0 !in PhotoTypes then PhotoRejected(PhotoTypeMessage)
    else if file.value.1 > MaxPhotoBytes then PhotoRejected(PhotoSizeMessage)
    else Preview
  }

  // ------------------------------------------------------------ validateStep1Form

  /** A form field: its value and the text of its `label`, if it has one. */
  datatype Field = Field(value: string, labelText: Option<string>)

  const RequiredFields: seq<string> := ["first_name", "last_name", "email", "contact"]

  const EmailMessage := "Please enter a valid email address"

  /** The error the submit check shows for one present required field, if any. */
  function Step1Error(name: string, f: Field): (r: Option<string>)
    ensures Strip(f.value) == [] ==> r == Some(FormsScript.FieldLabel(f.labelText) + " is required")
    ensures Strip(f.value) != [] && name == "contact" ==> r == ValidateContact(f.value)
    ensures Strip(f.value) != [] && name == "email" ==>
      (r.None? <==> IsValidEmail(Strip(f.value))) && (r.Some? ==> r.value == EmailMessage)
    ensures Strip(f.value) != [] && name != "contact" && name != "email" ==> r.None?
  {
    if Strip(f.value) == [] then Some(FormsScript.FieldLabel(f.labelText) + " is required")
    else if name == "contact" then ValidateContact(f.value)
    else if name == "email" then (if IsValidEmail(Strip(f.value)) then None else Some(EmailMessage))
    else None
  }

  /** A field's verdict: None when it passes or is missing from the page. */
  function FieldVerdict(fields: map<string, Field>, name: string): Option<string> {
    if name in fields then Step1Error(name, fields[name]) else None
  }

  /** Each required field's own verdict, in the order they are checked. */
  function Verdicts(fields: map<string, Field>): (r: seq<Option<string>>)
    ensures |r| == |RequiredFields|
    ensures forall k :: 0 <= k < |RequiredFields| ==> r[k] == FieldVerdict(fields, RequiredFields[k])
  {
    seq(|RequiredFields|, k requires 0 <= k < |RequiredFields| => FieldVerdict(fields, RequiredFields[k]))
  }

  /** The messages of the failing verdicts, in order. */
  function Shown(vs: seq<Option<string>>): (r: seq<string>)
    ensures |r| <= |vs|
  {
    if vs == [] then []
    else Shown(vs[..|vs| - 1]) + (if vs[|vs| - 1].Some? then [vs[|vs| - 1].value] else [])
  }

  /** No message is shown iff every verdict is a pass. */
  lemma {:induction false} ShownEmpty(vs: seq<Option<string>>)
    ensures Shown(vs) == [] <==> forall j :: 0 <= j < |vs| ==> vs[j].None?
  {
    if vs != [] {
      var n := |vs| - 1;
      var init := vs[..n];
      ShownEmpty(init);
      assert Shown(vs) == Shown(init) + (if vs[n].Some? then [vs[n].value] else []);
      if forall j :: 0 <= j < |vs| ==> vs[j].None? {
        assert forall j :: 0 <= j < n ==> init[j].None?;
      } else if Shown(init) == [] {
        assert forall j :: 0 <= j < n ==> init[j] == vs[j];
      }
    }
  }

  /**
   * `validateStep1Form`: each required field present on the page is
   * checked in turn, every failure shows its error, and the result is true
   * only when none failed.  A missing field is skipped.
   */
  method ValidateStep1Form(fields: map<string, Field>) returns (isValid: bool, shown: seq<string>)
    ensures shown == Shown(Verdicts(fields))
    ensures isValid <==> forall j :: 0 <= j < |RequiredFields| ==> Verdicts(fields)[j].None?
  {
    ghost var vs := Verdicts(fields);
    isValid := true;
    shown := [];
    for k := 0 to |RequiredFields|
      invariant shown == Shown(vs[..k])
      invariant isValid <==> shown == []
    {
      var error := FieldVerdict(fields, RequiredFields[k]);
      assert vs[..k + 1][..k] == vs[..k];
      if error.Some? {
        shown := shown + [error.value];
        isValid := false;
      }
    }
    assert vs[..|RequiredFields|] == vs;
    ShownEmpty(vs);
  }

  /** A required field left blank always blocks the submit. */
  lemma BlankRequiredBlocks(fields: map<string, Field>, j: nat)
    requires j < |RequiredFields| && RequiredFields[j] in fields
    requires Strip(fields[RequiredFields[j]].value) == []
    ensures Shown(Verdicts(fields)) != []
  {
    ShownEmpty(Verdicts(fields));
    assert Verdicts(fields)[j] == FieldVerdict(fields, RequiredFields[j]);
  }

  // ------------------------------------------------------------ name capitalisation

  /** `\b\w`: a word character at the start or after a non-word character. */
  predicate WordStart(s: string, i: nat)
    requires i < |s|
  {
    IsWordChar(s[i]) && (i == 0 || !IsWordChar(s[i - 1]))
  }

  /** `value.replace(/\b\w/g, l => l.toUpperCase())`. */
  function Capitalise(s: string): (r: string)
    ensures |r| == |s|
    ensures forall i :: 0 <= i < |s| ==> r[i] == (if WordStart(s, i) then UpperChar(s[i]) else s[i])
  {
    seq(|s|, i requires 0 <= i < |s| => if WordStart(s, i) then UpperChar(s[i]) else s[i])
  }

  /** Upper-casing keeps a character a word character, and does nothing the second time. */
  lemma UpperCharFacts(c: char)
    ensures IsWordChar(UpperChar(c)) <==> IsWordChar(c)
    ensures UpperChar(UpperChar(c)) == UpperChar(c)
    ensures LowerChar(UpperChar(c)) == LowerChar(c)
  {
  }

  /** Typing into a capitalised name and capitalising again changes nothing more. */
  lemma CapitaliseIdempotent(s: string)
    ensures Capitalise(Capitalise(s)) == Capitalise(s)
  {
    var r := Capitalise(s);
    forall i | 0 <= i < |s| ensures IsWordChar(r[i]) <==> IsWordChar(s[i]) {
      UpperCharFacts(s[i]);
    }
    forall i | 0 <= i < |s| ensures Capitalise(r)[i] == r[i] {
      UpperCharFacts(s[i]);
      assert WordStart(r, i) <==> WordStart(s, i);
    }
  }

  /** Capitalisation changes only letter case. */
  lemma CapitaliseKeepsLetters(s: string)
    ensures Lower(Capitalise(s)) == Lower(s)
  {
    forall i | 0 <= i < |s| ensures Lower(Capitalise(s))[i] == Lower(s)[i] {
      UpperCharFacts(s[i]);
    }
  }
}
