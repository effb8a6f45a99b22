/**
 * backend/staticfiles/js/user_profile.js: the profile photo checks made
 * before the file is read, the field checks of forms marked
 * `data-validate`, the single error element kept next to a field, and the
 * public portfolio address copied by `copyPublicURL`.
 */
module UserProfile {
  import opened Text
  import opened Wrappers
  import opened Patterns
  import PersonalInfo
  import FieldChecks

  // ------------------------------------------------------------ profile photo

  const ImageTypes: seq<string> := ["image/jpeg", "image/jpg", "image/png", "image/gif", "image/webp"]

  /** `5 * 1024 * 1024`. */
  const MaxPhotoBytes := 5242880

  const TypeMessage := "Please select a valid image file (JPG, PNG, GIF)"
  const SizeMessage := "File size must be less than 5MB"

  /** The change handler's outcome: no file, a rejection notice, or the file being read. */
  datatype PhotoChange = NoFile | Rejected(message: string) | Reading

  /** The change handler, given the chosen file's MIME type and size in bytes. */
  function ChoosePhoto(file: Option<(string, nat)>): (r: PhotoChange)
    ensures r.NoFile? <==> file.None?
    ensures r.Reading? <==> file.Some? && file.value.0 in ImageTypes && file.value.1 <= MaxPhotoBytes
    ensures r.Rejected? ==> (r.message == TypeMessage <==> file.value.0 !in ImageTypes)
    ensures r.Rejected? ==> (r.message == SizeMessage <==> file.value.0 in ImageTypes)
  {
    if file.None? then NoFile
    else if file.value.0 !in ImageTypes then Rejected(TypeMessage)
    else if file.value.1 > MaxPhotoBytes then Rejected(SizeMessage)
    else Reading
  }

  /**
   * Every photo the personal information page previews is read here too,
   * with the same 5 MiB bound; a WebP file is accepted here only.
   */
  lemma ProfileAcceptsMore(file: Option<(string, nat)>)
    ensures PersonalInfo.HandlePhoto(file).Preview? ==> ChoosePhoto(file).Reading?
    ensures ChoosePhoto(Some(("image/webp", 0))).Reading?
    ensures PersonalInfo.HandlePhoto(Some(("image/webp", 0))).PhotoRejected?
  {
    assert "image/webp" !in PersonalInfo.PhotoTypes;
  }

  // ------------------------------------------------------------ validateField

  const RequiredMessage := "This field is required"
  const EmailMessage := "Please enter a valid email address"
  const UrlMessage := "Please enter a valid URL"

  /**
   * `validateField` as written: three independent tests, each failing one
   * overwriting the message, so the last failing test's message is kept.
   * `urlParses` stands for `new URL(value)` not throwing.
   */
  function FieldCheck(fieldType: string, raw: string, required: bool, urlParses: string -> bool): (r: (bool, string))
    ensures r.0 <==> r.1 == ""
    ensures !r.0 ==> r.1 in {RequiredMessage, EmailMessage, UrlMessage}
    ensures !required && Strip(raw) == [] ==> r.0
  {
    var v := Strip(raw);
    var afterRequired := if required && v == [] then (false, RequiredMessage) else (true, "");
    var afterEmail := if fieldType == "email" && v != [] && !IsValidEmail(v) then (false, EmailMessage) else afterRequired;
    if fieldType == "url" && v != [] && !urlParses(v) then (false, UrlMessage) else afterEmail
  }

  /**
   * The three tests exclude one another, so no message is ever
   * overwritten: the check is the first failing rule of required, email,
   * URL, and a field passes iff it breaks none.
   */
  lemma FieldCheckRules(fieldType: string, raw: string, required: bool, urlParses: string -> bool)
    ensures var v := Strip(raw);
      FieldCheck(fieldType, raw, required, urlParses) ==
        if required && v == [] then (false, RequiredMessage)
        else if fieldType == "email" && v != [] && !IsValidEmail(v) then (false, EmailMessage)
        else if fieldType == "url" && v != [] && !urlParses(v) then (false, UrlMessage)
        else (true, "")
    ensures FieldCheck(fieldType, raw, required, urlParses).0 <==>
      (required ==> Strip(raw) != []) &&
      (fieldType == "email" && Strip(raw) != [] ==> IsValidEmail(Strip(raw))) &&
      (fieldType == "url" && Strip(raw) != [] ==> urlParses(Strip(raw)))
  {
  }

  /** The `error` class of a field and the `.field-error` elements of its parent. */
  class FieldDisplay {
    var errorClass: bool
    var errors: seq<string>

    /** At most one error element, present exactly when the field is marked. */
    predicate Valid()
      reads this
    {
      |errors| <= 1 && (errorClass <==> errors != [])
    }

    constructor()
      ensures Valid() && errors == []
    {
      errorClass := false;
      errors := [];
    }

    /**
     * `toggleFieldError`: an invalid field's existing element gets the new
     * text, or one is created; a valid field loses its element.
     */
    method ToggleFieldError(isValid: bool, message: string)
      requires Valid()
      modifies this
      ensures Valid()
      ensures errors == (if isValid then [] else [message])
    {
      if !isValid {
        errorClass := true;
        if errors == [] {
          errors := [message];
        } else {
          errors := errors[0 := message];
        }
      } else {
        errorClass := false;
        if errors != [] {
          errors := errors[1..];
        }
      }
    }

    /** `validateField` with its display: the field ends showing exactly its current message. */
    method Validate(fieldType: string, raw: string, required: bool, urlParses: string -> bool) returns (isValid: bool)
      requires Valid()
      modifies this
      ensures Valid()
      ensures isValid == FieldCheck(fieldType, raw, required, urlParses).0
      ensures errors == (if isValid then [] else [FieldCheck(fieldType, raw, required, urlParses).1])
    {
      var check := FieldCheck(fieldType, raw, required, urlParses);
      isValid := check.0;
      ToggleFieldError(isValid, check.1);
    }
  }

  /** A `[required]` field of a `data-validate` form. */
  datatype RequiredField = RequiredField(fieldType: string, value: string)

  /** A field's verdict as the form check records it: None when it passes, else its message. */
  function FieldVerdict(f: RequiredField, urlParses: string -> bool): Option<string> {
    var check := FieldCheck(f.fieldType, f.value, true, urlParses);
    if check.0 then None else Some(check.1)
  }

  /**
   * `validateForm`: every required field checked, a failure not stopping
   * the others, and the submit let through iff all pass.
   */
  method ValidateForm(fields: seq<RequiredField>, urlParses: string -> bool) returns (isValid: bool, verdicts: seq<Option<string>>)
    ensures |verdicts| == |fields|
    ensures forall k :: 0 <= k < |fields| ==>
      (verdicts[k].None? <==> FieldCheck(fields[k].fieldType, fields[k].value, true, urlParses).0) &&
      (verdicts[k].Some? ==> verdicts[k].value == FieldCheck(fields[k].fieldType, fields[k].value, true, urlParses).1)
    ensures isValid <==> forall k :: 0 <= k < |fields| ==> FieldCheck(fields[k].fieldType, fields[k].value, true, urlParses).0
  {
    var first;
    isValid, verdicts, first := FieldChecks.CheckAll(fields, (f: RequiredField) => FieldVerdict(f, urlParses));
  }

  // ------------------------------------------------------------ copyPublicURL

  /** What `copyPublicURL` does: an alert, or the address handed to the clipboard (or the prompt). */
  datatype CopyOutcome = Alert(message: string) | Copy(url: string)

  /** `${protocol}//${host}/portfolio/${slug}/`. */
  function PublicUrl(protocol: string, host: string, slug: string): string {
    protocol + "//" + host + "/portfolio/" + slug + "/"
  }

  /** `copyPublicURL`, the page's slug given (None or "" when neither source has one). */
  function CopyPublicUrl(slug: Option<string>, protocol: string, host: string): (r: CopyOutcome)
    ensures r.Alert? <==> slug.None? || slug.value == []
    ensures r.Alert? ==> r.message == "Portfolio URL not available"
    ensures r.Copy? ==> r.url == PublicUrl(protocol, host, slug.value)
  {
    if slug.None? || slug.value == [] then Alert("Portfolio URL not available")
    else Copy(PublicUrl(protocol, host, slug.value))
  }

  /**
   * On one site, the copied address names the portfolio: it starts with
   * the origin, ends with "/portfolio/<slug>/", and two slugs give two
   * different addresses.
   */
  lemma PublicUrlNamesSlug(protocol: string, host: string, s: string, t: string)
    ensures StartsWith(PublicUrl(protocol, host, s), protocol + "//" + host)
    ensures EndsWith(PublicUrl(protocol, host, s), "/portfolio/" + s + "/")
    ensures PublicUrl(protocol, host, s) == PublicUrl(protocol, host, t) ==> s == t
  {
    var origin := protocol + "//" + host + "/portfolio/";
    var u := PublicUrl(protocol, host, s);
    assert u == origin + s + "/";
    assert u[..|protocol + "//" + host|] == protocol + "//" + host;
    assert u[|u| - |"/portfolio/" + s + "/"|..] == "/portfolio/" + s + "/";
    if u == PublicUrl(protocol, host, t) {
      assert PublicUrl(protocol, host, t) == origin + t + "/";
      assert s == u[|origin|..|u| - 1];
      assert t == u[|origin|..|u| - 1];
    }
  }
}
