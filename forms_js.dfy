/**
 * backend/staticfiles/js/forms.js: the per-field check run on blur and
 * submit, the wizard progress read from the URL, the upload screen, the
 * localStorage draft of a form and the social-link patterns.
 */
module FormsScript {
  import opened Text
  import opened Wrappers
  import opened Patterns
  import FieldChecks

  // ------------------------------------------------------------ validateField

  /** The position of the first `c` in `s`, or `|s|` when there is none. */
  function FirstIndex(s: string, c: char): (i: nat)
    ensures i <= |s| && Free(s[..i], c)
    ensures i < |s| ==> s[i] == c
    ensures i == |s| ==> Free(s, c)
  {
    if s == [] then 0
    else if s[0] == c then 0
    else
      var j := FirstIndex(s[1..], c);
      assert s[..j + 1] == [s[0]] + s[1..][..j];
      1 + j
  }

  /** `s.replace(c, '')` with a one-character string: only the first occurrence goes. */
  function RemoveFirst(s: string, c: char): (r: string)
    ensures Free(s, c) ==> r == s
    ensures !Free(s, c) ==> exists i :: 0 <= i < |s| && s[i] == c && Free(s[..i], c) && r == s[..i] + s[i + 1..]
  {
    var i := FirstIndex(s, c);
    if i == |s| then s else s[..i] + s[i + 1..]
  }

  /** `getFieldLabel`: the label's text without its first '*', trimmed; 'This field' without a label. */
  function FieldLabel(labelText: Option<string>): (r: string)
    ensures labelText.None? ==> r == "This field"
    ensures labelText.Some? ==> IsStripped(r) && |r| <= |labelText.value|
  {
    if labelText.None? then "This field" else Strip(RemoveFirst(labelText.value, '*'))
  }

  const EmailMessage := "Please enter a valid email address"
  const PhoneMessage := "Please enter a valid 10-digit phone number"
  const UrlMessage := "Please enter a valid URL (include http:// or https://)"

  /**
   * `validateField`: `None` when the field is valid, otherwise the message
   * shown.  The rules run in order and a later failing rule overwrites an
   * earlier message; `urlParses` stands for `new URL(value)` not throwing.
   */
  function ValidateField(raw: string, fieldType: string, required: bool, labelText: Option<string>,
                         urlParses: string -> bool): (r: Option<string>)
    ensures var v := Strip(raw);
      r.None? <==>
        !(required && v == []) &&
        (fieldType == "email" && v != [] ==> IsValidEmail(v)) &&
        (fieldType == "tel" && v != [] ==> |KeepDigits(v)| == 10) &&
        (fieldType == "url" && v != [] ==> urlParses(v))
    ensures Strip(raw) == [] ==> (r.None? <==> !required)
    ensures required && Strip(raw) == [] ==> r == Some(FieldLabel(labelText) + " is required")
  {
    var v := Strip(raw);
    var m1 := if required && v == [] then Some(FieldLabel(labelText) + " is required") else None;
    var m2 := if fieldType == "email" && v != [] && !IsValidEmail(v) then Some(EmailMessage) else m1;
    var m3 := if fieldType == "tel" && v != [] && |KeepDigits(v)| != 10 then Some(PhoneMessage) else m2;
    if fieldType == "url" && v != [] && !urlParses(v) then Some(UrlMessage) else m3
  }

  /** A non-empty telephone value passes iff it carries exactly ten digits, whatever separates them. */
  lemma TelNeedsTenDigits(raw: string, labelText: Option<string>, urlParses: string -> bool)
    requires Strip(raw) != []
    ensures ValidateField(raw, "tel", false, labelText, urlParses).None? <==> |KeepDigits(Strip(raw))| == 10
    ensures |KeepDigits(Strip(raw))| != 10 ==> ValidateField(raw, "tel", true, labelText, urlParses) == Some(PhoneMessage)
  {
  }

  /** A non-empty email value passes iff it has the `a@b.c` shape of the regular expression. */
  lemma EmailNeedsShape(raw: string, required: bool, labelText: Option<string>, urlParses: string -> bool)
    requires Strip(raw) != []
    ensures ValidateField(raw, "email", required, labelText, urlParses).None? <==>
      exists a, b, c :: EmailParts(Strip(raw), a, b, c)
  {
    EmailRegexShape(Strip(raw));
  }

  /** A `[required]` input, textarea or select as the submit check reads it. */
  datatype RequiredField = RequiredField(value: string, fieldType: string, labelText: Option<string>)

  function RequiredError(f: RequiredField, urlParses: string -> bool): Option<string> {
    ValidateField(f.value, f.fieldType, true, f.labelText, urlParses)
  }

  /**
   * `validateForm`: every required field is validated (and shows its
   * message) even after one fails, and the form is valid iff all pass; a
   * blank required field is always among the failures.
   */
  method ValidateForm(fields: seq<RequiredField>, urlParses: string -> bool)
    returns (isValid: bool, shown: seq<Option<string>>)
    ensures |shown| == |fields| && forall k :: 0 <= k < |fields| ==> shown[k] == RequiredError(fields[k], urlParses)
    ensures isValid <==> forall k :: 0 <= k < |fields| ==> RequiredError(fields[k], urlParses).None?
    ensures forall k :: 0 <= k < |fields| && Strip(fields[k].value) == [] ==>
      !isValid && shown[k] == Some(FieldLabel(fields[k].labelText) + " is required")
  {
    var first;
    isValid, shown, first := FieldChecks.CheckAll(fields, (f: RequiredField) => RequiredError(f, urlParses));
  }

  // ------------------------------------------------------------ updateProgressFromURL

  /** The step table: path fragment, bar percentage, completed steps. */
  const StepProgress: seq<(string, nat, nat)> := [
    ("personal_info1", 10, 1), ("personal_info2", 20, 2), ("add_education", 30, 3),
    ("add_experience", 40, 4), ("add_project", 50, 5), ("add_skill", 60, 6),
    ("add_certification", 70, 7), ("add_language", 80, 8), ("add_hobby", 90, 9),
    ("add_summary", 100, 10)]

  /** Each row's percentage is ten times its step count, between 1 and 10 steps. */
  predicate WellFormedRow(row: (string, nat, nat)) { row.1 == 10 * row.2 && 1 <= row.2 <= 10 }

  /** The first row, from `from` on, whose fragment the path contains. */
  function StepFrom(path: string, from: nat): (r: Option<nat>)
    requires from <= |StepProgress|
    ensures r.None? ==> forall k :: from <= k < |StepProgress| ==> !Contains(path, StepProgress[k].0)
    ensures r.Some? ==> from <= r.value < |StepProgress| && Contains(path, StepProgress[r.value].0) &&
                        forall j :: from <= j < r.value ==> !Contains(path, StepProgress[j].0)
    decreases |StepProgress| - from
  {
    if from == |StepProgress| then None
    else if Contains(path, StepProgress[from].0) then Some(from)
    else StepFrom(path, from + 1)
  }

  /**
   * `updateProgressFromURL`: (percentage, completed steps) of the first row
   * whose fragment occurs in the path, (10, 1) when none does.
   */
  function ProgressFromURL(path: string): (r: (nat, nat))
    ensures (forall k :: 0 <= k < |StepProgress| ==> !Contains(path, StepProgress[k].0)) ==> r == (10, 1)
    ensures forall k :: 0 <= k < |StepProgress| && Contains(path, StepProgress[k].0) &&
                        (forall j :: 0 <= j < k ==> !Contains(path, StepProgress[j].0)) ==>
              r == (StepProgress[k].1, StepProgress[k].2)
  {
    var k := StepFrom(path, 0);
    if k.None? then (10, 1) else (StepProgress[k.value].1, StepProgress[k.value].2)
  }

  /** The bar and the "n/10 completed" text always agree: the percentage is ten times the step count. */
  lemma ProgressConsistent(path: string)
    ensures ProgressFromURL(path).0 == 10 * ProgressFromURL(path).1
    ensures 1 <= ProgressFromURL(path).1 <= 10
  {
    assert forall k :: 0 <= k < |StepProgress| ==> WellFormedRow(StepProgress[k]) by {
      forall k | 0 <= k < |StepProgress| ensures WellFormedRow(StepProgress[k]) {
        assert k == 0 || k == 1 || k == 2 || k == 3 || k == 4 || k == 5 || k == 6 || k == 7 || k == 8 || k == 9;
      }
    }
    var k := StepFrom(path, 0);
    if k.Some? { assert WellFormedRow(StepProgress[k.value]); }
  }

  function ProgressText(steps: nat): string { NatStr(steps) + "/10 completed" }

  // ------------------------------------------------------------ handleFileUpload

  datatype UploadCheck = NoFile | TooLarge | NotAnImage | Accepted(caption: string)

  const MaxUploadBytes: nat := 10 * 1024 * 1024
  const PhotoTypes: seq<string> := ["image/jpeg", "image/jpg", "image/png", "image/gif"]

  /** `handleFileUpload` on the first selected file: (name, size in bytes, MIME type). */
  function HandleFileUpload(inputName: string, file: Option<(string, nat, string)>): (r: UploadCheck)
    ensures r.NoFile? <==> file.None?
    ensures r.TooLarge? <==> file.Some? && file.value.1 > MaxUploadBytes
    ensures r.NotAnImage? <==>
      file.Some? && file.value.1 <= MaxUploadBytes && inputName == "profile_photo" && file.value.2 !in PhotoTypes
    ensures r.Accepted? ==> r.caption == "Selected: " + file.value.0
  {
    if file.None? then NoFile
    else
      var (name, size, mime) := file.value;
      if size > MaxUploadBytes then TooLarge
      else if inputName == "profile_photo" && mime !in PhotoTypes then NotAnImage
      else Accepted("Selected: " + name)
  }

  // ------------------------------------------------------------ getFormId

  /** `.replace(/\//g, '_')` on one character. */
  function Unslash(c: char): (r: char)
    ensures r != '/'
  {
    if c == '/' then '_' else c
  }

  /** `getFormId`: "form_data_" followed by the path with every '/' made '_'. */
  function GetFormId(path: string): (r: string)
    ensures |r| == 10 + |path| && r[..10] == "form_data_"
    ensures forall i :: 0 <= i < |path| ==> r[10 + i] == Unslash(path[i])
    ensures Free(r, '/')
  {
    "form_data_" + seq(|path|, i requires 0 <= i < |path| => Unslash(path[i]))
  }

  predicate SlashOrUnderscore(c: char) { c == '/' || c == '_' }

  /** Two paths that differ only by '/' against '_' at some positions. */
  predicate SlashEquivalent(p: string, q: string) {
    |p| == |q| && forall i :: 0 <= i < |p| ==> p[i] == q[i] || (SlashOrUnderscore(p[i]) && SlashOrUnderscore(q[i]))
  }

  /** Two pages share a draft key exactly when their paths differ only by '/' against '_'. */
  lemma FormIdSharedIff(p: string, q: string)
    ensures GetFormId(p) == GetFormId(q) <==> SlashEquivalent(p, q)
  {
    if GetFormId(p) == GetFormId(q) {
      SharedIdEquivalent(p, q);
    }
    if SlashEquivalent(p, q) {
      EquivalentSharesId(p, q);
    }
  }

  lemma SharedIdEquivalent(p: string, q: string)
    requires GetFormId(p) == GetFormId(q)
    ensures SlashEquivalent(p, q)
  {
    var a, b := GetFormId(p), GetFormId(q);
    forall i | 0 <= i < |p| ensures p[i] == q[i] || (SlashOrUnderscore(p[i]) && SlashOrUnderscore(q[i])) {
      assert Unslash(p[i]) == a[10 + i] == b[10 + i] == Unslash(q[i]);
    }
  }

  lemma EquivalentSharesId(p: string, q: string)
    requires SlashEquivalent(p, q)
    ensures GetFormId(p) == GetFormId(q)
  {
    var a, b := GetFormId(p), GetFormId(q);
    forall i | 0 <= i < |a| ensures a[i] == b[i] {
      if i >= 10 {
        assert a[i] == Unslash(p[i - 10]) && b[i] == Unslash(q[i - 10]);
      } else {
        assert a[i] == a[..10][i] && b[i] == b[..10][i];
      }
    }
  }

  // ------------------------------------------------------------ saveFormData / loadFormData

  /** An `input`, `textarea` or `select` of the form, in document order. */
  datatype Input = Input(name: string, inputType: string, value: string)

  /** File and password inputs are never written to the draft. */
  predicate Saved(x: Input) { x.inputType != "file" && x.inputType != "password" }

  /** The draft `saveFormData` builds: name to value, a later same-named input overwriting. */
  function DraftOf(xs: seq<Input>): map<string, string> {
    if xs == [] then map[]
    else
      var d := DraftOf(xs[..|xs| - 1]);
      var x := xs[|xs| - 1];
      if Saved(x) then d[x.name := x.value] else d
  }

  /** No later saved input has the name of position `i`. */
  predicate LastSavedNamed(xs: seq<Input>, i: nat) {
    i < |xs| && Saved(xs[i]) && forall j :: i < j < |xs| && Saved(xs[j]) ==> xs[j].name != xs[i].name
  }

  /**
   * The draft holds exactly the names of saved inputs, and under each the
   * value of the last saved input carrying it.
   */
  lemma {:induction false} DraftLastWins(xs: seq<Input>)
    ensures forall n :: n in DraftOf(xs) <==> exists i :: 0 <= i < |xs| && Saved(xs[i]) && xs[i].name == n
    ensures forall i :: 0 <= i < |xs| && LastSavedNamed(xs, i) ==> DraftOf(xs)[xs[i].name] == xs[i].value
  {
    if xs != [] {
      var init := xs[..|xs| - 1];
      DraftLastWins(init);
      assert forall i :: 0 <= i < |init| ==> init[i] == xs[i];
      forall i | 0 <= i < |init| && LastSavedNamed(xs, i) ensures LastSavedNamed(init, i) { }
    }
  }

  /** Position `i` is the first input named `xs[i].name`: the one `querySelector('[name=…]')` finds. */
  predicate FirstNamed(xs: seq<Input>, i: nat) {
    i < |xs| && forall j :: 0 <= j < i ==> xs[j].name != xs[i].name
  }

  /** What `loadFormData` leaves in the inputs. */
  function Restored(xs: seq<Input>, data: map<string, string>): (r: seq<Input>)
    ensures |r| == |xs|
    ensures forall i :: 0 <= i < |xs| ==> r[i].name == xs[i].name && r[i].inputType == xs[i].inputType
  {
    seq(|xs|, i requires 0 <= i < |xs| => RestoredAt(xs, data, i))
  }

  function RestoredAt(xs: seq<Input>, data: map<string, string>, i: nat): (r: Input)
    requires i < |xs|
    ensures r.name == xs[i].name && r.inputType == xs[i].inputType
    ensures FirstNamed(xs, i) && xs[i].name in data && xs[i].inputType != "file" ==> r.value == data[xs[i].name]
    ensures !(FirstNamed(xs, i) && xs[i].name in data && xs[i].inputType != "file") ==> r == xs[i]
  {
    var x := xs[i];
    if FirstNamed(xs, i) && x.name in data && x.inputType != "file" then x.(value := data[x.name]) else x
  }

  /** The inputs of the page's form. */
  class DraftForm {
    var inputs: seq<Input>

    constructor(inputs: seq<Input>)
      ensures this.inputs == inputs
    {
      this.inputs := inputs;
    }

    /** `saveFormData`: the object handed to `JSON.stringify`. */
    method SaveFormData() returns (draft: map<string, string>)
      ensures draft == DraftOf(inputs)
    {
      draft := map[];
      for i := 0 to |inputs|
        invariant draft == DraftOf(inputs[..i])
      {
        assert inputs[..i + 1][..i] == inputs[..i];
        if Saved(inputs[i]) {
          draft := draft[inputs[i].name := inputs[i].value];
        }
      }
      assert inputs[..|inputs|] == inputs;
    }

    /**
     * `loadFormData`: `None` is a missing or unparsable draft.  Each saved
     * name is written into the first input of that name unless it is a file
     * input; distinct names reach distinct inputs, so the model walks the
     * inputs instead of the draft's keys.
     */
    method LoadFormData(saved: Option<map<string, string>>)
      modifies this
      ensures saved.None? ==> inputs == old(inputs)
      ensures saved.Some? ==> inputs == Restored(old(inputs), saved.value)
    {
      if saved.Some? {
        var xs := inputs;
        for i := 0 to |xs|
          invariant |inputs| == |xs|
          invariant forall j :: 0 <= j < i ==> inputs[j] == RestoredAt(xs, saved.value, j)
          invariant forall j :: i <= j < |xs| ==> inputs[j] == xs[j]
        {
          inputs := inputs[i := RestoredAt(xs, saved.value, i)];
        }
      }
    }
  }

  /** Every name appears at most once. */
  predicate UniqueNames(xs: seq<Input>) {
    forall i, j :: 0 <= i < j < |xs| ==> xs[i].name != xs[j].name
  }

  /**
   * Saving a form and loading the draft into a page with the same inputs
   * (names and types, any values) brings back every saved value and leaves
   * file and password inputs as the page has them.
   */
  lemma DraftRoundTrip(a: seq<Input>, b: seq<Input>)
    requires |a| == |b| && UniqueNames(a)
    requires forall i :: 0 <= i < |a| ==> a[i].name == b[i].name && a[i].inputType == b[i].inputType
    ensures forall i :: 0 <= i < |a| ==>
      Restored(b, DraftOf(a))[i].value == (if Saved(a[i]) then a[i].value else b[i].value)
  {
    DraftLastWins(a);
    var d := DraftOf(a);
    forall i | 0 <= i < |a|
      ensures Restored(b, d)[i].value == (if Saved(a[i]) then a[i].value else b[i].value)
    {
      assert FirstNamed(b, i);
      if Saved(a[i]) {
        assert LastSavedNamed(a, i);
      } else {
        forall k | 0 <= k < |a| && a[k].name == a[i].name ensures k == i { }
      }
    }
  }

  // ------------------------------------------------------------ validateSocialLink

  /** A platform pattern: a profile URL on a fixed host, or any http(s) URL. */
  datatype LinkPattern = Profile(domain: string, subs: seq<string>, allowDot: bool) | AnyHttp

  predicate Matches(p: LinkPattern, v: string) {
    match p
    case Profile(domain, subs, allowDot) => ProfileUrl(v, domain, subs, allowDot)
    case AnyHttp => AnyHttpUrl(v)
  }

  /** The pattern table, keyed by the input's `name`. */
  function PatternFor(platform: string): Option<LinkPattern> {
    if platform == "linkedin" then Some(Profile("linkedin.com/in/", [], false))
    else if platform == "github" then Some(Profile("github.com/", [], false))
    else if platform == "twitter" then Some(Profile("twitter.com/", [], false))
    else if platform == "instagram" then Some(Profile("instagram.com/", [], false))
    else if platform == "facebook" then Some(Profile("facebook.com/", [], true))
    else if platform == "youtube" then Some(Profile("youtube.com/", ["channel/", "c/", "user/"], false))
    else if platform == "portfolio" then Some(AnyHttp)
    else None
  }

  /** `platform.charAt(0).toUpperCase() + platform.slice(1)`. */
  function Capitalised(s: string): (r: string)
    ensures |r| == |s| && (s != [] ==> r[0] == UpperChar(s[0]) && r[1..] == s[1..])
  {
    if s == [] then [] else [UpperChar(s[0])] + s[1..]
  }

  /** `validateSocialLink`: `None` when valid, otherwise the message shown. */
  function ValidateSocialLink(raw: string, platform: string): (r: Option<string>)
    ensures Strip(raw) == [] ==> r.None?
    ensures PatternFor(platform).None? ==> r.None?
    ensures Strip(raw) != [] && PatternFor(platform).Some? ==>
      (r.None? <==> Matches(PatternFor(platform).value, Strip(raw)))
    ensures r.Some? ==> r.value == "Please enter a valid " + Capitalised(platform) + " URL"
  {
    var v := Strip(raw);
    var p := PatternFor(platform);
    if v != [] && p.Some? && !Matches(p.value, v) then
      Some("Please enter a valid " + Capitalised(platform) + " URL")
    else None
  }

  /**
   * A non-empty GitHub value passes iff it is http(s)://, optionally
   * "www.", "github.com/", a `[\w-]+` handle and at most one '/'.
   */
  lemma GithubLinkShape(raw: string)
    requires Strip(raw) != []
    ensures ValidateSocialLink(raw, "github").None? <==>
      exists scheme, www, sub, handle, slash ::
        ProfileParts(Strip(raw), scheme, www, "github.com/", sub, handle, slash, [], false)
  {
    var v := Strip(raw);
    if ProfileUrl(v, "github.com/", [], false) {
      ProfileMatchParts(v, "github.com/", [], false);
    }
    if exists scheme, www, sub, handle, slash ::
        ProfileParts(v, scheme, www, "github.com/", sub, handle, slash, [], false) {
      var scheme, www, sub, handle, slash :|
        ProfileParts(v, scheme, www, "github.com/", sub, handle, slash, [], false);
      ProfilePartsMatch(v, scheme, www, "github.com/", sub, handle, slash, [], false);
    }
  }
}
