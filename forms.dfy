/**
 * The `clean_*` and `clean` validators of the Django forms
 * (backend/users/forms.py).  Each validator is a function from the field
 * value(s) to a `Result`: `Ok` carries what the validator returns, `Err` the
 * message of the `ValidationError` it raises.  A value that Django leaves out
 * of `cleaned_data` (an empty optional choice, a field whose own validation
 * failed) is `None`; an empty text input is the empty string.
 */
module Forms {
  import opened Text
  import opened Wrappers

  type Cleaned<T> = Result<T, string>

  /**
   * Python's `$` in `re.match(r"^...$", s)` also matches just before one final
   * newline, so each anchored pattern P is tested on `s` and, when `s` ends in
   * '\n', on `s` without it.
   */
  predicate FinalNewline(s: string) { s != [] && s[|s| - 1] == '\n' }

  function DropLast(s: string): string requires s != [] { s[..|s| - 1] }

  /** `re.match(r'^https?://', s)`. */
  predicate HttpScheme(s: string) { StartsWith(s, "http://") || StartsWith(s, "https://") }

  // ------------------------------------------------------------ PersonalInfoForm1

  /** `[A-Za-z\s\-']+` over the whole string. */
  predicate NameChars(s: string) {
    s != [] && forall i :: 0 <= i < |s| ==> IsAlpha(s[i]) || IsSpace(s[i]) || s[i] == '-' || s[i] == '\''
  }

  /** `clean_first_name` and `clean_last_name`: the value is returned unchanged. */
  function CleanName(data: string, which: string): (r: Cleaned<string>)
    ensures r.Ok? ==> r.value == data
  {
    if NameChars(data) || (FinalNewline(data) && NameChars(DropLast(data))) then Ok(data)
    else Err(which + " name can only contain letters, spaces, hyphens, and apostrophes.")
  }

  /** A name is accepted iff it is non-empty and made only of letters, whitespace, '-' and '\''. */
  lemma NameAccepted(data: string, which: string)
    ensures CleanName(data, which).Ok? <==>
      data != [] && forall i :: 0 <= i < |data| ==>
        IsAlpha(data[i]) || IsSpace(data[i]) || data[i] == '-' || data[i] == '\''
  {
    if FinalNewline(data) && NameChars(DropLast(data)) {
      NewlineKeepsName(data);
    }
    assert CleanName(data, which).Ok? <==> NameChars(data);
  }

  /** The final newline Python's `$` lets through is itself a `\s`. */
  lemma NewlineKeepsName(data: string)
    requires FinalNewline(data) && NameChars(DropLast(data))
    ensures NameChars(data)
  {
    var init := DropLast(data);
    forall i | 0 <= i < |data| ensures IsAlpha(data[i]) || IsSpace(data[i]) || data[i] == '-' || data[i] == '\''
    {
      if i < |init| { assert data[i] == init[i]; }
    }
  }

  /** `\d{9}` after `[6-9]`: an Indian mobile number without prefix. */
  predicate MobileDigits(s: string) { |s| == 10 && '6' <= s[0] <= '9' && AllDigits(s) }

  /** `(\+91)?[6-9]\d{9}` over the whole string. */
  predicate ContactShape(s: string) {
    MobileDigits(s) || (StartsWith(s, "+91") && MobileDigits(s[3..]))
  }

  /** `clean_contact`. */
  function CleanContact(contact: string): (r: Cleaned<string>)
    ensures r.Ok? ==> r.value == contact
    ensures r.Ok? ==> |contact| in {10, 11, 13, 14}
  {
    if ContactShape(contact) || (FinalNewline(contact) && ContactShape(DropLast(contact))) then Ok(contact)
    else Err("Enter a valid 10-digit Indian number with optional +91.")
  }

  /**
   * Without a final newline, a contact number is accepted iff it is ten
   * digits starting with 6..9, optionally preceded by "+91".
   */
  lemma ContactAccepted(contact: string)
    requires contact == [] || contact[|contact| - 1] != '\n'
    ensures CleanContact(contact).Ok? <==>
      (|contact| == 10 && '6' <= contact[0] <= '9' && AllDigits(contact)) ||
      (|contact| == 13 && contact[..3] == "+91" && '6' <= contact[3] <= '9' && AllDigits(contact[3..]))
  {
  }

  /**
   * Through the form the contact field strips the text first, so no final
   * newline is left and an accepted number is 10 or 13 characters long.
   */
  lemma ContactThroughField(raw: string)
    requires CleanContact(Strip(raw)).Ok?
    ensures |Strip(raw)| == 10 || |Strip(raw)| == 13
  {
    var s := Strip(raw);
    assert s != [] ==> s[|s| - 1] != '\n' by { assert IsSpace('\n'); }
    ContactAccepted(s);
  }

  /** A contact number never contains a space, a dash or a '+' after its prefix. */
  lemma ContactNoSeparators(contact: string, i: nat)
    requires CleanContact(contact).Ok?
    requires 3 <= i < |contact|
    ensures contact[i] != ' ' && contact[i] != '-' && contact[i] != '+'
  {
    var core := if contact[|contact| - 1] == '\n' then contact[..|contact| - 1] else contact;
    if |core| == 10 {
      if i < 10 { assert core[i] == contact[i]; }
    } else if i < 13 {
      assert core[3..][i - 3] == contact[i];
    }
  }

  predicate PinShape(s: string) { |s| == 6 && AllDigits(s) }

  /** `^\d{6}$` with `re.match`. */
  function CleanPinCode(pin: string): (r: Cleaned<string>)
    ensures r.Ok? ==> r.value == pin
  {
    if PinShape(pin) || (FinalNewline(pin) && PinShape(DropLast(pin))) then Ok(pin)
    else Err("PIN code must be exactly 6 digits.")
  }

  /** A PIN code is accepted iff it is six decimal digits, optionally followed by one newline. */
  lemma PinCodeAccepted(pin: string)
    ensures CleanPinCode(pin).Ok? <==>
      (|pin| == 6 && AllDigits(pin)) || (|pin| == 7 && pin[6] == '\n' && AllDigits(pin[..6]))
  {
  }

  /** `[^@]+@[^@]+\.[^@]+` with `re.match` (anchored at the start only). */
  predicate EmailPrefixShape(s: string) {
    exists i, j :: 0 < i < |s| && i + 1 < j < |s| - 1 && EmailPrefixAt(s, i, j)
  }

  /** `s[..i]` and `s[i+1..j]` hold no '@', `s[i]` is the '@', `s[j]` the '.', `s[j+1]` not '@'. */
  predicate EmailPrefixAt(s: string, i: nat, j: nat)
    requires i < j < |s| - 1
  {
    s[i] == '@' && s[j] == '.' && s[j + 1] != '@' && forall k :: 0 <= k < j && k != i ==> s[k] != '@'
  }

  /**
   * `clean_email` of PersonalInfoForm1 and the format half of RegistrationForm.clean_email,
   * on the value they receive; the e-mail field's own validator is not modelled.
   */
  function CleanEmailFormat(email: string): (r: Cleaned<string>)
    ensures r.Ok? ==> r.value == email
    ensures r.Ok? ==> exists i :: 0 < i < |email| && email[i] == '@'
  {
    if EmailPrefixShape(email) then Ok(email) else Err("Enter a valid email address.")
  }

  /** An email whose prefix matches keeps matching whatever is appended. */
  lemma EmailPrefixExtends(email: string, tail: string)
    requires CleanEmailFormat(email).Ok?
    ensures CleanEmailFormat(email + tail).Ok?
  {
    var i, j :| 0 < i < |email| && i + 1 < j < |email| - 1 && EmailPrefixAt(email, i, j);
    var s := email + tail;
    assert forall k :: 0 <= k <= j + 1 ==> s[k] == email[k];
    assert EmailPrefixAt(s, i, j);
  }

  /** `RegistrationForm.clean_email`: taken addresses are refused before the format is checked. */
  function RegistrationCleanEmail(email: string, taken: bool): (r: Cleaned<string>)
    ensures taken ==> r == Err("Email already registered.")
    ensures !taken ==> r == CleanEmailFormat(email)
  {
    if taken then Err("Email already registered.") else CleanEmailFormat(email)
  }

  /** `clean_profile_photo`: only a newly uploaded file is checked; size first, then type. */
  function CleanProfilePhoto(uploaded: bool, size: nat, contentType: string): (r: Cleaned<()>)
    ensures r.Ok? <==> !uploaded || (size <= 2 * 1024 * 1024 && contentType in ["image/jpeg", "image/png"])
    ensures uploaded && size > 2097152 ==> r == Err("Profile photo must be smaller than 2MB.")
  {
    if !uploaded then Ok(())
    else if size > 2 * 1024 * 1024 then Err("Profile photo must be smaller than 2MB.")
    else if contentType !in ["image/jpeg", "image/png"] then Err("Only JPG and PNG formats are allowed.")
    else Ok(())
  }

  // ------------------------------------------------------------ PersonalInfoForm2

  /**
   * `clean_github_link`, `clean_facebook_link`, `clean_instagram_link`, on the value
   * they receive, which the URL field has already cleaned (that step is not modelled).
   */
  function CleanDomainLink(link: string, domain: string, msg: string): (r: Cleaned<string>)
    ensures r.Ok? <==> link == [] || (Contains(link, domain) && HttpScheme(link))
    ensures r.Ok? ==> r.value == link
  {
    if link != [] && (!Contains(link, domain) || !HttpScheme(link)) then Err(msg) else Ok(link)
  }

  /** `clean_other_social_link` and `ProjectForm.clean_link`: only the scheme is checked. */
  function CleanSchemeLink(link: string, msg: string): (r: Cleaned<string>)
    ensures r.Ok? <==> link == [] || HttpScheme(link)
    ensures r.Ok? ==> r.value == link
  {
    if link != [] && !HttpScheme(link) then Err(msg) else Ok(link)
  }

  /** `clean_github_link` by itself: a link without a scheme is refused. */
  lemma GithubLinkExample()
    ensures CleanDomainLink("https://github.com/octo", "github.com", "").Ok?
    ensures CleanDomainLink("github.com/octo", "github.com", "").Err?
  {
    assert StartsWith("https://github.com/octo", "https://");
    assert StartsWith("https://github.com/octo"[8..], "github.com");
    assert "github.com/octo"[..7][0] == 'g';
    assert "github.com/octo"[..8][0] == 'g';
  }

  // ------------------------------------------------------------ length windows

  /**
   * The strip-then-cap validators: `clean_institution`/`clean_location`/
   * `clean_degree`, `clean_job_title`/`clean_company_name`, and CertificationForm's `clean_name`/`clean_issuer`.
   * The first UserProfileForm (forms.py:55) has capped `clean_*` methods too,
   * but the second class of that name (forms.py:740) replaces it, so they
   * never run and are not modelled.
   */
  function CleanCapped(raw: string, max: nat, msg: string): (r: Cleaned<string>)
    ensures r.Ok? <==> |Strip(raw)| <= max
    ensures r.Ok? ==> r.value == Strip(raw) && Strip(r.value) == r.value
  {
    StripIdempotent(raw);
    var v := Strip(raw);
    if |v| > max then Err(msg) else Ok(v)
  }

  /**
   * The optional descriptions of EducationForm (10..500), ExperienceForm
   * (15..800) and CertificationForm (10..400): empty after stripping is
   * allowed; otherwise the length must lie in the window, the cap tested first.
   */
  function CleanOptionalDescription(raw: string, min: nat, max: nat): (r: Cleaned<string>)
    ensures r.Ok? <==> Strip(raw) == [] || min <= |Strip(raw)| <= max
    ensures r.Ok? ==> r.value == Strip(raw)
    ensures |Strip(raw)| > max ==> r == Err("Description cannot exceed " + NatStr(max) + " characters.")
  {
    var d := Strip(raw);
    if d != [] && |d| > max then Err("Description cannot exceed " + NatStr(max) + " characters.")
    else if d != [] && |d| < min then Err("Description must be at least " + NatStr(min) + " characters long.")
    else Ok(d)
  }

  /** `ExtrasForm.clean_extracurricular`: a non-empty entry needs ten characters. */
  function CleanExtracurricular(raw: string): (r: Cleaned<string>)
    ensures r.Ok? <==> Strip(raw) == [] || |Strip(raw)| >= 10
    ensures r.Ok? ==> r.value == Strip(raw)
  {
    var e := Strip(raw);
    if e != [] && |e| < 10 then Err("Please provide more details about your extracurricular activities.") else Ok(e)
  }

  /** `ExtrasForm.clean_resume`: the (case-sensitive) file name must end in .pdf, .doc or .docx. */
  function CleanResume(name: Option<string>): (r: Cleaned<Option<string>>)
    ensures r.Ok? <==> name.None? || EndsWith(name.value, ".pdf") || EndsWith(name.value, ".doc") || EndsWith(name.value, ".docx")
    ensures r.Ok? ==> r.value == name
  {
    if name.Some? && !(EndsWith(name.value, ".pdf") || EndsWith(name.value, ".doc") || EndsWith(name.value, ".docx"))
    then Err("Only PDF or Word documents are allowed.")
    else Ok(name)
  }

  // ------------------------------------------------------------ RegistrationForm

  /** `RegistrationForm.clean`: a mismatch is reported before the length. */
  function RegistrationClean(password: string, confirm: string): (r: Cleaned<()>)
    ensures r.Ok? <==> password == [] || ((confirm == [] || password == confirm) && |password| >= 8)
    ensures password != [] && confirm != [] && password != confirm ==> r == Err("Passwords don't match.")
    ensures (password == confirm || confirm == []) && 0 < |password| < 8 ==>
      r == Err("Password must be at least 8 characters long.")
  {
    if password != [] && confirm != [] && password != confirm then Err("Passwords don't match.")
    else if password != [] && |password| < 8 then Err("Password must be at least 8 characters long.")
    else Ok(())
  }

  // ------------------------------------------------------------ dates

  /** `datetime.date(ey, em, 1) < datetime.date(sy, sm, 1)`. */
  predicate MonthBefore(ey: int, em: int, sy: int, sm: int) { ey < sy || (ey == sy && em < sm) }

  /** Month-level dates compare like their month counts since year 0. */
  lemma MonthBeforeIsIndexOrder(ey: int, em: int, sy: int, sm: int)
    requires 1 <= em <= 12 && 1 <= sm <= 12
    ensures MonthBefore(ey, em, sy, sm) <==> 12 * ey + em < 12 * sy + sm
  {
  }

  predicate ValidChoice(year: Option<nat>, month: Option<nat>) {
    (year.Some? ==> 1 <= year.value <= 9999) && (month.Some? ==> 1 <= month.value <= 12)
  }

  /** The outcome of a `clean()` that may also raise a ValueError from `datetime.date`. */
  datatype DateCheck = Pass | Fail(msg: string) | ValueErrorRaised

  /**
   * `EducationForm.clean` as written: with both end fields present, a missing
   * start year becomes 0 and `datetime.date(0, m, 1)` raises.
   */
  function EducationCleanAsWritten(sy: Option<nat>, sm: Option<nat>, ey: Option<nat>, em: Option<nat>): (r: DateCheck)
    requires ValidChoice(sy, sm) && ValidChoice(ey, em)
    ensures r.ValueErrorRaised? <==> sy.None? && ey.Some? && em.Some?
  {
    var startYear := if sy.Some? then sy.value else 0;
    var startMonth := if sm.Some? then sm.value else 1;
    if ey.Some? && em.Some? then
      if startYear < 1 then ValueErrorRaised
      else if MonthBefore(ey.value, em.value, startYear, startMonth) then Fail("End date cannot be before start date.")
      else Pass
    else Pass
  }

  lemma EducationCrashWitness()
    ensures EducationCleanAsWritten(None, Some(5), Some(2020), Some(6)) == ValueErrorRaised
  {
  }

  /**
   * `EducationForm.clean` with the comparison skipped when the start year is
   * missing (the required-field error already reports it).
   */
  function EducationClean(sy: Option<nat>, sm: Option<nat>, ey: Option<nat>, em: Option<nat>): (r: Cleaned<()>)
    requires ValidChoice(sy, sm) && ValidChoice(ey, em)
    ensures sy.None? ==> r.Ok?
    ensures EducationCleanAsWritten(sy, sm, ey, em).ValueErrorRaised? ==> r.Ok?
    ensures r.Err? ==> r == Err("End date cannot be before start date.")
  {
    var startMonth := if sm.Some? then sm.value else 1;
    if sy.Some? && ey.Some? && em.Some? && MonthBefore(ey.value, em.value, sy.value, startMonth)
    then Err("End date cannot be before start date.")
    else Ok(())
  }

  /**
   * An education entry is rejected iff both end fields are present and the end
   * month precedes the start month (a missing start month counts as January);
   * equal months pass, and wherever the original does not raise, both agree.
   */
  lemma EducationRejection(sy: Option<nat>, sm: Option<nat>, ey: Option<nat>, em: Option<nat>)
    requires ValidChoice(sy, sm) && ValidChoice(ey, em)
    requires sy.Some?
    ensures EducationClean(sy, sm, ey, em).Err? <==>
      ey.Some? && em.Some? && MonthBefore(ey.value, em.value, sy.value, if sm.Some? then sm.value else 1)
    ensures EducationClean(sy, sm, ey, em).Err? <==> EducationCleanAsWritten(sy, sm, ey, em).Fail?
    ensures ey.Some? && em.Some? && sm.Some? && ey.value == sy.value && em.value == sm.value ==>
      EducationClean(sy, sm, ey, em).Ok?
  {
  }

  /**
   * `ExperienceForm.clean` as written: a missing end month defaults to 1, so
   * only the end year decides whether the dates are compared.
   */
  function ExperienceCleanAsWritten(sy: Option<nat>, sm: Option<nat>, ey: Option<nat>, em: Option<nat>): (r: DateCheck)
    requires ValidChoice(sy, sm) && ValidChoice(ey, em)
    ensures r.ValueErrorRaised? <==> sy.None? && ey.Some?
  {
    var startYear := if sy.Some? then sy.value else 0;
    var startMonth := if sm.Some? then sm.value else 1;
    var endYear := if ey.Some? then ey.value else 0;
    var endMonth := if em.Some? then em.value else 1;
    if endYear != 0 && endMonth != 0 then
      if startYear < 1 then ValueErrorRaised
      else if MonthBefore(endYear, endMonth, startYear, startMonth) then Fail("End date must be after start date.")
      else Pass
    else Pass
  }

  lemma ExperienceCrashWitness()
    ensures ExperienceCleanAsWritten(None, Some(3), Some(2021), None) == ValueErrorRaised
  {
  }

  /** `ExperienceForm.clean` with the comparison skipped when the start year is missing. */
  function ExperienceClean(sy: Option<nat>, sm: Option<nat>, ey: Option<nat>, em: Option<nat>): (r: Cleaned<()>)
    requires ValidChoice(sy, sm) && ValidChoice(ey, em)
    ensures sy.None? ==> r.Ok?
    ensures ExperienceCleanAsWritten(sy, sm, ey, em).ValueErrorRaised? ==> r.Ok?
    ensures r.Err? ==> r == Err("End date must be after start date.")
  {
    var startMonth := if sm.Some? then sm.value else 1;
    var endMonth := if em.Some? then em.value else 1;
    if sy.Some? && ey.Some? && MonthBefore(ey.value, endMonth, sy.value, startMonth)
    then Err("End date must be after start date.")
    else Ok(())
  }

  /**
   * An experience entry with a start year is rejected iff an end year is given
   * and the end month (January when missing) precedes the start month; where
   * the original does not raise, both agree.
   */
  lemma ExperienceRejection(sy: Option<nat>, sm: Option<nat>, ey: Option<nat>, em: Option<nat>)
    requires ValidChoice(sy, sm) && ValidChoice(ey, em)
    requires sy.Some?
    ensures ExperienceClean(sy, sm, ey, em).Err? <==>
      ey.Some? &&
      MonthBefore(ey.value, if em.Some? then em.value else 1, sy.value, if sm.Some? then sm.value else 1)
    ensures ExperienceClean(sy, sm, ey, em).Err? <==> ExperienceCleanAsWritten(sy, sm, ey, em).Fail?
  {
  }

  // ------------------------------------------------------------ ProjectForm

  /** `ProjectForm.clean_title`. */
  function CleanProjectTitle(title: string): (r: Cleaned<string>)
    ensures r.Ok? <==> |title| >= 3
    ensures r.Ok? ==> r.value == title
  {
    if title == [] then Err("Title is required.")
    else if |title| < 3 then Err("Title must be at least 3 characters long.")
    else Ok(title)
  }

  /** `ProjectForm.clean_description`: required, then at most 1000, then at least 10. */
  function CleanProjectDescription(description: string): (r: Cleaned<string>)
    ensures r.Ok? <==> 10 <= |description| <= 1000
    ensures |description| > 1000 ==> r == Err("Description cannot exceed 1000 characters.")
  {
    if description == [] then Err("Description cannot be empty.")
    else if |description| > 1000 then Err("Description cannot exceed 1000 characters.")
    else if |description| < 10 then Err("Description must be at least 10 characters long.")
    else Ok(description)
  }

  /** `ProjectForm.clean_technologies_used`. */
  function CleanTechnologies(tech: string): (r: Cleaned<string>)
    ensures r.Ok? <==> |tech| <= 300
  {
    if tech != [] && |tech| > 300 then Err("Technologies field is too long (maximum 300 characters).") else Ok(tech)
  }

  /** `ProjectForm.clean`: fields missing from `cleaned_data` are `None`. */
  function ProjectClean(title: Option<string>, description: Option<string>): (r: Cleaned<()>)
    ensures r.Err? <==> (title.Some? && description.Some? && title.value != [] && description.value != [] &&
                         Contains(Lower(description.value), Lower(title.value)))
  {
    if title.Some? && description.Some? && title.value != [] && description.value != [] &&
      Contains(Lower(description.value), Lower(title.value))
    then Err("Project description should not just repeat the title.")
    else Ok(())
  }

  /** Field cleaning followed by `clean()`: a field that fails is absent from `cleaned_data`. */
  function ProjectFormValid(title: string, description: string): bool {
    var t := CleanProjectTitle(title);
    var d := CleanProjectDescription(description);
    t.Ok? && d.Ok? &&
      ProjectClean(if t.Ok? then Some(t.value) else None, if d.Ok? then Some(d.value) else None).Ok?
  }

  /**
   * A project is rejected exactly when the title is shorter than 3, the
   * description lies outside 10..1000, or the lowercased title occurs in the
   * lowercased description.
   */
  lemma ProjectRejection(title: string, description: string)
    ensures !ProjectFormValid(title, description) <==>
      |title| < 3 || |description| < 10 || |description| > 1000 ||
      Contains(Lower(description), Lower(title))
  {
  }

  /** Changing only letter case in the title cannot rescue a repeated title. */
  lemma ProjectRepeatIgnoresCase(title: string, description: string)
    requires title != [] && description != []
    ensures ProjectClean(Some(title), Some(description)) == ProjectClean(Some(Lower(title)), Some(description))
  {
    LowerIdempotent(title);
  }

  // ------------------------------------------------------------ paired fields

  /** `SkillForm.clean`: a name (non-blank after stripping) and a level go together. */
  function SkillClean(name: string, level: string): (r: Cleaned<()>)
    ensures r.Ok? <==> (Strip(name) != [] <==> level != [])
  {
    if name != [] && Strip(name) != [] && level == [] then Err("Please select a proficiency level for this skill.")
    else if level != [] && !(name != [] && Strip(name) != []) then Err("Please enter a skill name.")
    else Ok(())
  }

  /** `SkillForm.is_empty`. */
  function SkillIsEmpty(name: string, level: string): (r: bool)
    ensures r <==> name == [] || level == []
  {
    !(name != [] && level != [])
  }

  /** A valid skill row is empty exactly when its name is blank. */
  lemma SkillValidEmpty(name: string, level: string)
    requires SkillClean(name, level).Ok?
    ensures SkillIsEmpty(name, level) <==> Strip(name) == []
  {
    if name == [] { assert AllSpace(name); }
  }

  /**
   * `LanguageForm.clean` on the cleaned data: both given or both absent.
   * `name` is what the form's CharField hands over, already stripped.
   */
  function LanguageClean(name: string, proficiency: string): (r: Cleaned<()>)
    ensures r.Ok? <==> (name != [] <==> proficiency != [])
  {
    if name != [] && proficiency == [] then Err("Please select a proficiency level for this language.")
    else if proficiency != [] && name == [] then Err("Please enter a language name.")
    else Ok(())
  }

  /** The language row as the form runs it: the name field strips the submitted text before `clean`. */
  function LanguageFormClean(rawName: string, proficiency: string): (r: Cleaned<()>)
    ensures r.Ok? <==> (Strip(rawName) != [] <==> proficiency != [])
  {
    LanguageClean(Strip(rawName), proficiency)
  }

  /**
   * A language row is judged exactly as a skill row: a whitespace-only
   * name counts as no name in both, because the field strips it.
   */
  lemma LanguageRowLikeSkill(rawName: string, proficiency: string)
    ensures LanguageFormClean(rawName, proficiency).Ok? <==> SkillClean(rawName, proficiency).Ok?
    ensures LanguageFormClean(" ", "").Ok?
  {
    assert AllSpace(" ");
  }

  // ------------------------------------------------------------ HobbyForm

  /** Python `str.isdigit()`: non-empty and all digits. */
  predicate PyIsDigit(s: string) { s != [] && AllDigits(s) }

  /**
   * `HobbyForm.clean_name` on its own: a non-blank name made only of
   * digits is refused, any other non-blank name comes back stripped, and a
   * blank one comes back as it is.
   */
  function HobbyCleanName(name: string): (r: Cleaned<string>)
    ensures name != [] && Strip(name) != [] && PyIsDigit(name) ==> r.Err?
    ensures r.Ok? ==> r.value == (if Strip(name) != [] then Strip(name) else name)
  {
    if name != [] && Strip(name) != [] then
      if PyIsDigit(name) then Err("Hobby name cannot be a number.") else Ok(Strip(name))
    else Ok(name)
  }

  /**
   * The hobby name as the form runs it: the model's CharField strips the
   * submitted text, then `clean_name` runs.  A name is refused iff its
   * stripped form is a number, and an accepted name is the stripped text.
   */
  function HobbyFormName(raw: string): (r: Cleaned<string>)
    ensures r.Ok? <==> !PyIsDigit(Strip(raw))
    ensures r.Ok? ==> r.value == Strip(raw) && !PyIsDigit(r.value)
  {
    StripIdempotent(raw);
    HobbyCleanName(Strip(raw))
  }

  /**
   * `clean_name` alone would let a number through when spaces surround it;
   * the form refuses it only because the field has stripped it first.
   */
  lemma HobbyCleanNameReliesOnStrip()
    ensures HobbyCleanName(" 42") == Ok("42")
    ensures HobbyFormName(" 42").Err?
  {
    var s := " 42";
    assert !IsSpace(s[1]) && !IsSpace(s[2]);
    assert LeadLen(s[1..]) == 0;
    assert LeadLen(s) == 1;
    assert TrailLen(s) == 0;
    assert s[1..3] == "42";
  }

  // ------------------------------------------------------------ SummaryForm

  /** `SummaryForm.clean_content`. */
  function CleanSummary(raw: string): (r: Cleaned<string>)
    ensures r.Ok? ==> r.value == Strip(raw) && 30 <= |r.value| <= 1000 && HasAlpha(r.value)
  {
    var c := Strip(raw);
    if c == [] then Err("Summary cannot be empty.")
    else if |c| < 30 then Err("Summary must be at least 30 characters long.")
    else if |c| > 1000 then Err("Summary cannot exceed 1000 characters.")
    else if PyIsDigit(c) || !HasAlpha(c) then Err("Please write a valid summary using meaningful words.")
    else Ok(c)
  }

  /**
   * Summary content is accepted iff, stripped, its length is 30..1000 and it
   * has a letter; the `isdigit()` test adds nothing, as a string of digits has
   * no letter.
   */
  lemma SummaryAccepted(raw: string)
    ensures CleanSummary(raw).Ok? <==> 30 <= |Strip(raw)| <= 1000 && HasAlpha(Strip(raw))
  {
  }

  // ------------------------------------------------------------ SuccessStoryForm

  const BadWords: seq<string> := ["badword1", "badword2", "idiot", "stupid", "nonsense", "damn", "hell"]

  /** `\b{w}\b` with IGNORECASE matches at position i of `text`. */
  predicate WordAt(text: string, w: string, i: int) {
    0 <= i && i + |w| <= |text| && Lower(text[i..i + |w|]) == w &&
    (i == 0 || !IsWordChar(text[i - 1])) &&
    (i + |w| == |text| || !IsWordChar(text[i + |w|]))
  }

  predicate HasWord(text: string, w: string) { exists i :: 0 <= i <= |text| && WordAt(text, w, i) }

  /** The first word of `words`, in list order, that `pattern.search` finds. */
  function FirstBadWord(text: string, words: seq<string>): (r: Option<nat>)
    ensures r.Some? ==> (r.value < |words| && HasWord(text, words[r.value]) &&
                         forall k :: 0 <= k < r.value ==> !HasWord(text, words[k]))
    ensures r.None? ==> forall k :: 0 <= k < |words| ==> !HasWord(text, words[k])
  {
    if words == [] then None
    else if HasWord(text, words[0]) then Some(0)
    else
      var rest := FirstBadWord(text, words[1..]);
      if rest.Some? then Some(rest.value + 1) else None
  }

  /** `clean_story` (and, with its own message, `clean_title`). */
  function CleanStory(story: string): (r: Cleaned<string>)
    ensures r.Ok? <==> forall k :: 0 <= k < |BadWords| ==> !HasWord(story, BadWords[k])
    ensures r.Ok? ==> r.value == story
  {
    if FirstBadWord(story, BadWords).Some?
    then Err("Your story contains inappropriate language. Please remove it and try again.")
    else Ok(story)
  }

  function CleanStoryTitle(title: string): (r: Cleaned<string>)
    ensures r.Ok? <==> forall k :: 0 <= k < |BadWords| ==> !HasWord(title, BadWords[k])
    ensures r.Ok? ==> r.value == title
  {
    if FirstBadWord(title, BadWords).Some?
    then Err("Your title contains inappropriate language. Please choose a more appropriate title.")
    else Ok(title)
  }

  lemma WordCharLower(c: char)
    ensures IsWordChar(LowerChar(c)) <==> IsWordChar(c)
  {
  }

  /** Lowercasing commutes with taking a slice. */
  lemma {:induction false} LowerSlice(s: string, i: int, j: int)
    requires 0 <= i <= j <= |s|
    ensures Lower(s)[i..j] == Lower(s[i..j])
    decreases |s|
  {
    if i > 0 {
      LowerSlice(s[1..], i - 1, j - 1);
      assert s[1..][i - 1..j - 1] == s[i..j];
    } else if j > 0 {
      LowerSlice(s[1..], 0, j - 1);
      assert s[1..][0..j - 1] == s[0..j][1..];
    }
  }

  /** Lowercasing a slice of the lowercased text is lowercasing the slice. */
  lemma LowerSliceTwice(s: string, i: int, j: int)
    requires 0 <= i <= j <= |s|
    ensures Lower(Lower(s)[i..j]) == Lower(s[i..j])
  {
    LowerSlice(s, i, j);
    LowerIdempotent(s[i..j]);
  }

  /** The screen ignores letter case: lowercasing the text finds the same words. */
  lemma HasWordIgnoresCase(text: string, w: string)
    ensures HasWord(Lower(text), w) <==> HasWord(text, w)
  {
    forall i | 0 <= i <= |text| ensures WordAt(Lower(text), w, i) <==> WordAt(text, w, i) {
      WordAtIgnoresCase(text, w, i);
    }
  }

  /** One position at a time: the match and both word boundaries survive lowercasing. */
  lemma WordAtIgnoresCase(text: string, w: string, i: int)
    requires 0 <= i <= |text|
    ensures WordAt(Lower(text), w, i) <==> WordAt(text, w, i)
  {
    if i + |w| <= |text| {
      LowerWindow(text, w, i);
      if i > 0 { LowerNeighbour(text, i - 1); }
      if i + |w| < |text| { LowerNeighbour(text, i + |w|); }
      WordAtSameShape(Lower(text), text, w, i);
    }
  }

  /** The lowercased window of the lowercased text is the lowercased window. */
  lemma LowerWindow(text: string, w: string, i: int)
    requires 0 <= i && i + |w| <= |text|
    ensures |Lower(text)| == |text|
    ensures Lower(Lower(text)[i..i + |w|]) == Lower(text[i..i + |w|])
  {
    LowerSliceTwice(text, i, i + |w|);
  }

  /** Lowercasing keeps a character a word character or not. */
  lemma LowerNeighbour(text: string, k: int)
    requires 0 <= k < |text|
    ensures IsWordChar(Lower(text)[k]) <==> IsWordChar(text[k])
  {
    WordCharLower(text[k]);
  }

  /** Two texts of one length that agree on the lowercased window and on the
      word-ness of its neighbours have a whole-word match at the same places. */
  lemma WordAtSameShape(t: string, text: string, w: string, i: int)
    requires |t| == |text| && 0 <= i && i + |w| <= |text|
    requires Lower(t[i..i + |w|]) == Lower(text[i..i + |w|])
    requires i > 0 ==> (IsWordChar(t[i - 1]) <==> IsWordChar(text[i - 1]))
    requires i + |w| < |text| ==> (IsWordChar(t[i + |w|]) <==> IsWordChar(text[i + |w|]))
    ensures WordAt(t, w, i) <==> WordAt(text, w, i)
  {
  }

  /** A listed word only counts as a whole word: "hello" does not trip "hell". */
  lemma BadWordWholeWordOnly()
    ensures !HasWord("hello", "hell")
    ensures HasWord("what the hell", "hell")
  {
    var t := "what the hell";
    assert t[9..13] == "hell";
    assert Lower("hell") == "hell";
    assert WordAt(t, "hell", 9);
    forall i ensures !WordAt("hello", "hell", i) {
      if 0 <= i && i + 4 <= 5 && i != 0 {
        assert i == 1;
        assert "hello"[1..5] == "ello";
        assert Lower("ello")[0] == 'e';
      }
    }
  }
}
