/**
 * Decision logic of the portfolio views (backend/users/views.py): the
 * eleven-step progress counter, the personal-information gate, the
 * username/email availability endpoint, suggestion lists, the template-change
 * and portfolio-slot quotas, and the profile-completion figures.  Queries
 * such as `Education.objects.filter(...).exists()` become booleans and sets.
 */
module Views {
  import opened Text
  import opened Wrappers
  import opened Models

  // ------------------------------------------------------------ progress

  /** Which portfolio sections have at least one saved row. */
  datatype Sections = Sections(
    education: bool, projects: bool, experience: bool, certifications: bool,
    skills: bool, languages: bool, hobbies: bool, summary: bool)

  const TotalSteps: nat := 11

  /** `int((part / whole) * 100)`; the float expression truncates to this for the wholes 7 and 11. */
  function TruncPercent(part: nat, whole: nat): nat
    requires whole > 0
  {
    part * 100 / whole
  }

  /** The number of keys 1..n whose entry in `m` is true. */
  function CountDone(m: map<int, bool>, n: nat): (c: nat)
    requires forall k :: 1 <= k <= n ==> k in m
    ensures c <= n
  {
    if n == 0 then 0 else CountDone(m, n - 1) + Bit(m[n])
  }

  /** The truthiness test of step 1: the six fields are non-empty (not stripped). */
  predicate Step1Done(p: ProfileInfo) {
    p.firstName != [] && p.lastName != [] && p.email != [] && p.contact != [] && p.address != [] && p.pinCode != []
  }

  predicate AnySocialLink(p: ProfileInfo) {
    p.githubLink != [] || p.facebookLink != [] || p.instagramLink != [] || p.otherSocialLink != []
  }

  function Bit(b: bool): nat {
    if b then 1 else 0
  }

  /** Flagging an unflagged step raises the count by one. */
  lemma {:induction false} CountDoneSet(m: map<int, bool>, n: nat, k: int, v: bool)
    requires forall j :: 1 <= j <= n ==> j in m
    requires 1 <= k <= n && !m[k]
    ensures CountDone(m[k := v], n) == CountDone(m, n) + Bit(v)
  {
    if n > k {
      CountDoneSet(m, n - 1, k, v);
    } else {
      CountDoneFrame(m, n - 1, k, v);
    }
  }

  /** Setting a key above `n` leaves the count up to `n` alone. */
  lemma {:induction false} CountDoneFrame(m: map<int, bool>, n: nat, k: int, v: bool)
    requires forall j :: 1 <= j <= n ==> j in m
    requires k > n
    ensures CountDone(m[k := v], n) == CountDone(m, n)
  {
    if n > 0 { CountDoneFrame(m, n - 1, k, v); }
  }

  /** The eleven step numbers, each mapped to `false`. */
  const NoSteps: map<int, bool> := map k | 1 <= k <= 11 :: false

  lemma {:induction false} CountDoneNone(n: nat)
    requires n <= 11
    ensures CountDone(NoSteps, n) == 0
  {
    if n > 0 { CountDoneNone(n - 1); }
  }

  /**
   * One check of `calculate_portfolio_progress`: when `done`, count the step
   * and flag it.  The counter always equals the number of flagged steps.
   */
  method MarkStep(completed: nat, steps: map<int, bool>, k: nat, done: bool)
    returns (completed': nat, steps': map<int, bool>)
    requires 1 <= k <= 11
    requires forall j :: j in steps <==> 1 <= j <= 11
    requires !steps[k] && completed == CountDone(steps, 11)
    ensures forall j :: j in steps' <==> 1 <= j <= 11
    ensures steps'[k] == done && forall j :: 1 <= j <= 11 && j != k ==> steps'[j] == steps[j]
    ensures completed' == CountDone(steps', 11)
  {
    CountDoneSet(steps, 11, k, done);
    completed' := completed;
    steps' := steps[k := done];
    if done {
      completed' := completed + 1;
    }
  }

  /** `calculate_portfolio_progress`: the eleven checks in order, then the percentage. */
  method CalculatePortfolioProgress(p: ProfileInfo, s: Sections)
    returns (completedSteps: nat, stepCompletion: map<int, bool>, progressPercentage: nat, progressWidth: nat)
    ensures forall k :: k in stepCompletion <==> 1 <= k <= 11
    ensures completedSteps == CountDone(stepCompletion, 11)
    ensures stepCompletion[1] <==> Step1Done(p)
    ensures stepCompletion[2] == s.education && stepCompletion[3] == s.projects
    ensures stepCompletion[4] == s.experience && stepCompletion[5] == s.certifications
    ensures stepCompletion[6] == s.skills && stepCompletion[7] == s.languages && stepCompletion[8] == s.hobbies
    ensures stepCompletion[9] <==> p.extracurricular != []
    ensures stepCompletion[10] == s.summary
    ensures stepCompletion[11] <==> AnySocialLink(p)
    ensures progressPercentage == progressWidth == TruncPercent(completedSteps, TotalSteps)
  {
    CountDoneNone(11);
    completedSteps, stepCompletion := 0, NoSteps;
    completedSteps, stepCompletion := MarkStep(completedSteps, stepCompletion, 1, Step1Done(p));
    completedSteps, stepCompletion := MarkStep(completedSteps, stepCompletion, 2, s.education);
    completedSteps, stepCompletion := MarkStep(completedSteps, stepCompletion, 3, s.projects);
    completedSteps, stepCompletion := MarkStep(completedSteps, stepCompletion, 4, s.experience);
    completedSteps, stepCompletion := MarkStep(completedSteps, stepCompletion, 5, s.certifications);
    completedSteps, stepCompletion := MarkStep(completedSteps, stepCompletion, 6, s.skills);
    completedSteps, stepCompletion := MarkStep(completedSteps, stepCompletion, 7, s.languages);
    completedSteps, stepCompletion := MarkStep(completedSteps, stepCompletion, 8, s.hobbies);
    completedSteps, stepCompletion := MarkStep(completedSteps, stepCompletion, 9, p.extracurricular != []);
    completedSteps, stepCompletion := MarkStep(completedSteps, stepCompletion, 10, s.summary);
    completedSteps, stepCompletion := MarkStep(completedSteps, stepCompletion, 11, AnySocialLink(p));
    progressPercentage := completedSteps * 100 / TotalSteps;
    progressWidth := completedSteps * 100 / TotalSteps;
  }

  /**
   * The percentage is 0 with no step done, 100 only with all eleven, and
   * strictly between otherwise.
   */
  lemma ProgressPercentRange(c: nat)
    requires c <= TotalSteps
    ensures TruncPercent(c, TotalSteps) == 0 <==> c == 0
    ensures TruncPercent(c, TotalSteps) == 100 <==> c == TotalSteps
    ensures TruncPercent(c, TotalSteps) <= 100
  {
    if c == 0 {
    } else if c < 11 {
      assert 100 <= c * 100 < 1100;
    } else {
      assert c * 100 == 1100;
    }
  }

  /** One more completed step always raises the percentage. */
  lemma ProgressPercentStrictlyIncreasing(a: nat, b: nat)
    requires a < b <= TotalSteps
    ensures TruncPercent(a, TotalSteps) < TruncPercent(b, TotalSteps)
  {
    assert b * 100 >= a * 100 + 100;
    assert (a * 100 / 11) * 11 <= a * 100;
    assert (b * 100 / 11) * 11 > b * 100 - 11;
  }

  /** `field and field.strip()`. */
  predicate NonBlank(f: string) {
    f != [] && Strip(f) != []
  }

  /** `is_personal_info_completed`: every one of the six fields has a non-blank character. */
  function IsPersonalInfoCompleted(p: ProfileInfo): (r: bool)
    ensures r ==> Step1Done(p)
    ensures r <==> !AllSpace(p.firstName) && !AllSpace(p.lastName) && !AllSpace(p.email) &&
                   !AllSpace(p.contact) && !AllSpace(p.address) && !AllSpace(p.pinCode)
  {
    NonBlank(p.firstName) && NonBlank(p.lastName) && NonBlank(p.email) &&
    NonBlank(p.contact) && NonBlank(p.address) && NonBlank(p.pinCode)
  }

  /** The converse of the gate fails: whitespace-only fields complete step 1 but not the gate. */
  lemma Step1WithoutGate()
    ensures var p := ProfileInfo(" ", " ", " ", " ", " ", " ", "", "", "", "", "", "", "");
      Step1Done(p) && !IsPersonalInfoCompleted(p)
  {
    assert AllSpace(" ");
  }

  /** The three cases of the test suite: empty, first and last name only, and all six filled. */
  lemma PersonalInfoCompletionCases()
    ensures !IsPersonalInfoCompleted(ProfileInfo("", "", "", "", "", "", "", "", "", "", "", "", ""))
    ensures !IsPersonalInfoCompleted(ProfileInfo("John", "Doe", "", "", "", "", "", "", "", "", "", "", ""))
    ensures IsPersonalInfoCompleted(ProfileInfo("John", "Doe", "john@example.com", "1234567890",
                                                "123 Main St", "123456", "", "", "", "", "", "", ""))
  {
    assert !IsSpace("John"[0]) && !IsSpace("Doe"[0]) && !IsSpace("john@example.com"[0]);
    assert !IsSpace("1234567890"[0]) && !IsSpace("123 Main St"[0]) && !IsSpace("123456"[0]);
  }

  /** `enforce_personal_info_completion`: a redirect to the first personal-info step, or none. */
  function EnforcePersonalInfoCompletion(p: ProfileInfo): (redirect: Option<string>)
    ensures redirect.None? <==> IsPersonalInfoCompleted(p)
    ensures redirect.Some? ==> redirect.value == "personal_info1"
  {
    if !IsPersonalInfoCompleted(p) then Some("personal_info1") else None
  }

  // ------------------------------------------------------------ availability

  datatype AvailabilityResponse =
    | BadRequest(error: string)
    | Unavailable(error: string)
    | Checked(available: bool, field: string, value: string)

  /**
   * `check_availability`: `field`/`value` are the query parameters (`None`
   * when absent); `usernames` and `emails` are the addresses already taken.
   */
  function CheckAvailability(field: Option<string>, value: Option<string>, usernames: set<string>, emails: set<string>)
    : (r: AvailabilityResponse)
    ensures r.BadRequest? <==>
      field.None? || field.value == [] || value.None? || value.value == [] ||
      (field.value != "username" && field.value != "email")
    ensures r.Unavailable? <==>
      field.Some? && value.Some? && value.value != [] &&
      ((field.value == "username" && |Strip(value.value)| < 3) ||
       (field.value == "email" && (|Strip(value.value)| < 5 || '@' !in Strip(value.value))))
    ensures r.Checked? ==> r.value == Strip(value.value) && r.field == field.value
    ensures r.Checked? && r.field == "username" ==> |r.value| >= 3 && (r.available <==> r.value !in usernames)
    ensures r.Checked? && r.field == "email" ==>
      |r.value| >= 5 && '@' in r.value && (r.available <==> r.value !in emails)
  {
    if field.None? || field.value == [] || value.None? || value.value == [] then
      BadRequest("Missing field or value parameter")
    else
      var v := Strip(value.value);
      if field.value == "username" then
        if |v| < 3 then Unavailable("Username must be at least 3 characters")
        else Checked(v !in usernames, field.value, v)
      else if field.value == "email" then
        if |v| < 5 || '@' !in v then Unavailable("Invalid email format")
        else Checked(v !in emails, field.value, v)
      else BadRequest("Invalid field parameter")
  }

  /** A short username or a malformed email is reported unavailable, never checked against the database. */
  lemma AvailabilityRejectsShort(field: string, value: string, usernames: set<string>, emails: set<string>)
    requires value != []
    requires (field == "username" && |Strip(value)| < 3) ||
             (field == "email" && (|Strip(value)| < 5 || '@' !in Strip(value)))
    ensures CheckAvailability(Some(field), Some(value), usernames, emails).Unavailable?
  {
  }

  /** A long enough username or a well-shaped email is always looked up: available iff not taken. */
  lemma AvailabilityLooksUp(field: string, value: string, usernames: set<string>, emails: set<string>)
    requires value != []
    requires (field == "username" && |Strip(value)| >= 3) ||
             (field == "email" && |Strip(value)| >= 5 && '@' in Strip(value))
    ensures var r := CheckAvailability(Some(field), Some(value), usernames, emails);
      r.Checked? && r.value == Strip(value) &&
      (r.available <==> Strip(value) !in (if field == "username" then usernames else emails))
  {
  }

  // ------------------------------------------------------------ suggestions

  const CommonHobbies: seq<string> := [
    "Reading", "Traveling", "Music", "Sports", "Cooking", "Photography", "Drawing", "Gardening",
    "Dancing", "Writing", "Cycling", "Hiking", "Gaming", "Yoga", "Painting", "Swimming", "Volunteering",
    "Crafting", "Meditation", "Blogging", "Fishing", "Running", "Chess", "Movies", "Board Games"]

  /** The hobbies whose lowercase form contains `content`, in list order. */
  function MatchingHobbies(hobbies: seq<string>, content: string): (r: seq<string>)
    ensures |r| <= |hobbies|
    ensures forall h :: h in r <==> h in hobbies && Contains(Lower(h), content)
    ensures |hobbies| == 1 ==> r == (if Contains(Lower(hobbies[0]), content) then hobbies else [])
  {
    if hobbies == [] then []
    else
      var rest := MatchingHobbies(hobbies[1..], content);
      if Contains(Lower(hobbies[0]), content) then [hobbies[0]] + rest else rest
  }

  /**
   * The comprehension keeps list order: the matches in `a + b` are those in
   * `a` followed by those in `b`.  With the one-hobby case this pins the
   * matches down as the order-keeping filter.
   */
  lemma {:induction false} MatchingHobbiesAppend(a: seq<string>, b: seq<string>, content: string)
    ensures MatchingHobbies(a + b, content) == MatchingHobbies(a, content) + MatchingHobbies(b, content)
  {
    if a == [] {
      assert a + b == b;
    } else {
      assert (a + b)[0] == a[0] && (a + b)[1..] == a[1..] + b;
      MatchingHobbiesAppend(a[1..], b, content);
      var head := if Contains(Lower(a[0]), content) then [a[0]] else [];
      assert MatchingHobbies(a, content) == head + MatchingHobbies(a[1..], content);
      assert MatchingHobbies(a + b, content) == head + MatchingHobbies(a[1..] + b, content);
    }
  }

  /**
   * `suggest_hobby_view`: the first five of `hobbies` (the view passes
   * `CommonHobbies`) matching the stripped, lowercased content, in list
   * order; `None` where the view falls back to a random sample.
   */
  function SuggestHobbies(hobbies: seq<string>, content: string): (r: Option<seq<string>>)
    ensures r.Some? ==> 1 <= |r.value| <= 5
    ensures r.Some? ==> forall h :: h in r.value ==> h in hobbies && Contains(Lower(h), Lower(Strip(content)))
    ensures r.Some? ==> r.value == Take(MatchingHobbies(hobbies, Lower(Strip(content))), 5)
    ensures r.None? <==> Strip(content) == [] || MatchingHobbies(hobbies, Lower(Strip(content))) == []
  {
    var c := Lower(Strip(content));
    if c != [] then
      var matches := MatchingHobbies(hobbies, c);
      if matches != [] then Some(if |matches| <= 5 then matches else matches[..5]) else None
    else None
  }

  /** With fewer than five suggestions, every matching hobby is among them. */
  lemma SuggestHobbiesComplete(hobbies: seq<string>, content: string, h: string)
    requires SuggestHobbies(hobbies, content).Some? && |SuggestHobbies(hobbies, content).value| < 5
    requires h in hobbies && Contains(Lower(h), Lower(Strip(content)))
    ensures h in SuggestHobbies(hobbies, content).value
  {
    var matches := MatchingHobbies(hobbies, Lower(Strip(content)));
    assert h in matches;
    assert SuggestHobbies(hobbies, content).value == matches;
  }

  predicate Distinct(xs: seq<string>) {
    forall i, j :: 0 <= i < j < |xs| ==> xs[i] != xs[j]
  }

  /** The position of the first `x` in `xs`. */
  function FirstPos(xs: seq<string>, x: string): (p: nat)
    requires x in xs
    ensures p < |xs| && xs[p] == x && x !in xs[..p]
  {
    if xs[0] == x then 0
    else
      var p := 1 + FirstPos(xs[1..], x);
      assert xs[..p] == [xs[0]] + xs[1..][..p - 1];
      p
  }

  /** A position holding `x` with no `x` before it is the first position. */
  lemma FirstPosIs(xs: seq<string>, x: string, p: nat)
    requires p < |xs| && xs[p] == x && x !in xs[..p]
    ensures FirstPos(xs, x) == p
  {
  }

  /** Appending an element leaves the first positions of the earlier strings where they were. */
  lemma FirstPosSnoc(xs: seq<string>, x: string, y: string)
    requires y in xs
    ensures FirstPos(xs + [x], y) == FirstPos(xs, y)
  {
    var q := FirstPos(xs, y);
    assert (xs + [x])[..q] == xs[..q];
    FirstPosIs(xs + [x], y, q);
  }

  /**
   * `list(dict.fromkeys(xs))`: the strings of `xs`, each once, ordered by
   * where each first occurs.  Like the dictionary, it walks `xs` left to
   * right and appends a string only the first time it is seen.
   */
  function Dedupe(xs: seq<string>): (r: seq<string>)
    ensures forall x :: x in r <==> x in xs
    ensures Distinct(r)
    ensures |r| <= |xs|
    ensures forall i, j :: 0 <= i < j < |r| ==> FirstPos(xs, r[i]) < FirstPos(xs, r[j])
  {
    if xs == [] then []
    else
      var init, x := xs[..|xs| - 1], xs[|xs| - 1];
      assert xs == init + [x];
      var d := Dedupe(init);
      forall y | y in init ensures FirstPos(xs, y) == FirstPos(init, y) {
        FirstPosSnoc(init, x, y);
      }
      if x in d then d
      else
        assert FirstPos(xs, x) == |init| by { FirstPosIs(xs, x, |init|); }
        d + [x]
  }

  /** Deduplicating twice changes nothing. */
  lemma {:induction false} DedupeIdempotent(xs: seq<string>)
    ensures Dedupe(Dedupe(xs)) == Dedupe(xs)
  {
    DedupeDistinct(Dedupe(xs));
  }

  /** A list without duplicates is its own deduplication. */
  lemma {:induction false} DedupeDistinct(xs: seq<string>)
    requires Distinct(xs)
    ensures Dedupe(xs) == xs
  {
    if xs != [] {
      var init := xs[..|xs| - 1];
      assert Distinct(init);
      assert xs[|xs| - 1] !in init;
      DedupeDistinct(init);
    }
  }

  /** `s[:1].upper() + s[1:]`. */
  function Capitalize(s: string): (r: string)
    ensures |r| == |s|
    ensures s != [] ==> r[0] == UpperChar(s[0]) && r[1..] == s[1..]
  {
    if s == [] then [] else [UpperChar(s[0])] + s[1..]
  }

  /** `xs[:n]`: the first `n` entries, or all of them when there are fewer. */
  function Take(xs: seq<string>, n: nat): (r: seq<string>)
    ensures |r| == (if n <= |xs| then n else |xs|) && r == xs[..|r|]
    ensures forall x :: x in r ==> x in xs
    ensures Distinct(xs) ==> Distinct(r)
  {
    if |xs| <= n then xs else xs[..n]
  }

  const EnhancedLead := "Enhanced version: "
  const ImprovedLead := "Improved description: "

  /**
   * The two rewritten versions offered for a long description: each
   * carries the description, first character upper-cased, between its own
   * lead and tail, and the two differ.
   */
  function Improvements(d: string): (r: seq<string>)
    ensures |r| == 2 && r[0] != r[1]
    ensures |r[0]| == |EnhancedLead| + |d| + |EnhancedTail| && |r[1]| == |ImprovedLead| + |d| + |ImprovedTail|
    ensures r[0][|EnhancedLead|..|EnhancedLead| + |d|] == Capitalize(d)
    ensures r[1][|ImprovedLead|..|ImprovedLead| + |d|] == Capitalize(d)
  {
    var e, i := EnhancedLead + Capitalize(d) + EnhancedTail, ImprovedLead + Capitalize(d) + ImprovedTail;
    assert e[0] != i[0];
    [e, i]
  }

  const EnhancedTail: string :=
    " The project demonstrates strong technical skills and professional development practices."
  const ImprovedTail: string :=
    " This work showcases problem-solving abilities and attention to detail."


  /**
   * The tail of `suggest_project_description`: template and general
   * suggestions de-duplicated in first-occurrence order and capped at
   * five; a description longer than 20 characters puts the two
   * improvement texts first, followed by the first three of the others.
   */
  function ProjectSuggestions(suggestions: seq<string>, general: seq<string>, currentDescription: string)
    : (r: seq<string>)
    ensures |r| <= 5
    ensures |currentDescription| <= 20 ==> Distinct(r)
    ensures |currentDescription| <= 20 ==>
      var d := Dedupe(suggestions + general);
      |r| == (if 5 <= |d| then 5 else |d|) && r == d[..|r|]
    ensures |currentDescription| > 20 ==> |r| >= 2 && r[..2] == Improvements(currentDescription)
    ensures |currentDescription| > 20 ==>
      var d := Dedupe(suggestions + general);
      |r| - 2 == (if 3 <= |d| then 3 else |d|) && r[2..] == d[..|r| - 2]
    ensures |currentDescription| > 20 ==> forall k :: 2 <= k < |r| ==> r[k] in suggestions + general
  {
    var d := Dedupe(suggestions + general);
    var head := Improvements(currentDescription);
    var long := currentDescription != [] && |currentDescription| > 20;
    var r := if long then head + Take(Take(d, 5), 3) else Take(d, 5);
    SuggestionList(d, suggestions + general, head, long, r);
    r
  }

  /**
   * The list the view returns, built from the deduplicated list `d` of
   * names drawn from `pool`: its first five, or the two improvements
   * followed by its first three.
   */
  lemma SuggestionList(d: seq<string>, pool: seq<string>, head: seq<string>, long: bool, r: seq<string>)
    requires Distinct(d) && (forall x :: x in d ==> x in pool) && |head| == 2
    requires r == (if long then head + Take(Take(d, 5), 3) else Take(d, 5))
    ensures |r| <= 5
    ensures !long ==> Distinct(r)
    ensures !long ==> |r| == (if 5 <= |d| then 5 else |d|) && r == d[..|r|]
    ensures long ==> |r| >= 2 && r[..2] == head
    ensures long ==> |r| - 2 == (if 3 <= |d| then 3 else |d|) && r[2..] == d[..|r| - 2]
    ensures long ==> forall k :: 2 <= k < |r| ==> r[k] in pool
  {
    if long {
      var tail := Take(Take(d, 5), 3);
      assert tail == d[..|tail|];
      assert r[..2] == head;
      assert r[2..] == tail;
    }
  }

  // ------------------------------------------------------------ quotas

  /** Agents and students count as paid; a normal user needs a payment row. */
  function HasPaid(userType: string, hasPayment: bool): (r: bool)
    ensures r <==> userType == "agent" || userType == "student" || hasPayment
  {
    if userType in ["agent", "student"] then true else hasPayment
  }

  datatype TemplateOutcome =
    | PaymentRequired
    | ChangeLimitReached
    | TemplateList
    | TemplateMissing
    | TemplateNotFound
    | TemplateChanged

  /**
   * `select_template`.  `templateId` is the posted `web_template_id` (`None`
   * when absent or empty) and `webTemplates` the ids of the web templates.
   */
  method SelectTemplate(profile: UserProfile, portfolio: StudentPortfolio, hasPayment: bool,
                        isPost: bool, templateId: Option<nat>, webTemplates: set<nat>)
    returns (outcome: TemplateOutcome)
    modifies profile`templateChangeCount, portfolio`template
    ensures outcome == PaymentRequired <==>
      old(profile.userType) == "normal" && !HasPaid(old(profile.userType), hasPayment)
    ensures outcome == ChangeLimitReached <==>
      outcome != PaymentRequired && !portfolio.isPaid && old(profile.templateChangeCount) >= profile.maxTemplateChanges
    ensures outcome == TemplateList <==>
      outcome != PaymentRequired && outcome != ChangeLimitReached && !isPost
    ensures outcome == TemplateMissing <==>
      outcome != PaymentRequired && outcome != ChangeLimitReached && isPost && templateId.None?
    ensures outcome == TemplateNotFound <==>
      outcome != PaymentRequired && outcome != ChangeLimitReached && isPost && templateId.Some? &&
      templateId.value !in webTemplates
    ensures outcome == TemplateChanged <==>
      outcome != PaymentRequired && outcome != ChangeLimitReached && isPost && templateId.Some? &&
      templateId.value in webTemplates
    ensures outcome == TemplateChanged ==> portfolio.template == Some(templateId.value)
    ensures outcome != TemplateChanged ==> portfolio.template == old(portfolio.template)
    ensures profile.templateChangeCount ==
      if outcome == TemplateChanged && old(portfolio.template) != Some(templateId.value)
      then old(profile.templateChangeCount) + 1 else old(profile.templateChangeCount)
    ensures !portfolio.isPaid && old(profile.templateChangeCount) <= profile.maxTemplateChanges ==>
      profile.templateChangeCount <= profile.maxTemplateChanges
  {
    var paid := HasPaid(profile.userType, hasPayment);
    if profile.userType == "normal" && !paid {
      return PaymentRequired;
    }
    if !portfolio.isPaid && profile.templateChangeCount >= profile.maxTemplateChanges {
      return ChangeLimitReached;
    }
    if !isPost {
      return TemplateList;
    }
    if templateId.None? {
      return TemplateMissing;
    }
    if templateId.value !in webTemplates {
      return TemplateNotFound;
    }
    if portfolio.template != Some(templateId.value) {
      if !portfolio.isPaid && profile.templateChangeCount >= profile.maxTemplateChanges {
        return ChangeLimitReached;
      }
      profile.templateChangeCount := profile.templateChangeCount + 1;
    }
    portfolio.template := Some(templateId.value);
    return TemplateChanged;
  }

  datatype CreateOutcome = PaymentNeeded | SlotsExhausted | UpdatedExisting | CreatedNew

  /**
   * `create_portfolio`.  `existing` is the user's first portfolio, if any;
   * `freshSlug` stands for the slug built from the username and a random uuid.
   */
  method CreatePortfolio(profile: UserProfile, existing: Option<StudentPortfolio>, hasPayment: bool, freshSlug: string)
    returns (outcome: CreateOutcome, portfolio: Option<StudentPortfolio>)
    modifies profile`portfoliosRemaining
    modifies if existing.Some? then {existing.value} else {}
    ensures outcome == PaymentNeeded <==>
      old(profile.userType) == "normal" && !HasPaid(old(profile.userType), hasPayment)
    ensures outcome == SlotsExhausted <==> outcome != PaymentNeeded && old(profile.portfoliosRemaining) <= 0
    ensures outcome == UpdatedExisting <==>
      outcome != PaymentNeeded && outcome != SlotsExhausted && existing.Some?
    ensures outcome == CreatedNew ==> (
      portfolio.Some? && fresh(portfolio.value) &&
      portfolio.value.slug == freshSlug && portfolio.value.status == "in_progress" &&
      portfolio.value.isPaid == HasPaid(profile.userType, hasPayment))
    ensures outcome == UpdatedExisting ==> (
      portfolio == existing &&
      existing.value.status == "in_progress" && existing.value.isPaid == HasPaid(profile.userType, hasPayment) &&
      existing.value.slug == old(existing.value.slug))
    ensures profile.portfoliosRemaining ==
      if outcome == CreatedNew then old(profile.portfoliosRemaining) - 1 else old(profile.portfoliosRemaining)
    ensures old(profile.portfoliosRemaining) >= 0 ==> profile.portfoliosRemaining >= 0
    ensures outcome == PaymentNeeded || outcome == SlotsExhausted ==> portfolio.None?
    ensures existing.Some? ==>
      existing.value.template == old(existing.value.template) && existing.value.slug == old(existing.value.slug)
    ensures existing.Some? && outcome != UpdatedExisting ==>
      existing.value.isPaid == old(existing.value.isPaid) && existing.value.status == old(existing.value.status)
    ensures outcome == CreatedNew ==> portfolio.value.template.None?
  {
    var paid := HasPaid(profile.userType, hasPayment);
    if profile.userType == "normal" && !paid {
      return PaymentNeeded, None;
    }
    if profile.portfoliosRemaining <= 0 {
      return SlotsExhausted, None;
    }
    if existing.Some? {
      existing.value.isPaid := paid;
      existing.value.status := "in_progress";
      return UpdatedExisting, existing;
    }
    var created := new StudentPortfolio(freshSlug, paid, "in_progress");
    profile.portfoliosRemaining := profile.portfoliosRemaining - 1;
    return CreatedNew, Some(created);
  }

  // ------------------------------------------------------------ user_profile

  /** `max(max_template_changes - template_change_count, 0)`. */
  function TemplateChangesLeft(count: int, max: int): (r: nat)
    ensures count <= max ==> r + count == max
    ensures count >= max ==> r == 0
  {
    if max - count > 0 then max - count else 0
  }

  const CompletionNames: seq<string> := ["First Name", "Last Name", "Email", "Contact", "Address", "Profile Photo", "Resume"]

  function CompletionFields(p: ProfileInfo): seq<string> {
    [p.firstName, p.lastName, p.email, p.contact, p.address, p.profilePhoto, p.resume]
  }

  /** The number of non-empty entries. */
  function Filled(fs: seq<string>): (n: nat)
    ensures n <= |fs|
  {
    if fs == [] then 0 else (if fs[0] != [] then 1 else 0) + Filled(fs[1..])
  }

  /** The names paired with empty entries, in order (`[name for name, f in zip(...) if not f]`). */
  function MissingNames(names: seq<string>, fs: seq<string>): (r: seq<string>)
    requires |names| == |fs|
    ensures |r| + Filled(fs) == |fs|
    ensures forall x :: x in r ==> x in names
  {
    if fs == [] then []
    else (if fs[0] == [] then [names[0]] else []) + MissingNames(names[1..], fs[1..])
  }

  /** The completion figures of `user_profile`: filled count, percentage and missing field names. */
  function ProfileCompletion(p: ProfileInfo): (r: (nat, nat, seq<string>))
    ensures r.0 + |r.2| == 7
    ensures r.1 == 100 <==> r.2 == []
    ensures r.1 == 0 <==> r.0 == 0
    ensures r.1 <= 100
    ensures r.1 == r.0 * 100 / 7
    ensures forall k :: 0 <= k < 7 ==> (CompletionNames[k] in r.2 <==> CompletionFields(p)[k] == [])
  {
    var fs := CompletionFields(p);
    forall k | 0 <= k < 7 ensures CompletionNames[k] in MissingNames(CompletionNames, fs) <==> fs[k] == [] {
      MissingNamesExact(CompletionNames, fs, k);
    }
    var filled := Filled(fs);
    var missing := MissingNames(CompletionNames, fs);
    assert filled * 100 <= 700;
    (filled, TruncPercent(filled, 7), missing)
  }

  /** A field is listed as missing iff it is empty. */
  lemma {:induction false} MissingNamesExact(names: seq<string>, fs: seq<string>, k: nat)
    requires |names| == |fs| && k < |fs|
    requires forall i, j :: 0 <= i < j < |names| ==> names[i] != names[j]
    ensures names[k] in MissingNames(names, fs) <==> fs[k] == []
  {
    if k > 0 {
      MissingNamesExact(names[1..], fs[1..], k - 1);
      assert names[k] == names[1..][k - 1];
      assert names[k] != names[0];
    } else if |fs| > 1 {
      MissingNotIn(names[1..], fs[1..], names[0]);
    }
  }

  lemma MissingNotIn(names: seq<string>, fs: seq<string>, x: string)
    requires |names| == |fs| && x !in names
    ensures x !in MissingNames(names, fs)
  {
  }
}
