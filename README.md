# Student portfolio platform: validation and decision rules in Dafny

This project models the decision logic of a Django portfolio builder for
students and agents. It covers the server-side rules in `backend/users` and the
client scripts that drive its forms and admin pages, and proves properties of
each.

The server side (Python) is modelled in these modules:

- **Forms**: the `clean_*` methods and `clean()` of the personal-info,
  registration, education, experience, project, skill, language, hobby,
  summary and success-story forms.
- **Views**: the portfolio wizard's decisions. This covers the 11-step progress
  counter, the personal-info gate, the availability rules, the hobby and project
  suggestion lists, the template-change and portfolio-slot counters, and the
  profile-completion arithmetic.
- **Models**: the profile role predicates, slug probing in
  `StudentPortfolio.save` and invoice numbers.
- **Middleware**, **Cache** and **Security**: the two rate limiters, the IP
  block list, the client-IP rule, the terms redirect, the no-cache rule and the
  attack and upload screens.
- **Monitoring**: the bounded buffers and per-type counters of the security,
  performance and error monitors.
- **Utils** and **PortfolioExtras**: `sanitize_filename`, the upload check, the
  JSON response helper, the signature guard and `split_technologies`.

The client side (JavaScript) is modelled with one module per script:

- **RegisterClean**: password strength and the registration gate.
- **Formset**: the skill and certification formsets.
- **ProjectForm**: project cards.
- **FormValidation**: length limits.
- **FormsScript**: the generic form script `forms.js`.
- **PersonalInfo** and **PersonalInfoModern**: the two personal-info scripts.
- **UserProfile**: the profile page.
- **SocialLinks**: the social-link fields.
- **Hobby**: hobby chips.
- **Auth**: the login and register pages.
- **StudentApprovals**, **Payments**, **Payouts** and **Notifications**: the admin pages.

A few modules are shared:

- **Wrappers**: Option and Result.
- **Text**: ASCII character classes, strip, lower, split, join and decimal numerals.
- **Patterns**: the email, profile-URL and website regular expressions as
  predicates, each proved equal to a description of its parts.
- **FieldChecks**: the submit loop that checks every field without stopping at
  the first failure.
- **Checkboxes**: the tri-state select-all.
- **Csv**: quoted lines with their read-back.
- **Nodes**: node identities on a page and their positions, so that a timer
  can find the card it was set for.

How the source's state is modelled:

- Objects the source updates in place are classes with `modifies` clauses.
  Examples are the rate limiters, the monitors, the cache, a formset page, a
  registration `validationState`, a draft store and a password toggle.
- Each of their methods is specified by a pure function of the old state, and
  the properties are proved about that function.
- DOM inputs are values: strings, sequences of records and maps by field name.
- Cards whose removal waits on a timer also carry a node identity, so a removal
  scheduled by one click finds its card after other cards have moved, or
  finds it gone.
- The browser's `new URL(...)` test is a parameter `urlParses`.
- `confirm`, fetch results and timer firings are parameters or separate method calls.
- Time stamps and sizes are integers.

Python's `re.match` with `$` also accepts one trailing newline. This is modelled
for the contact, PIN-code and name patterns, so a value ending in "\n" is
accepted there exactly as the pattern allows. Django's form fields strip their
input before `clean_*` runs, so in practice such a value does not arrive.

## Model

| member | source | states |
|---|---|---|
| Forms.CleanName | backend/users/forms.py:209-221 | `clean_first_name`/`clean_last_name` return the value unchanged when they accept it |
| Forms.NameAccepted | backend/users/forms.py:209-221 | a name is accepted iff it is non-empty and every character is an ASCII letter, whitespace, '-' or '\'' (the final newline `$` tolerates is itself whitespace) |
| Forms.NewlineKeepsName | backend/users/forms.py:211 | a name with one final newline is accepted whenever the name without it is, because that newline is itself whitespace |
| Forms.CleanContact | backend/users/forms.py:229-234 | an accepted contact is returned unchanged and is 10, 11, 13 or 14 characters long (11 and 14 only with a final newline, which the form field strips) |
| Forms.ContactThroughField | backend/users/forms.py:229-234 | a contact that reaches `clean_contact` through the stripping form field and is accepted has 10 or 13 characters |
| Forms.ContactAccepted | backend/users/forms.py:229-234 | without a final newline, a contact is accepted iff it is ten digits starting with 6..9, optionally preceded by "+91" |
| Forms.ContactNoSeparators | backend/users/forms.py:229-234 | an accepted contact has no space, '-' or '+' after its first three characters |
| Forms.CleanPinCode | backend/users/forms.py:236-240 | an accepted PIN code is returned unchanged |
| Forms.PinCodeAccepted | backend/users/forms.py:236-240 | a PIN code is accepted iff it is six digits, optionally followed by one newline |
| Forms.CleanEmailFormat | backend/users/forms.py:223-227 | `clean_email`, on the value it receives: an accepted email is returned unchanged and has an '@' that is not its first character |
| Forms.EmailPrefixExtends | backend/users/forms.py:223-227 | the pattern is anchored at the start only: anything appended to an accepted email is still accepted |
| Forms.RegistrationCleanEmail | backend/users/forms.py:169-175 | a taken address gets "Email already registered." before the format is looked at; otherwise the format check decides |
| Forms.CleanProfilePhoto | backend/users/forms.py:242-253 | accepted iff no new file was uploaded, or it is at most 2 MiB and JPEG or PNG; an oversized file gets the size message first |
| Forms.CleanDomainLink | backend/users/forms.py:272-291 | `clean_github_link`/`clean_facebook_link`/`clean_instagram_link`, on the value they receive: a link is accepted iff empty, or it contains the site's domain and starts with http:// or https://; it is returned unchanged |
| Forms.CleanSchemeLink | backend/users/forms.py:293-298 | `clean_other_social_link` (and the project link's `clean_*`), on the value it receives: a link is accepted iff empty or starting with http:// or https:// |
| Forms.GithubLinkExample | backend/users/forms.py:272-277 | `clean_github_link` alone accepts "https://github.com/octo" and refuses "github.com/octo", which has no scheme |
| Forms.CleanCapped | backend/users/forms.py:375-392 | a strip-then-cap field is accepted iff its stripped length is at most the cap, and the stripped value is what is returned |
| Forms.CleanOptionalDescription | backend/users/forms.py:364-373 | an optional description is accepted iff blank after stripping or its stripped length lies in the window; the cap is reported first |
| Forms.CleanExtracurricular | backend/users/forms.py:701-706 | accepted iff blank after stripping or at least ten characters; the stripped text is returned |
| Forms.CleanResume | backend/users/forms.py:708-712 | accepted iff no file or a name ending in .pdf, .doc or .docx (case-sensitive); returned unchanged |
| Forms.RegistrationClean | backend/users/forms.py:177-191 | accepted iff no password, or it is at least 8 long and the confirmation is empty or equal; a mismatch is reported before the length |
| Forms.MonthBeforeIsIndexOrder | backend/users/forms.py:403-408 | comparing first-of-month dates is comparing month counts 12·year + month |
| Forms.EducationCleanAsWritten | backend/users/forms.py:394-410 | as written, `clean` raises a ValueError exactly when the start year is missing and both end fields are present |
| Forms.EducationCrashWitness | backend/users/forms.py:396-404 | no start year, start month 5, end 2020-06 raises (`datetime.date(0, 5, 1)`) |
| Forms.EducationClean | backend/users/forms.py:394-410 | with no start year the entry is accepted (where the source crashes), and a rejection always carries "End date cannot be before start date." |
| Forms.EducationRejection | backend/users/forms.py:394-410 | with a start year, an entry is rejected iff both end fields are present and the end (year, month) comes before the start (year, month), a missing start month counting as January; equal months pass; agrees with the original wherever it does not raise |
| Forms.ExperienceCleanAsWritten | backend/users/forms.py:511-523 | as written, `clean` raises exactly when the start year is missing and an end year is given |
| Forms.ExperienceCrashWitness | backend/users/forms.py:511-523 | no start year and end year 2021 raises |
| Forms.ExperienceClean | backend/users/forms.py:511-523 | with no start year the entry is accepted (where the source crashes), and a rejection always carries "End date must be after start date." |
| Forms.ExperienceRejection | backend/users/forms.py:511-523 | with a start year, rejected iff an end year is given and the end (year, month) comes before the start (year, month), a missing month counting as January; agrees with the original wherever it does not raise |
| Forms.CleanProjectTitle | backend/users/forms.py:586-592 | accepted iff at least 3 characters; returned unchanged |
| Forms.CleanProjectDescription | backend/users/forms.py:594-603 | accepted iff 10..1000 characters; over 1000 gets the cap message |
| Forms.CleanTechnologies | backend/users/forms.py:612-617 | accepted iff at most 300 characters |
| Forms.ProjectClean | backend/users/forms.py:619-628 | rejected iff title and description are both present and non-empty and the lowercased title occurs in the lowercased description |
| Forms.ProjectRejection | backend/users/forms.py:586-628 | a project form fails iff the title is shorter than 3, the description is outside 10..1000, or the lowercased title occurs in the lowercased description |
| Forms.ProjectRepeatIgnoresCase | backend/users/forms.py:619-628 | changing the title's letter case does not change the verdict |
| Forms.SkillClean | backend/users/forms.py:655-667 | a skill row is valid iff a non-blank (stripped) name and a level are both present or both absent |
| Forms.SkillIsEmpty | backend/users/forms.py:669-671 | a row is empty iff the name or the level is missing |
| Forms.SkillValidEmpty | backend/users/forms.py:655-671 | a valid skill row is empty exactly when its name is blank |
| Forms.LanguageClean | backend/users/forms.py:846-858 | on the already stripped name, a language row is valid iff name and proficiency are both given or both absent |
| Forms.LanguageFormClean | backend/users/forms.py:827-858 | the language form strips the name first, so a row is valid iff the stripped name and the proficiency are both given or both absent |
| Forms.LanguageRowLikeSkill | backend/users/forms.py:827-858 | a language row is accepted exactly when a skill row with the same name and level is; a blank name with no proficiency passes |
| Forms.HobbyCleanName | backend/users/forms.py:878-884 | `clean_name` on its own: a non-blank all-digit name is refused; an accepted non-blank name comes back stripped, a blank one unchanged |
| Forms.HobbyFormName | backend/users/forms.py:861-884 | through the form (field strip, then `clean_name`) a hobby is refused iff its stripped name is all digits, and an accepted name is the stripped text, never a number |
| Forms.HobbyCleanNameReliesOnStrip | backend/users/forms.py:861-884 | `clean_name` alone would return " 42" as "42"; the form refuses " 42" because the field has stripped it first |
| Forms.CleanSummary | backend/users/forms.py:904-926 | an accepted summary is the stripped text, 30..1000 long and holding a letter |
| Forms.SummaryAccepted | backend/users/forms.py:904-926 | accepted iff the stripped text is 30..1000 long and holds a letter |
| Forms.FirstBadWord | backend/users/forms.py:1047-1053 | the result is the first listed word found as a whole word (case-insensitive), or none is found |
| Forms.CleanStory | backend/users/forms.py:1047-1054 | a story is accepted iff no listed word occurs in it as a whole word; returned unchanged |
| Forms.CleanStoryTitle | backend/users/forms.py:1056-1063 | a title is accepted iff no listed word occurs in it as a whole word; returned unchanged |
| Forms.HasWordIgnoresCase | backend/users/forms.py:1050-1051 | the IGNORECASE search finds a word in a text iff it finds it in the lowercased text |
| Forms.BadWordWholeWordOnly | backend/users/forms.py:1049-1053 | `\b` makes "hell" not match inside "hello" but match in "what the hell" |
| Views.CountDone | backend/users/views.py:1077-1164 | the number of completed steps among steps 1..n never exceeds n |
| Views.CountDoneSet | backend/users/views.py:1085-1161 | marking a not-yet-done step adds one to the count exactly when it is marked done |
| Views.CountDoneFrame | backend/users/views.py:1085-1161 | an entry beyond step n does not change the count of steps 1..n |
| Views.CountDoneNone | backend/users/views.py:1085-1098 | the initial step map, every step False, counts zero |
| Views.MarkStep | backend/users/views.py:1099-1161 | one `completed_steps += 1; step_completion[k] = True` block: step k takes its verdict, every other step is kept, and the counter stays equal to the number of done steps |
| Views.CalculatePortfolioProgress | backend/users/views.py:1077-1176 | the eleven steps hold exactly their section's condition (step 1 all six personal fields, step 9 extracurricular text, step 11 any social link), `completed_steps` counts the done steps, and percentage and width are both `int(completed / 11 * 100)` |
| Views.ProgressPercentRange | backend/users/views.py:1164-1167 | the percentage is 0 iff nothing is done, 100 iff all eleven steps are done, and never above 100 |
| Views.ProgressPercentStrictlyIncreasing | backend/users/views.py:1164 | each extra completed step raises the percentage |
| Views.IsPersonalInfoCompleted | backend/users/views.py:5217-5231 | completed iff none of the six required fields is empty or whitespace only; a completed profile has step 1 done |
| Views.Step1WithoutGate | backend/users/views.py:5217-5231 | fields holding one space make step 1 count as done while the completion gate still refuses them |
| Views.PersonalInfoCompletionCases | backend/users/views.py:5217-5231 | an empty profile and a half-filled one are incomplete; a fully filled one is complete |
| Views.EnforcePersonalInfoCompletion | backend/users/views.py:5234-5243 | redirects to `personal_info1` exactly when the personal information is incomplete |
| Views.CheckAvailability | backend/users/views.py:3158-3184 | a missing or empty parameter, or a field other than username/email, is a 400; otherwise the stripped value is judged: a username needs 3 characters, an email 5 and an '@'; a value short of that is unavailable, and one that has it is looked up and is available iff not taken |
| Views.AvailabilityRejectsShort | backend/users/views.py:3170-3176 | a short username, or a short or '@'-less email, is reported unavailable without looking at the user table |
| Views.AvailabilityLooksUp | backend/users/views.py:3169-3184 | a username of 3 or more stripped characters, or an email of 5 or more with an '@', is always checked against the user table: available iff not taken |
| Views.MatchingHobbies | backend/users/views.py:324-325 | the matches are exactly the listed hobbies whose lowercased name contains the typed text; a one-hobby list is kept iff it matches |
| Views.MatchingHobbiesAppend | backend/users/views.py:324-325 | the filter works piecewise: the matches of a joined list are the matches of its first part followed by those of its second, so list order is kept |
| Views.SuggestHobbies | backend/users/views.py:319-333 | with text that matches, the suggestions are the first five (or fewer) matching hobbies in list order; blank or unmatched text falls back to the random sample |
| Views.SuggestHobbiesComplete | backend/users/views.py:324-328 | when fewer than five are suggested, every matching hobby is among them |
| Views.Dedupe | backend/users/views.py:4540-4541 | `dict.fromkeys` keeps exactly the same strings, without duplicates and never more of them, each at the place of its first occurrence |
| Views.DedupeIdempotent | backend/users/views.py:4540-4541 | removing duplicates twice is removing them once |
| Views.DedupeDistinct | backend/users/views.py:4540-4541 | a list without duplicates is returned unchanged |
| Views.Capitalize | backend/users/views.py:4547-4548 | `d[:1].upper() + d[1:]` keeps the length and the tail and upper-cases the first character |
| Views.Improvements | backend/users/views.py:4545-4549 | two different suggestions, each embedding the description with its first character upper-cased |
| Views.Take | backend/users/views.py:4542 | the first min(n, length) entries of the list |
| Views.ProjectSuggestions | backend/users/views.py:4538-4553 | with a description of at most 20 characters, the first five of the deduplicated suggestions followed by the general ones; with a longer one, the two improvements followed by the first three of that list |
| Views.HasPaid | backend/users/views.py:866-871 | agents and students count as paid; other users iff they have a payment |
| Views.SelectTemplate | backend/users/views.py:862-916 | the outcome is fully determined, in the view's order: an unpaid normal user is sent to payment; otherwise an unpaid portfolio at its change limit is refused; otherwise a GET lists the templates, a POST without an id or with an id that is no web template is refused, and any other POST sets the template, the change counter rising by one exactly when the template differs, so it never passes the limit |
| Views.CreatePortfolio | backend/users/views.py:993-1037 | payment first, then slots; refused creations change nothing and return no portfolio; an existing portfolio is updated in place (paid flag, status in progress) with its slug and template kept; otherwise a fresh one is created with the new slug and one slot is used, never driving the slots below zero |
| Views.TemplateChangesLeft | backend/users/views.py:3522-3525 | the changes left make up the limit with the changes used, and are zero once the limit is reached |
| Views.Filled | backend/users/views.py:3536 | the filled count is at most the number of fields |
| Views.MissingNames | backend/users/views.py:3542-3548 | missing plus filled is the number of fields, and every missing name is one of the field names |
| Views.ProfileCompletion | backend/users/views.py:3527-3548 | a field is listed as missing iff it is empty, filled plus missing is seven, and the percentage is filled·100/7 rounded down: 100 iff nothing is missing, 0 iff nothing is filled |
| Views.MissingNamesExact | backend/users/views.py:3542-3548 | a field's name is listed as missing iff that field is empty |
| Views.MissingNotIn | backend/users/views.py:3542-3548 | no name outside the field list is ever reported missing |
| Models.UserProfile.constructor | backend/users/models.py:19-35 | a new profile starts with no template changes used, a limit of 50 and 10 portfolio slots |
| Models.UserProfile.IsAgent | backend/users/models.py:81-83 | true iff the user type is "agent" |
| Models.UserProfile.IsStudent | backend/users/models.py:85-87 | true iff the user type is "student" |
| Models.UserProfile.PendingCommission | backend/users/models.py:89-102 | zero for anyone but an agent; for an agent the sum of the positive commissions of completed student payments, never negative |
| Models.AgentStudentExclusive | backend/users/models.py:81-87 | no profile is both an agent and a student |
| Models.PositiveSum | backend/users/models.py:96-100 | the `agent_commission__gt=0` sum is never negative and is zero when no commission is positive |
| Models.SlugSource | backend/users/models.py:135-139 | the slug source is username, '-', first name (or "user"), '-', last name (or "portfolio") |
| Models.Candidate | backend/users/models.py:142-145 | every numbered candidate `base-k` is longer than the base |
| Models.CandidateInjective | backend/users/models.py:142-145 | two different counters give two different candidates |
| Models.ProbeSlug | backend/users/models.py:141-147 | the probe loop stops at the first free candidate, having found every earlier one taken, after at most as many probes as slugs in use |
| Models.StudentPortfolio.constructor | backend/users/models.py:118-131 | a new portfolio has the given slug, paid flag and status and no template |
| Models.StudentPortfolio.Save | backend/users/models.py:133-149 | a portfolio with a slug keeps it; one without gets the first candidate of its slugified source not already in use |
| Models.InvoiceNumber | backend/users/models.py:323-325 | an invoice number starts with "INV-" and holds the year and a 4-digit padded id |
| Models.InvoiceNumberDecodes | backend/users/models.py:323-325 | splitting an invoice number on '-' gives back "INV", the year and the padded id, and both parse back to their numbers |
| Models.InvoiceNumberInjective | backend/users/models.py:323-325 | within a year, two payments never share an invoice number |
| Middleware.Recent | backend/users/middleware.py:34-36 | the kept history holds exactly the timestamps less than 60 seconds old |
| Middleware.RecentIsSuffix | backend/users/middleware.py:34-36 | on an ascending history the pruning drops a prefix |
| Middleware.RecentKeepsAll | backend/users/middleware.py:34-36 | when the oldest entry is still recent nothing is dropped |
| Middleware.RecordKeepsOrder | backend/users/middleware.py:34-45 | pruning then appending the current time keeps the history ascending |
| Middleware.RecentLater | backend/users/middleware.py:34-36 | pruning at one time and then at a later time is pruning at the later time |
| Middleware.ExpiredEntryIsEmpty | backend/users/middleware.py:46 | once the 60-second cache entry would have expired, its history has nothing recent anyway |
| Middleware.RateKey | backend/users/middleware.py:22-28 | every limiter key starts with "rate_limit_" |
| Middleware.RateKeysDisjoint | backend/users/middleware.py:22-28 | an authenticated user's key never collides with an anonymous client's key |
| Middleware.RateLimiter.constructor | backend/users/middleware.py:16-17 | the limiter starts with no histories |
| Middleware.RateLimiter.Stored | backend/users/middleware.py:31 | `cache.get(key, [])`: the stored history, or empty |
| Middleware.RateLimiter.Handle | backend/users/middleware.py:19-49 | GETs pass untouched; a POST passes iff fewer than 10 recent submissions remain, and then the pruned history plus now is stored; a refused POST changes nothing; no history exceeds 10 entries |
| Middleware.ClientIp | backend/users/middleware.py:51-57 | with a non-empty X-Forwarded-For header, its first comma-free piece; otherwise REMOTE_ADDR |
| Middleware.FirstPiece | backend/users/middleware.py:54 | the first piece of a split is comma-free, a prefix of the text, and ends at the text's end or at a separator |
| Middleware.ClientIpSingle | backend/users/middleware.py:51-57 | a single forwarded address is returned unchanged |
| Middleware.TermsRedirect | backend/users/middleware.py:112-139 | redirect to accept-terms iff the user is signed in, has a profile that has not accepted the terms, and the path starts with none of the five allowed prefixes |
| Middleware.TermsRedirectCases | backend/users/middleware.py:122-133 | any "/admin/…" path is let through and "/dashboard/" is redirected |
| Middleware.NoCacheHeaders | backend/users/middleware.py:163-166 | no-cache headers are added iff "portfolio" or "form" occurs anywhere in the path |
| Middleware.NoCacheSubstring | backend/users/middleware.py:163 | "/platform/" gets no-cache headers, because "form" occurs inside it |
| Cache.Store.constructor | backend/users/security_middleware.py:94-100 | the cache starts empty |
| Cache.Store.Count | backend/users/security_middleware.py:163 | `cache.get(key, 0)`: the stored counter, or 0 |
| Cache.BlockKey | backend/users/security_middleware.py:96 | the block key is "blocked_ip_" followed by the address, which can be read back from it |
| Cache.RateKey | backend/users/security_middleware.py:162 | the rate key is "rate_limit_", the action, '_' and the address |
| Security.CheckMaliciousString | backend/users/security_middleware.py:130-149 | true iff one of the 29 listed patterns occurs in the lowercased text |
| Security.DetectMaliciousContent | backend/users/security_middleware.py:104-128 | a pattern hit, a malicious query value or a malicious lowercased user agent is always flagged; a GET with no query and no pattern hit is flagged iff its user agent is |
| Security.MaliciousIgnoresCase | backend/users/security_middleware.py:132 | lowercasing the text first does not change the verdict |
| Security.MaliciousTraversal | backend/users/security_middleware.py:140 | any text containing "../" is flagged |
| Security.IsSensitiveEndpoint | backend/users/security_middleware.py:151-158 | true iff one of the eight sensitive paths occurs anywhere in the path |
| Security.BruteForce | backend/users/security_middleware.py:175-180 | the brute-force rule only fires on "/login/", which is itself a sensitive path |
| Security.SensitiveEndpointCases | backend/users/security_middleware.py:151-158 | "/api/" after any prefix is sensitive; "/API/" is not, since the test is case-sensitive |
| Security.ScannerIsAttackAgent | backend/users/security_middleware.py:186-190 | every user agent the monitoring screen flags as a scanner is also an attack agent here |
| Security.AdvancedSecurity.constructor | backend/users/security_middleware.py:19-21 | the middleware shares the monitor's cache |
| Security.AdvancedSecurity.BlockIp | backend/users/security_middleware.py:98-100 | the block reason is stored under "blocked_ip_<ip>", and the address counts as blocked afterwards |
| Security.AdvancedSecurity.IsIpBlocked | backend/users/security_middleware.py:94-96 | when no block reason is cached, the address is not blocked here, and the monitor then reports it blocked only if its in-memory set holds it |
| Security.AdvancedSecurity.CheckRateLimit | backend/users/security_middleware.py:160-169 | allowed iff the stored count is below the limit; an allowed request increments that counter only, a refused one changes nothing |
| Security.AdvancedSecurity.DetectAttackPatterns | backend/users/security_middleware.py:171-193 | an attack iff a login POST follows more than five failures, the path contains ".." or a backslash, or the lowercased agent names a scanner, bot or crawler; the brute-force case, and only it, blocks the address; no counter changes |
| Security.RateKeyNotLoginKey | backend/users/security_middleware.py:160-193 | the rate-limit counter and the failed-login counter of an address are stored under different keys, so counting a request never moves the brute-force count |
| Security.AdvancedSecurity.Process | backend/users/security_middleware.py:61-92 | each verdict holds exactly when its condition does: blocked iff the address was blocked; malicious content iff not exempt and the screen hits (and then the address is blocked); rate limited iff screened and a sensitive path is at its limit; attack iff screened, not limited and an attack pattern is seen (a brute-force login then blocks the address); passed otherwise |
| Security.Extension | backend/users/security_middleware.py:260-262 | no dot gives the empty extension; otherwise '.' plus the lowercased name's last dot-free piece, which ends the name |
| Security.DotExtensionShape | backend/users/security_middleware.py:261-262 | '.' plus the last piece of a split on '.' has no further dot and ends the text |
| Security.ExtensionFromLastDot | backend/users/security_middleware.py:260-262 | the extension is the lowercased name from its last dot on |
| Security.DotSuffix | backend/users/security_middleware.py:260-262 | a dot-led suffix with no other dot starts at the text's last dot |
| Security.ValidateFile | backend/users/security_middleware.py:258-285 | a file passes iff its extension is allowed, its size is at most 10 MiB and its MIME type is allowed |
| Security.ValidateFileNeedsDot | backend/users/security_middleware.py:260-265 | a name without a dot is always refused |
| Security.ValidateFileIgnoresCase | backend/users/security_middleware.py:260 | the verdict does not depend on the name's letter case |
| Security.ExtensionIgnoresCase | backend/users/security_middleware.py:260-262 | the extension of a lowercased name is the name's extension |
| Security.ValidateFileLastDot | backend/users/security_middleware.py:260-265 | a name ending in ".exe" in any case is refused, whatever dotted part precedes it |
| Monitoring.SecurityMonitor.constructor | backend/users/monitoring.py:24-27 | a monitor starts with no activities and no blocked addresses |
| Monitoring.SecurityMonitor.LogSuspiciousActivity | backend/users/monitoring.py:29-46 | the activity is appended, and an alert is sent iff more than ten are logged |
| Monitoring.SecurityMonitor.BlockIp | backend/users/monitoring.py:60-64 | the address joins the blocked set, its reason is cached, and it counts as blocked |
| Monitoring.SecurityMonitor.IsIpBlocked | backend/users/monitoring.py:66-68 | an address in the blocked set is blocked; with no reason cached, blocked iff it is in the set |
| Monitoring.SecurityMonitor.CheckRateLimit | backend/users/monitoring.py:48-58 | allowed iff fewer than five attempts are counted; allowed increments the counter and blocks nothing; refused leaves the counters and blocks the address with "Rate limit exceeded for <action>" |
| Monitoring.KeepLast | backend/users/monitoring.py:111-113 | a list of at most 100 entries is kept whole; a longer one is cut to its last 100 |
| Monitoring.PerformanceMonitor.constructor | backend/users/monitoring.py:97-99 | a monitor starts with no slow requests and no metrics |
| Monitoring.PerformanceMonitor.CountOf | backend/users/monitoring.py:116-123 | a path's request count, or 0 before its first request |
| Monitoring.PerformanceMonitor.TrackRequestPerformance | backend/users/monitoring.py:101-126 | a request over the threshold is appended to the last 100 slow requests; every request adds one to its path's count and its duration to its path's total |
| Monitoring.KeepLastNewestLast | backend/users/monitoring.py:103-113 | after appending, the newest slow request is kept last and the rest are the tail of the old list |
| Monitoring.KindCount | backend/users/monitoring.py:168-172 | the number of errors of a type is at most the number of errors |
| Monitoring.ErrorMonitor.constructor | backend/users/monitoring.py:154-156 | a monitor starts with no errors and no counters |
| Monitoring.ErrorMonitor.LogError | backend/users/monitoring.py:158-178 | the error is appended (request info or an empty map), its type's counter rises by one and stays equal to the number of errors of that type, and an alert is sent iff that counter exceeds ten |
| Monitoring.KindCountSnoc | backend/users/monitoring.py:166-172 | appending an error adds one to its own type's count and nothing to the others |
| Monitoring.KindCountAbsent | backend/users/monitoring.py:169-170 | a type never logged counts zero |
| Monitoring.IsSuspiciousRequest | backend/users/monitoring.py:246-270 | true iff a listed pattern occurs in the lowercased path or a scanner name in the lowercased user agent |
| Monitoring.SuspiciousIgnoresCase | backend/users/monitoring.py:257-258 | letter case in the path and user agent does not change the verdict |
| Monitoring.AdminPathSuspicious | backend/users/monitoring.py:249 | every "/admin/…" path is suspicious |
| Utils.VerifyRazorpaySignature | backend/users/utils.py:24-47 | false when any of the four arguments is missing or empty; otherwise true iff the HMAC of "order_id\|payment_id" under the secret equals the signature |
| Utils.ValidateFileUpload | backend/users/utils.py:50-71 | no file raises "No file provided"; otherwise the file passes iff its lowercased name ends with an allowed suffix (the six defaults when none are given) and its size is within the megabyte limit; the type is checked before the size |
| Utils.UploadEmptyAllowList | backend/users/utils.py:57-63 | an explicitly empty allow-list refuses every named file |
| Utils.UploadDefaultPdf | backend/users/utils.py:57-71 | a PDF of at most 10 MiB passes under the defaults, in any letter case |
| Utils.CreateJsonResponse | backend/users/utils.py:74-83 | the body carries the data and message unchanged, and its status word is "success" iff the HTTP status is below 400, else "error" |
| Utils.SanitizeChars | backend/users/utils.py:107 | the same length, every unsafe character replaced by '_' and every safe one kept |
| Utils.SanitizeCharsSafe | backend/users/utils.py:107 | the result is safe, a safe name is left unchanged, and sanitising twice is sanitising once |
| Utils.LastIndex | backend/users/utils.py:110 | the position of the last occurrence, or none iff the character does not occur |
| Utils.SanitizeFilenameAsWritten | backend/users/utils.py:101-112 | as written: a name over 100 characters with no dot raises (`rsplit` yields one piece); otherwise the result is safe, and a short name is only sanitised |
| Utils.SanitizeCrashesWithoutDot | backend/users/utils.py:109-110 | every name over 100 characters with no dot makes the original raise |
| Utils.SanitizeFilename | backend/users/utils.py:101-112 | always a safe name; equal to the original wherever it does not raise, and a long dotless name is cut to 100 characters |
| Utils.SanitizeLongKeepsExtension | backend/users/utils.py:109-111 | a long name keeps at most 95 stem characters, then its last dot and extension, with no dot after that one |
| Utils.StemAndExtension | backend/users/utils.py:111 | `name[:95] + '.' + ext` is the kept stem followed by the text from the last dot |
| Utils.SanitizeShortExtensionBounded | backend/users/utils.py:109-111 | with an extension of at most four characters the result fits in 100 characters |
| Utils.SanitizeLongExtensionExceeds | backend/users/utils.py:109-111 | with a stem of at least 95 characters and a longer extension, the "limited" name is still over 100 characters |
| PortfolioExtras.SplitTechnologies | backend/users/templatetags/portfolio_extras.py:6-11 | a missing or empty value gives no pieces; an empty delimiter raises; otherwise every piece is non-empty and already stripped |
| PortfolioExtras.Strips | backend/users/templatetags/portfolio_extras.py:11 | every piece stripped, in place |
| PortfolioExtras.KeepNonBlankOrder | backend/users/templatetags/portfolio_extras.py:11 | the kept pieces are exactly the non-blank stripped pieces, in their original order |
| PortfolioExtras.Shift | backend/users/templatetags/portfolio_extras.py:11 | every index moved up by one |
| PortfolioExtras.ShiftPicks | backend/users/templatetags/portfolio_extras.py:11 | a choice from a list's tail, shifted by one, picks the same pieces from the whole list |
| PortfolioExtras.PicksSkip | backend/users/templatetags/portfolio_extras.py:11 | a blank first piece is skipped |
| PortfolioExtras.PicksKeep | backend/users/templatetags/portfolio_extras.py:11 | a first piece is kept in front |
| PortfolioExtras.SplitTechnologiesJoin | backend/users/templatetags/portfolio_extras.py:6-11 | technologies joined with ", " split back with "," to the same list |
| PortfolioExtras.JoinNonEmpty | backend/users/templatetags/portfolio_extras.py:9-10 | a joined list with a non-empty first piece is non-empty, so it is not treated as falsy |
| RegisterClean.StrengthTests | backend/staticfiles/js/register_clean.js:262-287 | the four strength tests, in the script's order |
| RegisterClean.CountTrue | backend/staticfiles/js/register_clean.js:258-290 | the number of passed tests never exceeds the number of tests |
| RegisterClean.CalculatePasswordStrength | backend/staticfiles/js/register_clean.js:258-290 | the score is 25 per passed test (so 0, 25, 50, 75 or 100), each failed test adds its hint, and score plus 25 per hint is always 100 |
| RegisterClean.CountTrueFour | backend/staticfiles/js/register_clean.js:258-290 | four tests count as the sum of their one-or-zero values |
| RegisterClean.StrengthIndicator | backend/staticfiles/js/register_clean.js:293-315 | "Weak" below 50, "Fair" below 75, "Good" below 100, else "Strong"; green exactly from 75 up |
| RegisterClean.StrongIffAllTests | backend/staticfiles/js/register_clean.js:258-315 | a password is shown as strong iff it has 8 characters, an upper-case letter, a lower-case letter and a digit or symbol; it is shown as weak iff at least three hints are listed |
| RegisterClean.UsernameInput | backend/staticfiles/js/register_clean.js:31-42 | a check is scheduled for the stripped username iff it has at least 3 characters |
| RegisterClean.EmailInput | backend/staticfiles/js/register_clean.js:61-72 | a check is scheduled for the stripped email iff it has 5 characters, an '@' and a '.' |
| RegisterClean.ValidationState.constructor | backend/staticfiles/js/register_clean.js:83-86 | both fields start neither available nor checked |
| RegisterClean.ValidationState.Get | backend/staticfiles/js/register_clean.js:83-86 | a field's current state |
| RegisterClean.ValidationState.Set | backend/staticfiles/js/register_clean.js:83-86 | sets one field's state and leaves the other field's alone |
| RegisterClean.ValidationState.StartCheck | backend/staticfiles/js/register_clean.js:89-99 | a check in flight marks the field as checking |
| RegisterClean.ValidationState.CheckSucceeded | backend/staticfiles/js/register_clean.js:110-118 | an answer records availability, checked, not checking and the value that was checked |
| RegisterClean.ValidationState.ClearFeedback | backend/staticfiles/js/register_clean.js:138-156 | clearing resets the field to unchecked |
| RegisterClean.ValidationState.OnUsernameInput | backend/staticfiles/js/register_clean.js:31-42 | a long enough username schedules a check and keeps the state; a short one clears it |
| RegisterClean.ValidationState.OnEmailInput | backend/staticfiles/js/register_clean.js:61-72 | a plausible email schedules a check and keeps the state; otherwise the state is cleared |
| RegisterClean.ValidationState.ValidateForm | backend/staticfiles/js/register_clean.js:334-400 | the listed errors are exactly those of the submit rules in order, and the form is valid iff there are none |
| RegisterClean.StateError | backend/staticfiles/js/register_clean.js:340-352 | no error iff the answer came in, said available, and was for the current value; waiting when a check is in flight |
| RegisterClean.UsernameError | backend/staticfiles/js/register_clean.js:337-352 | a username passes iff it has 3 characters and the recorded answer is an available verdict for this exact value |
| RegisterClean.EmailError | backend/staticfiles/js/register_clean.js:355-370 | an email passes iff it has '@' and '.' and the recorded answer is an available verdict for this exact value |
| RegisterClean.AsList | backend/staticfiles/js/register_clean.js:334-400 | at most one message per rule |
| RegisterClean.FormErrorsEmptyIff | backend/staticfiles/js/register_clean.js:334-400 | no errors iff the username and email pass, the passwords match and have 8 characters, and the terms box, when present, is ticked |
| RegisterClean.BadPasswordBlocks | backend/staticfiles/js/register_clean.js:373-384 | a mismatched or short password always blocks the submit |
| RegisterClean.FailedCheckKeepsWaiting | backend/staticfiles/js/register_clean.js:131-135 | a check whose request failed leaves the field checking, so the submit keeps saying "Please wait for username validation to complete" |
| RegisterClean.StaleAnswerWaits | backend/staticfiles/js/register_clean.js:348-351 | a username changed after its check is told to wait, not accepted |
| Formset.DigitRunEnd | backend/staticfiles/js/skill_formset.js:92 | the end of the run of digits starting at a position: everything before it is a digit, the character at it is not |
| Formset.FirstMatchFrom | backend/staticfiles/js/skill_formset.js:92-100 | the first position from k where the delimiter, one or more digits and the delimiter occur, or none when no position matches |
| Formset.ReplaceFirst | backend/staticfiles/js/skill_formset.js:92-100 | a name or id with no "-digits-" (or "_digits_") run is left unchanged |
| Formset.DigitRunAgree | backend/staticfiles/js/skill_formset.js:92-100 | two texts that agree up to a non-digit have the same digit run before it |
| Formset.FirstMatchIs | backend/staticfiles/js/skill_formset.js:92-100 | a matching position with no earlier match is the first match |
| Formset.ReplaceFirstTwice | backend/staticfiles/js/skill_formset.js:92-100 | renumbering twice is renumbering once with the later index, so reindexing never compounds |
| Formset.ReplaceFirstAt | backend/staticfiles/js/skill_formset.js:92-100 | the replacement swaps exactly the first match for the new index, keeping what precedes and follows |
| Formset.SplitThree | backend/staticfiles/js/skill_formset.js:92 | the parts of a three-way concatenation can be read back |
| Formset.ReplacedMatch | backend/staticfiles/js/skill_formset.js:92-100 | after a replacement the first match is still at the same position, now around the new index |
| Formset.NoEarlierMatch | backend/staticfiles/js/skill_formset.js:92-100 | a text that agrees with another up to a delimiter has no match before it when the other has none |
| Formset.RunOverDigits | backend/staticfiles/js/skill_formset.js:92 | a run of digits ended by a non-digit ends there |
| Formset.Title | backend/staticfiles/js/skill_formset.js:86 | a card's title is "Skill #" (or "Certification #") followed by its position counted from one |
| Formset.UpdateRemoveButton | backend/staticfiles/js/skill_formset.js:111-148 | a card keeps its title and elements, and its remove button, if any, is shown iff the card holds meaningful data |
| Formset.ReindexElement | backend/staticfiles/js/skill_formset.js:89-102 | a non-empty name gets its first "-digits-" renumbered, a non-empty id and label target their first "_digits_"; the value, checked state and placeholder are kept |
| Formset.ReindexCard | backend/staticfiles/js/skill_formset.js:82-105 | the title, when present, names the new position; every element is renumbered; the remove button's visibility follows the card's data |
| Formset.ReindexAll | backend/staticfiles/js/skill_formset.js:78-108 | each card is renumbered with its own position |
| Formset.ReindexCardTwice | backend/staticfiles/js/skill_formset.js:78-108 | renumbering a card twice at the same position is renumbering it once |
| Formset.ReplaceNonEmpty | backend/staticfiles/js/skill_formset.js:92-100 | renumbering never empties a name |
| Formset.ReindexAllTwice | backend/staticfiles/js/skill_formset.js:78-108 | `reindexForms` is idempotent |
| Formset.ClearElement | backend/staticfiles/js/skill_formset.js:173-179 | a cloned element is cleared: checkboxes and radios unchecked, other non-hidden inputs emptied, hidden inputs and labels kept |
| Formset.Cleared | backend/staticfiles/js/skill_formset.js:173-179 | a cleared card keeps its title, element count and remove button |
| Formset.ClearedHasNoData | backend/staticfiles/js/skill_formset.js:116-139 | a cleared card holds no meaningful data, so its remove button stays hidden (backend/staticfiles/js/certification_formset.js:101-130 likewise) |
| Formset.Formset.constructor | backend/staticfiles/js/skill_formset.js:282-294 | the page as served is reindexed, TOTAL_FORMS is set to the number of cards, the first card's remove button is hidden, and no removal is pending |
| Formset.Formset.Reindex | backend/staticfiles/js/skill_formset.js:78-108 | the cards are renumbered in place and TOTAL_FORMS is set to their number |
| Formset.Formset.Add | backend/staticfiles/js/skill_formset.js:154-218 | with no card nothing happens (backend/staticfiles/js/certification_formset.js:142-146 throws there, with the same effect); otherwise a cleared copy of the last card is appended as a new node, everything reindexed, and TOTAL_FORMS grows by one; pending removals are kept |
| Formset.Formset.Refresh | backend/staticfiles/js/skill_formset.js:265-279 | an input or change refreshes only the edited card's remove button |
| Formset.ClickAsWritten | backend/staticfiles/js/skill_formset.js:220-236 | the click handler as written: with more than one card on the page (fading ones included) the clicked card starts fading and its removal is scheduled; otherwise nothing changes |
| Formset.Fire | backend/staticfiles/js/skill_formset.js:232-244 | the 300 ms timer: the oldest pending card is dropped if it is still on the page, and the cards are reindexed either way |
| Formset.RemoveRaceEmptiesContainer | backend/staticfiles/js/skill_formset.js:220-244 | as written, clicking both of two cards within 300 ms schedules both removals, and the two timers leave no card at all |
| Formset.Click | backend/staticfiles/js/skill_formset.js:220-236 | the corrected click counts only the cards not already fading: it schedules the removal iff the card is not fading and more than one card would stay |
| Formset.ClickKeepsSteady | backend/staticfiles/js/skill_formset.js:220-236 | the corrected click keeps the page steady: pending removals are distinct cards on the page, fewer than all of them |
| Formset.FireKeepsSteady | backend/staticfiles/js/skill_formset.js:232-244 | on a steady page each timer removes exactly its card, the page stays steady, and at least one card is left |
| Formset.NoRaceWithGuard | backend/staticfiles/js/skill_formset.js:220-244 | with the corrected guard, the second of two quick clicks on two cards schedules nothing, so one card remains |
| Formset.Formset.ClickRemove | backend/staticfiles/js/skill_formset.js:220-236 | a click changes only the pending removals, exactly as the corrected click does, and keeps the page valid |
| Formset.Formset.RemovalFires | backend/staticfiles/js/skill_formset.js:232-244 | the timer changes the page as the timer function does, keeps it valid, leaves at least one card, and its card is gone |
| Formset.AddedCard | backend/staticfiles/js/skill_formset.js:154-190 | the appended card sits last, is numbered with the new position and shows no remove button |
| FormValidation.ApplyEdit | backend/static/js/form_validation.js:23-38 | a keystroke at or over the limit (other than a navigation key) and a paste that would pass the limit leave the value unchanged |
| FormValidation.KeydownPrevented | backend/static/js/form_validation.js:23-29 | a navigation or deletion key is never cancelled, and a cancelled key means the field is already full |
| FormValidation.PastePrevented | backend/static/js/form_validation.js:32-38 | a paste let through keeps the field within its limit, and an empty paste into a field within its limit is never cancelled |
| FormValidation.ApplyEdits | backend/static/js/form_validation.js:14-38 | no edits leave the value as it is, and typing and pasting alone only ever extend it |
| FormValidation.EditsKeepLimit | backend/static/js/form_validation.js:14-38 | starting within its maxlength, a field stays within it under any sequence of typed characters, pastes and deletions |
| FormValidation.MinimumLengthFrom | backend/static/js/form_validation.js:80-101 | the minimum of the first table key, from a position on, contained in the lowercased name, or none |
| FormValidation.GetMinimumLength | backend/static/js/form_validation.js:80-101 | the minimum of the first table key, in table order, that the lowercased field name contains; none when it contains no key |
| FormValidation.DescriptionComesFirst | backend/static/js/form_validation.js:83-99 | any name containing "description" needs 10 characters, whatever else it contains |
| FormValidation.FieldName | backend/static/js/form_validation.js:64 | the name, else the id, else "field"; never empty |
| FormValidation.FieldErrors | backend/static/js/form_validation.js:61-75 | an element has no error iff it is within its maxlength and not shorter than its minimum; an empty element gets at most one |
| FormValidation.ConcatMapEmpty | backend/static/js/form_validation.js:57-78 | the collected list is empty iff every element contributed nothing |
| FormValidation.AllErrors | backend/static/js/form_validation.js:57-78 | the form has no error iff every element is within its maxlength and minimum |
| FormValidation.ValidateForm | backend/static/js/form_validation.js:57-78 | the errors are those of every element in document order |
| FormValidation.SubmitBlockedIff | backend/static/js/form_validation.js:46-52 | the submit is prevented iff some element is over its maxlength or under its minimum |
| FormValidation.EmptyNeverTooShort | backend/static/js/form_validation.js:71-74 | an empty element never fails the minimum-length rule |
| FormsScript.FirstIndex | backend/staticfiles/js/forms.js:154 | the first position of the character, or the length when it does not occur |
| FormsScript.RemoveFirst | backend/staticfiles/js/forms.js:154 | only the first '*' is removed |
| FormsScript.FieldLabel | backend/staticfiles/js/forms.js:152-155 | "This field" without a label; otherwise the label text without its first '*', trimmed |
| FormsScript.ValidateField | backend/staticfiles/js/forms.js:101-150 | a field passes iff it is not a blank required field, a non-empty email matches the address pattern, a non-empty tel has exactly ten digits, and a non-empty URL parses; a blank required field reports "<label> is required" |
| FormsScript.TelNeedsTenDigits | backend/staticfiles/js/forms.js:124-130 | a non-empty tel value passes iff it carries exactly ten digits, whatever separates them |
| FormsScript.EmailNeedsShape | backend/staticfiles/js/forms.js:116-121 | a non-empty email passes iff it splits as local '@' domain '.' suffix with no whitespace or further '@' |
| FormsScript.ValidateForm | backend/staticfiles/js/forms.js:88-99 | every required field is validated even after one fails, and the form is valid iff all pass; a blank required field is always reported |
| FormsScript.StepFrom | backend/staticfiles/js/forms.js:220-227 | the first table row, from a position on, whose fragment occurs in the path |
| FormsScript.ProgressFromURL | backend/staticfiles/js/forms.js:200-231 | the percentage and step count of the first table row whose fragment occurs in the path; 10% and one step when none does |
| FormsScript.ProgressConsistent | backend/staticfiles/js/forms.js:206-238 | the bar's percentage is always ten times the "n/10 completed" count, which lies between 1 and 10 |
| FormsScript.HandleFileUpload | backend/staticfiles/js/forms.js:303-333 | no file does nothing; over 10 MiB is refused first; a profile photo of another type is refused; otherwise the label shows "Selected: <name>" |
| FormsScript.Unslash | backend/staticfiles/js/forms.js:364 | a '/' becomes '_' |
| FormsScript.GetFormId | backend/staticfiles/js/forms.js:362-365 | "form_data_" followed by the path with every '/' replaced by '_', so the key holds no '/' |
| FormsScript.FormIdSharedIff | backend/staticfiles/js/forms.js:362-365 | two paths share a draft key iff they differ only by '/' against '_' |
| FormsScript.SharedIdEquivalent | backend/staticfiles/js/forms.js:362-365 | equal keys come from paths that differ only by '/' against '_' |
| FormsScript.EquivalentSharesId | backend/staticfiles/js/forms.js:362-365 | paths differing only by '/' against '_' collide on one key |
| FormsScript.DraftLastWins | backend/staticfiles/js/forms.js:367-381 | the draft holds exactly the names of non-file, non-password inputs, each with the value of the last such input of that name |
| FormsScript.Restored | backend/staticfiles/js/forms.js:383-403 | restoring keeps every input's name and type |
| FormsScript.RestoredAt | backend/staticfiles/js/forms.js:392-398 | the first input of a saved name, unless a file input, takes the saved value; every other input is left as it was |
| FormsScript.DraftForm.constructor | backend/staticfiles/js/forms.js:337-347 | the form's inputs in document order |
| FormsScript.DraftForm.SaveFormData | backend/staticfiles/js/forms.js:367-381 | the object saved is the draft of the current inputs |
| FormsScript.DraftForm.LoadFormData | backend/staticfiles/js/forms.js:383-403 | without saved data nothing changes; otherwise the inputs become the restored ones |
| FormsScript.DraftRoundTrip | backend/staticfiles/js/forms.js:367-403 | with distinct names, loading a saved draft gives back every saved value, and file and password inputs keep their current values |
| FormsScript.Capitalised | backend/staticfiles/js/forms.js:428 | the first letter upper-cased, the rest kept |
| FormsScript.ValidateSocialLink | backend/staticfiles/js/forms.js:410-435 | an empty value or a platform without a pattern passes; otherwise it passes iff it matches the platform's pattern, else "Please enter a valid <Platform> URL" |
| FormsScript.GithubLinkShape | backend/staticfiles/js/forms.js:418 | a GitHub link passes iff it is http(s)://, an optional "www.", "github.com/", a non-empty word-or-dash handle and an optional final '/' |
| StudentApprovals.BulkApproveClick | backend/staticfiles/js/admin_student_approvals.js:157-177 | with nothing selected the click shows a warning; otherwise it asks to approve exactly the number selected |
| StudentApprovals.StudentName | backend/staticfiles/js/admin_student_approvals.js:180-183 | the trimmed text of the name cell, or "this student" without one |
| StudentApprovals.Cell | backend/staticfiles/js/admin_student_approvals.js:359-363 | a missing cell reads as the empty string, and what is read is already trimmed |
| StudentApprovals.NotificationIcon | backend/staticfiles/js/admin_student_approvals.js:257-265 | the icon listed for a known notification type, else "info-circle" |
| StudentApprovals.Fields | backend/staticfiles/js/admin_student_approvals.js:377-385 | each exported row has five fields |
| StudentApprovals.ApprovalData | backend/staticfiles/js/admin_student_approvals.js:351-366 | at most one record per visible row |
| StudentApprovals.ApprovalDataAllRows | backend/staticfiles/js/admin_student_approvals.js:355-365 | when every visible row has more than one cell, each becomes a record of its trimmed cells 1 to 5 (missing cells empty), in order |
| StudentApprovals.ExportToCsvRoundTrip | backend/staticfiles/js/admin_student_approvals.js:375-389 | for fields free of ',' and line breaks, the CSV splits back into the header and one line per record, and each line parses back to that record's fields |
| StudentApprovals.ExportToCsv | backend/staticfiles/js/admin_student_approvals.js:375-389 | the file starts with the header line, and with no records it is the header alone |
| StudentApprovals.ExportLinesFree | backend/staticfiles/js/admin_student_approvals.js:377-386 | no line of the export contains a line break |
| StudentApprovals.RecordReadsBack | backend/staticfiles/js/admin_student_approvals.js:379-385 | each record's line parses back to its fields |
| Csv.Quote | backend/staticfiles/js/admin_student_approvals.js:380-384 | a field wrapped in double quotes, read back by dropping them |
| Csv.Quotes | backend/staticfiles/js/admin_student_approvals.js:379-385 | every field quoted, in order |
| Csv.LineRoundTrip | backend/staticfiles/js/admin_student_approvals.js:379-385 | a line of fields free of ',' parses back to the same fields |
| Csv.LineFree | backend/staticfiles/js/admin_student_approvals.js:379-385 | a line holds no character that its fields do not hold, other than quotes and commas |
| Csv.JoinFree | backend/staticfiles/js/admin_student_approvals.js:377-386 | joining never introduces a character absent from the pieces and separator |
| Csv.TerminatedJoin | backend/staticfiles/js/admin_payments.js:115-128 | '\n'-terminated lines are the lines joined by '\n' with an empty last piece |
| Csv.JoinSnoc | backend/staticfiles/js/admin_payments.js:127 | appending a line and its '\n' extends the join |
| Csv.TerminatedSplit | backend/staticfiles/js/admin_payments.js:115-128 | '\n'-terminated lines free of line breaks split back into the lines and a final empty piece |
| Csv.Lines | backend/staticfiles/js/admin_payments.js:127 | one CSV line per row, in order |
| Csv.PlainLinesFree | backend/staticfiles/js/admin_payments.js:127 | rows free of ',' and line breaks give lines free of line breaks |
| Csv.AccumulateCsv | backend/staticfiles/js/admin_payments.js:115-128 | the loop that starts with the header line and appends one '\n'-terminated line per row builds exactly the terminated header and lines |
| Csv.AccumulatedRoundTrip | backend/staticfiles/js/admin_payments.js:115-128 | such a file splits back into the header, the lines and a final empty piece, and each line parses back to its row |
| Checkboxes.CountChecked | backend/staticfiles/js/admin_student_approvals.js:43-44 | the number checked never exceeds the number of boxes |
| Checkboxes.CountCheckedExtremes | backend/staticfiles/js/admin_student_approvals.js:46-51 | zero checked iff none is checked; all counted iff every one is checked |
| Checkboxes.SelectAllState | backend/staticfiles/js/admin_student_approvals.js:42-56 | the header is checked iff there are rows and all are checked, indeterminate iff some but not all are, and never both |
| Checkboxes.CountBadge | backend/staticfiles/js/admin_student_approvals.js:63-64 | "(n)" with the number of checked rows |
| Checkboxes.BulkApproveButton | backend/staticfiles/js/admin_student_approvals.js:59-66 | the bulk button is disabled iff nothing is checked, and its badge shows the count |
| Checkboxes.BulkBar | backend/staticfiles/js/admin_payments.js:36-47 | the bulk bar is shown ("flex") iff something is checked, hidden otherwise, and its counter shows the count |
| Checkboxes.CheckboxTable.constructor | backend/staticfiles/js/admin_student_approvals.js:15-20 | the page's checkboxes as served, with a plain header |
| Checkboxes.CheckboxTable.ClickHeader | backend/staticfiles/js/admin_student_approvals.js:22-30 | every row takes the header's state, and the header stays in agreement |
| Checkboxes.CheckboxTable.ClickRow | backend/staticfiles/js/admin_student_approvals.js:32-39 | only the clicked row changes, and the header is recomputed from the rows |
| Payments.Fields | backend/staticfiles/js/admin_payments.js:119-127 | each exported payment has six fields |
| Csv.Records | backend/staticfiles/js/admin_payments.js:119-127 | one field list per record, in table order, each the record's own fields; shared by the payments, payouts and approvals exports |
| Payments.Exported | backend/staticfiles/js/admin_payments.js:112-129 | the exported payments are exactly those of the rows with data, none invented |
| Payments.ExportedAllRows | backend/staticfiles/js/admin_payments.js:117-128 | when every row has data, all are exported in order |
| Payments.PaymentHeaderOneLine | backend/staticfiles/js/admin_payments.js:115 | the header is a single line |
| Payments.ExportPayments | backend/staticfiles/js/admin_payments.js:110-130 | the header line followed by one '\n'-terminated line per data row |
| Payments.ExportPaymentsRoundTrip | backend/staticfiles/js/admin_payments.js:110-130 | for fields free of ',' and line breaks, the export splits back into the header and lines, and each line parses back to its payment |
| Payments.SelectedIds | backend/staticfiles/js/admin_payments.js:276-277 | one id per checked box |
| Payments.SelectedIdsChecked | backend/staticfiles/js/admin_payments.js:276-277 | the ids are exactly the values of the checked boxes |
| Payments.BulkDownload | backend/staticfiles/js/admin_payments.js:275-296 | with nothing selected an alert asks to select payments; otherwise the download starts and reports the number selected; it never asks for confirmation |
| Payments.BulkEmail | backend/staticfiles/js/admin_payments.js:298-322 | with nothing selected an alert; otherwise a declined confirmation does nothing, and an accepted one sends and reports the number selected |
| Payments.EmailQuestion | backend/staticfiles/js/admin_payments.js:307 | the number of selected payments can be read back from the confirmation question |
| Payouts.PreviousMonth | backend/static/js/admin_payouts.js:99-102 | the month before, as year·12 + month minus one, January rolling back to the previous December |
| Payouts.AmountBucketsPartition | backend/static/js/admin_payouts.js:114-126 | the three amount buckets never overlap, and every non-negative amount is in one |
| Payouts.EmptyFiltersShowAll | backend/static/js/admin_payouts.js:79-128 | with no search text and no month or amount filter every row is shown |
| Payouts.MatchesMonth | backend/static/js/admin_payouts.js:94-111 | an unknown or empty month choice lets every row through; a known one passes only rows with a readable date |
| Payouts.MatchesAmount | backend/static/js/admin_payouts.js:113-126 | an unknown or empty amount choice lets every row through; a known one passes only rows with a readable, non-negative amount |
| Payouts.MatchesSearch | backend/static/js/admin_payouts.js:80-90 | an empty search matches every agent, and a match is never longer than the agent name |
| Payouts.Visible | backend/static/js/admin_payouts.js:84-128 | a shown row always matches the search; with no month and no amount filter, the search alone decides |
| Payouts.LastMonthInJanuary | backend/static/js/admin_payouts.js:99-102 | in January, "last month" means December of the previous year |
| Payouts.CapitalisedAgentHidden | backend/static/js/admin_payouts.js:80-88 | the search text is lowercased but the agent name is not, so searching "Ravi" hides agent "Ravi" |
| Payouts.LowercaseAgentFound | backend/static/js/admin_payouts.js:80-88 | an agent whose stored name is lowercase is found by its name in any case |
| Payouts.Fields | backend/static/js/admin_payouts.js:146-154 | each exported payout has six fields |
| Payouts.Exported | backend/static/js/admin_payouts.js:137-156 | the exported payouts are exactly those of the shown rows with data |
| Payouts.PayoutHeaderOneLine | backend/static/js/admin_payouts.js:142 | the header is a single line |
| Payouts.PayoutTable.constructor | backend/static/js/admin_payouts.js:9-14 | every row starts shown |
| Payouts.PayoutTable.FilterPayouts | backend/static/js/admin_payouts.js:79-128 | afterwards a row is shown iff it matches the search, month and amount filters; the rows themselves are unchanged |
| Payouts.PayoutTable.ExportPayouts | backend/static/js/admin_payouts.js:137-157 | the header line followed by one '\n'-terminated line per shown data row |
| Payouts.ExportPayoutsRoundTrip | backend/static/js/admin_payouts.js:137-157 | for fields free of ',' and line breaks, the export splits back into the header and lines, and each parses back to its payout |
| Payouts.ExportAfterFilter | backend/static/js/admin_payouts.js:79-157 | after filtering, the export holds exactly the rows that match the filters |
| Notifications.ValidateForm | backend/staticfiles/js/admin_notifications.js:133-177 | the form passes exactly when the trimmed title and message are non-empty and within 100 and 500 characters and, for a scheduled send, a time is given and lies after now; an immediate send can only fail on title or message |
| Notifications.Failures | backend/staticfiles/js/admin_notifications.js:133-177 | at most three rules are ever broken at once, and a notification not sent on a schedule breaks no schedule rule |
| Notifications.ValidateFormFirstFailure | backend/staticfiles/js/admin_notifications.js:133-177 | the alert shown is the first failing check in the order the handler tests them |
| Notifications.CounterColour | backend/staticfiles/js/admin_notifications.js:85-110 | the counter is red beyond the red limit, yellow beyond the yellow one, green otherwise, and exactly one of the three |
| Notifications.CounterColourMonotone | backend/staticfiles/js/admin_notifications.js:85-110 | a longer text never gets a milder counter colour |
| Notifications.RedTitleStillAccepted | backend/staticfiles/js/admin_notifications.js:89-150 | a 90-character title shows a red counter yet passes the 100-character submit limit |
| Notifications.AudienceText | backend/staticfiles/js/admin_notifications.js:179-190 | the label for each audience value, "All Users" for none or an unknown one |
| Notifications.SaveDraft | backend/staticfiles/js/admin_notifications.js:289-311 | an empty title and message are refused with the alert; without a checked type the save throws; otherwise the draft holds the trimmed title and message, the type and the time stamp |
| Notifications.LoadDraft | backend/staticfiles/js/admin_notifications.js:313-343 | loading writes back title, message and schedule time, defaults priority and send method, and checks the stored type only when such a radio exists |
| Notifications.DraftRoundTrip | backend/staticfiles/js/admin_notifications.js:289-343 | saving then loading gives the trimmed form back, with defaults for empty priority and send method |
| Notifications.NotificationPage.constructor | backend/staticfiles/js/admin_notifications.js:413-419 | the page starts with the given form, radios and stored draft |
| Notifications.NotificationPage.SaveDraftClicked | backend/staticfiles/js/admin_notifications.js:289-311 | the form is unchanged and the store is written only when the draft was saved |
| Notifications.NotificationPage.LoadDraftOnLoad | backend/staticfiles/js/admin_notifications.js:413-419 | with a stored draft and an accepted prompt the form becomes its loaded version; a declined prompt or no draft leaves the form as it is; the store is unchanged |
| SocialLinks.ValidateSocialLink | backend/static/js/social_links.js:92-123 | an empty field is accepted unmarked; a non-matching value is rejected with the field's message; a non-empty value is accepted exactly when it matches and parses as a URL |
| SocialLinks.AcceptedHasScheme | backend/static/js/social_links.js:26-70 | every accepted non-empty link starts with http:// or https:// |
| SocialLinks.GithubPatternShape | backend/static/js/social_links.js:26-32 | the GitHub pattern accepts exactly scheme, optional www, github.com/, a handle and an optional slash |
| SocialLinks.IconFrom | backend/static/js/social_links.js:137-165 | the first domain from the given position that the value contains, or none when no later domain occurs |
| SocialLinks.SocialIcon | backend/static/js/social_links.js:137-165 | the icon of the first listed domain in the lower-cased value; without one, a globe for values containing http or www and a link icon otherwise |
| SocialLinks.EmptyFieldLinkIcon | backend/static/js/social_links.js:137-165 | an empty field shows the plain link icon |
| SocialLinks.PreviewText | backend/static/js/social_links.js:181-206 | a URL of up to 40 characters is shown whole; a longer one is cut to its first 40 characters plus "..." |
| SocialLinks.AutoPrefix | backend/static/js/social_links.js:253-264 | on blur a non-empty value without http:// or https:// gets https:// prepended to its trimmed text; other values are left alone |
| SocialLinks.AutoPrefixGivesScheme | backend/static/js/social_links.js:253-264 | after the blur a non-empty field always starts with a scheme |
| SocialLinks.AutoPrefixIdempotent | backend/static/js/social_links.js:253-264 | a second blur changes nothing |
| Hobby.SuggestUrl | backend/staticfiles/js/hobby.js:11 | the suggestion endpoint is the path with one trailing slash removed, followed by /suggest/ |
| Hobby.SuggestUrlSlashInsensitive | backend/staticfiles/js/hobby.js:11 | a path with and without one trailing slash query the same URL, but a double slash does not |
| Hobby.AddChip | backend/staticfiles/js/hobby.js:29-41 | an empty field becomes the hobby; a listed hobby leaves the field unchanged; otherwise the cleaned list plus the hobby is joined with ", " |
| Hobby.AddChipAppends | backend/staticfiles/js/hobby.js:29-41 | adding a new clean hobby splits back into the old list followed by it |
| Hobby.AddChipLists | backend/staticfiles/js/hobby.js:29-41 | after a click the hobby is always in the field's list |
| Hobby.AddChipIdempotent | backend/staticfiles/js/hobby.js:29-41 | clicking the same chip twice has the effect of one click |
| PersonalInfo.FormatContact | backend/staticfiles/js/personal_info.js:31-40 | typing leaves only digits, at most ten of them: all the digits when there are ten or fewer, otherwise the first ten |
| PersonalInfo.FormatContactIdempotent | backend/staticfiles/js/personal_info.js:31-40 | formatting an already formatted number changes nothing |
| PersonalInfo.ValidateContact | backend/staticfiles/js/personal_info.js:53-68 | the contact passes exactly when it is blank or ten digits starting with 6 to 9; a wrong length gives the ten-digit message, a wrong ten-character value the Indian-number message |
| PersonalInfo.FormattedContactCheck | backend/staticfiles/js/personal_info.js:31-68 | on a formatted value the check reduces to: empty, or ten digits with a first digit from 6 to 9 |
| PersonalInfo.HandlePhoto | backend/staticfiles/js/personal_info.js:82-103 | no file does nothing; a JPEG, PNG or GIF of at most 5 MB is previewed; otherwise the type message comes before the size message |
| PersonalInfo.Step1Error | backend/staticfiles/js/personal_info.js:147-189 | a blank field is "required"; a filled contact gets the contact check, a filled email the email pattern check, and the names pass |
| PersonalInfo.Verdicts | backend/staticfiles/js/personal_info.js:147-175 | one verdict per required field, in the order first name, last name, email, contact; a field missing from the page passes |
| PersonalInfo.ShownEmpty | backend/staticfiles/js/personal_info.js:147-175 | no error is shown exactly when every verdict passes |
| PersonalInfo.ValidateStep1Form | backend/staticfiles/js/personal_info.js:147-175 | the errors shown are the failing verdicts in field order, and the form is valid exactly when all verdicts pass |
| PersonalInfo.BlankRequiredBlocks | backend/staticfiles/js/personal_info.js:158-161 | a required field present and blank always shows an error |
| PersonalInfo.Capitalise | backend/staticfiles/js/personal_info.js:191-200 | the length is kept and exactly the word characters at a word boundary are upper-cased |
| PersonalInfo.CapitaliseIdempotent | backend/staticfiles/js/personal_info.js:191-200 | a second input event leaves the name as it is |
| PersonalInfo.CapitaliseKeepsLetters | backend/staticfiles/js/personal_info.js:191-200 | capitalising changes only letter case |
| ProjectForm.ReplaceAll | backend/static/js/project_form.js:52 | a template without the __prefix__ marker is copied unchanged |
| ProjectForm.OccursContains | backend/static/js/project_form.js:52 | the left-to-right scan finds the marker exactly when it occurs at some position |
| ProjectForm.NoPatternLeft | backend/static/js/project_form.js:52 | after the global replace no __prefix__ marker is left when the replacement shares no character with it |
| ProjectForm.DigitsMissPrefix | backend/static/js/project_form.js:51-52 | a form number written in digits shares no character with __prefix__ |
| ProjectForm.Renumbered | backend/static/js/project_form.js:303-311 | every card with a title is retitled "Project #" followed by its position plus one; other cards are untouched |
| ProjectForm.RenumberedTitles | backend/static/js/project_form.js:303-311 | after renumbering no two titled cards share a title, and renumbering again changes nothing |
| ProjectForm.NewCard | backend/static/js/project_form.js:50-91 | the new card carries the next index, the title for it, and the template with every marker replaced by the index |
| ProjectForm.AfterAdd | backend/static/js/project_form.js:50-91 | adding appends one card and raises TOTAL_FORMS by one |
| ProjectForm.AddKeepsIndexed | backend/static/js/project_form.js:50-91 | on an indexed list adding keeps every card at its own index and the count equal to the number of cards, and the new card holds no marker |
| ProjectForm.AfterRemoveAsWritten | backend/static/js/project_form.js:93-133 | the handler as written: a saved card is marked for deletion and hidden; an unsaved one is dropped and TOTAL_FORMS set to the remaining count, but later cards keep their old form indexes |
| ProjectForm.RemoveAsWrittenLosesLastCard | backend/static/js/project_form.js:93-133 | removing the third of four unsaved cards leaves indexes 0, 1, 3 with a count of 3, and the next added card reuses index 3 |
| ProjectForm.Reindexed | backend/static/js/project_form.js:93-133 | each card is given its position as its form index |
| ProjectForm.AfterRemove | backend/static/js/project_form.js:93-133 | the corrected handler: saved cards are handled as written; unsaved cards are dropped with the count lowered by one |
| ProjectForm.RemoveKeepsIndexed | backend/static/js/project_form.js:93-133 | the corrected removal keeps the list indexed; a saved card is only marked and hidden, and an unsaved card's removal shifts the later cards down one place |
| ProjectForm.ProjectForms.constructor | backend/static/js/project_form.js:17-48 | the page starts with the given cards and total count, one node per card, and no removal pending |
| ProjectForm.ProjectForms.UpdateFormCounters | backend/static/js/project_form.js:303-311 | titles are renumbered and the count is unchanged |
| ProjectForm.ProjectForms.AddNewProjectForm | backend/static/js/project_form.js:50-91 | the cards and the count become those of adding a card |
| ProjectForm.ProjectForms.HandleRemoveProject | backend/static/js/project_form.js:93-106 | the click changes no card and no count: a declined confirm changes nothing, an accepted one schedules the clicked card's removal |
| ProjectForm.ProjectForms.RemovalFires | backend/static/js/project_form.js:106-133 | the timers of the oldest scheduled removal: a card still on the page gets the corrected removal (a saved card marked and hidden, an unsaved one dropped); a card already gone leaves the cards renumbered and TOTAL_FORMS equal to their number; an indexed page stays indexed |
| ProjectForm.FieldError | backend/static/js/project_form.js:238-274 | a field passes exactly when it is filled if required, a valid email if its name has "email", a parsable URL if its name has "link"; the required message wins over the email message |
| ProjectForm.EmptyOptionalAccepted | backend/static/js/project_form.js:238-274 | a blank optional field always passes |
| ProjectForm.ValidateAllFields | backend/static/js/project_form.js:276-287 | one verdict per required field, and the form is valid exactly when all pass |
| Auth.FieldErrorRules | backend/staticfiles/js/auth.js:184-217 | a field passes exactly when it is filled if required, a valid email if named email, at least 6 characters if named password and at least 3 if named username; a blank required field gets "<Name> is required", any other failure the message of its own rule |
| Auth.FieldError | backend/staticfiles/js/auth.js:184-217 | the message is one of the required, email, password and username messages, and a blank optional field has none |
| Auth.AfterValidate | backend/staticfiles/js/auth.js:190-217 | with at most one old message the group ends up showing exactly the new verdict's message, or none |
| Auth.AuthField.constructor | backend/staticfiles/js/auth.js:145-166 | a field starts with its name, value and required flag and no error |
| Auth.AuthField.Validate | backend/staticfiles/js/auth.js:184-227 | on blur the value is kept, the result is true exactly when the verdict passes, and the field shows exactly that verdict's message and is marked exactly when it shows one |
| Auth.AuthField.Typed | backend/staticfiles/js/auth.js:157-164 | typing stores the new value and clears the message and the error class |
| Auth.ErrorsFor | backend/staticfiles/js/auth.js:210-227 | a field shows at most one message, none exactly when it passes |
| Auth.SubmitForm | backend/staticfiles/js/auth.js:168-180 | every input is validated, each shows its own verdict's message, and the loading state is reached exactly when all pass |
| Auth.ValidEmailPassesGate | backend/staticfiles/js/auth.js:75-77 | every address the email pattern accepts also passes the availability gate of 5 characters with an @ |
| Auth.Gate | backend/staticfiles/js/auth.js:35-75 | a value sent for checking has at least three characters, and an email also contains an @ |
| Auth.UsernameGateAgrees | backend/staticfiles/js/auth.js:33-36 | for a filled username the availability gate of 3 characters agrees with the field's own length rule |
| Auth.ReplyFeedback | backend/staticfiles/js/auth.js:39-55 | the feedback is green exactly for an available answer, orange exactly when the request fails, and a refusal shows the server's error when it gives one |
| Auth.AfterInputAsWritten | backend/staticfiles/js/auth.js:31-56 | the input handler as written: feedback is cleared; a value past the gate replaces the pending check, a shorter one returns early and leaves the old check pending |
| Auth.StaleAvailabilityAsWritten | backend/staticfiles/js/auth.js:31-56 | typing "abc" then "ab" leaves the check for "abc" pending, and when it fires the field holding "ab" says "Username is available" |
| Auth.AfterInput | backend/staticfiles/js/auth.js:31-56 | the corrected handler: feedback is cleared and a check is pending exactly when the current value passes the gate; past the gate it acts as written |
| Auth.InputKeepsCurrent | backend/staticfiles/js/auth.js:31-56 | after any input the pending check, if any, is for the field's current trimmed value |
| Auth.AfterTimer | backend/staticfiles/js/auth.js:39-55 | when the timer fires the value is kept, nothing is pending and the feedback is that of the reply |
| Auth.AvailabilityField.constructor | backend/staticfiles/js/auth.js:29-30 | a field starts with its value, nothing pending and blank feedback |
| Auth.AvailabilityField.Input | backend/staticfiles/js/auth.js:31-56 | the state becomes that of the corrected input handler, and any pending check is for the current value |
| Auth.AvailabilityField.TimerFires | backend/staticfiles/js/auth.js:39-55 | the value asked about is the field's current trimmed value and passes the gate; the state becomes that after the timer |
| Auth.ToggledType | backend/staticfiles/js/auth.js:107-109 | a password field becomes text and anything else becomes password |
| Auth.IconAfter | backend/staticfiles/js/auth.js:111-118 | a password field shows the eye and a visible one the slashed eye, never both; the icon's other classes are kept |
| Auth.PasswordToggle.constructor | backend/staticfiles/js/auth.js:100-105 | the toggle starts with the given type and icon classes |
| Auth.PasswordToggle.Click | backend/staticfiles/js/auth.js:107-119 | a click toggles the type and sets the icon to match it |
| Auth.ToggleTwice | backend/staticfiles/js/auth.js:107-119 | two clicks restore a password or text field (any other type ends as text); the icon then matches the final type, and is the original icon when that already matched |
| Auth.EnterKey | backend/staticfiles/js/auth.js:283-293 | Enter on any input but the last moves focus to the next one; on the last it submits |
| Auth.EnterWalksToSubmit | backend/staticfiles/js/auth.js:283-293 | from input i, n - i presses of Enter reach the submit |
| PersonalInfoModern.FormattedPhone | backend/static/js/personal_info_modern.js:376-386 | the formatted contact is never longer than 10 characters and passes the phone check exactly when the typed text held at least 10 digits |
| PersonalInfoModern.FieldErrorFirstFailure | backend/static/js/personal_info_modern.js:132-166 | the message shown is the first failing rule in the handler's order, and at most one rule can fail |
| PersonalInfoModern.FieldError | backend/static/js/personal_info_modern.js:132-166 | a blank required field gets "This field is required", a blank optional one no message, and every message is one of the six listed |
| PersonalInfoModern.BlankOptionalPasses | backend/static/js/personal_info_modern.js:148-166 | a blank optional field passes whatever its name |
| PersonalInfoModern.FormGroup.constructor | backend/static/js/personal_info_modern.js:132-143 | a group starts with no error and no success mark |
| PersonalInfoModern.FormGroup.Validate | backend/static/js/personal_info_modern.js:132-204 | the result is true exactly when the field's verdict passes; the group shows exactly the failing message, and is marked successful exactly when it passes with a value |
| PersonalInfoModern.ValidateAllFields | backend/static/js/personal_info_modern.js:249-278 | every required field gets its verdict, the form is valid exactly when all pass, and focus goes to the first failing field exactly when one fails |
| PersonalInfoModern.BlankRequiredBlocks | backend/static/js/personal_info_modern.js:148-150 | a blank required field always fails with "This field is required" |
| UserProfile.ChoosePhoto | backend/staticfiles/js/user_profile.js:55-69 | no file does nothing; a JPG, PNG, GIF or WebP of at most 5 MB goes on to be read; otherwise the type message for a wrong type and the size message for a right type that is too large |
| UserProfile.ProfileAcceptsMore | backend/staticfiles/js/user_profile.js:122-125 | every photo the personal-info step previews is accepted here too, and a WebP image is accepted here but refused there |
| UserProfile.FieldCheckRules | backend/staticfiles/js/user_profile.js:405-433 | the three independent checks amount to: required message for a blank required field, else email message, else URL message; a field passes exactly when each applicable rule holds |
| UserProfile.FieldCheck | backend/staticfiles/js/user_profile.js:405-433 | a field passes iff its message is empty; a failing field shows the required, email or URL message; a blank optional field passes |
| UserProfile.FieldDisplay.constructor | backend/staticfiles/js/user_profile.js:452-472 | a field starts without an error message |
| UserProfile.FieldDisplay.ToggleFieldError | backend/staticfiles/js/user_profile.js:452-472 | a failing field shows exactly one message, the given one, and a passing field none |
| UserProfile.FieldDisplay.Validate | backend/staticfiles/js/user_profile.js:405-433 | the result is the field's verdict, and the field shows exactly its message when it fails and none when it passes |
| UserProfile.ValidateForm | backend/staticfiles/js/user_profile.js:391-402 | every required field gets its verdict, and the form submits exactly when all pass |
| UserProfile.CopyPublicUrl | backend/staticfiles/js/user_profile.js:597-608 | without a slug the alert "Portfolio URL not available" is shown; otherwise the URL copied is protocol, //, host, /portfolio/, the slug and / |
| UserProfile.PublicUrlNamesSlug | backend/staticfiles/js/user_profile.js:606-608 | the public URL begins with the page's origin, ends with the portfolio path of the slug, and different slugs give different URLs |
| Patterns.EmailRegexShape | backend/staticfiles/js/auth.js:229-232 | the email pattern accepts exactly a non-empty local part, @, a non-empty domain, a dot and a non-empty ending, none of them holding whitespace or @ |
| Patterns.IsValidEmail | backend/staticfiles/js/auth.js:229-232 | an accepted address has at least five characters, neither starts nor ends with @, and contains no whitespace |
| Patterns.PartsMakeValidEmail | backend/staticfiles/js/auth.js:229-232 | any such three-part address is accepted |
| Patterns.KeepDigits | backend/staticfiles/js/personal_info.js:33 | removing non-digits leaves only digits, never lengthens the text and leaves a digit string as it is |
| Patterns.KeepDigitsAppend | backend/staticfiles/js/personal_info.js:33 | the global replace works piecewise: the digits of a joined text are the digits of each part |
| Patterns.AfterScheme | backend/staticfiles/js/forms.js:417-423 | the rest of the URL after http:// or https://, present exactly when the value starts with one of them |
| Patterns.HandleTailParts | backend/static/js/social_links.js:29-54 | a handle tail is exactly a non-empty run of handle characters followed by at most one slash |
| Patterns.ProfilePartsMatch | backend/static/js/social_links.js:29-54 | every URL built from a scheme, an optional www., the domain, an allowed sub-path, a handle and an optional slash matches the profile pattern |
| Patterns.ProfileMatchParts | backend/static/js/social_links.js:29-54 | every URL the profile pattern matches splits into those parts |
| Patterns.ProfileUrl | backend/static/js/social_links.js:29-54 | a matching profile URL has a scheme, and what follows it is longer than the site's domain |
| Patterns.WebsiteUrlShape | backend/static/js/social_links.js:59-64 | a scheme followed by two dotted runs of host characters and any line-free rest matches the website pattern |
| Patterns.WebsiteUrl | backend/static/js/social_links.js:59-64 | a matching website URL has a scheme followed by at least three characters including a dot |
| Patterns.WebsiteIsHttp | backend/staticfiles/js/forms.js:423 | every URL the website pattern accepts also passes the portfolio pattern of any http or https URL |
| FieldChecks.FirstFailure | backend/static/js/personal_info_modern.js:253-263 | the position of the first failing verdict, none exactly when all pass |
| FieldChecks.CheckAll | backend/staticfiles/js/forms.js:88-99 | every field is checked, none skipped after a failure: one verdict per field in order, valid exactly when all pass, and the first failure located |
| FieldChecks.FirstFailureAppend | backend/static/js/personal_info_modern.js:253-263 | a further verdict changes the first failure only when there was none and it fails |

## Left out

- I/O and the framework are parameters or inputs, not models. This covers the Django ORM, e-mail and logging, `fetch`, `localStorage` (a field of the page class), `FileReader` and the image cropper, clipboard access and the `prompt` fallback, `confirm` (a boolean) and `new URL` (the `urlParses` predicate).
- Timers are modelled only by when their callbacks run. `setTimeout` and `clearTimeout` become separate method calls: a click that schedules work and the timer that later does it. Pending timers fire in the order they were set, which for the equal delays of one handler is the browser's order. Fetch replies that arrive out of order are not modelled.
- ProjectForm.ProjectForms.RemovalFires: the 500 ms timer and the 400 ms timer nested in it run as one step, so an add clicked between the two is not modelled. The DELETE field is the one of the card being removed, where the source looks it up by the card's `data-index` at click time.
- Formset.Formset.ClickRemove: the two-second "At least one entry required" label on a refused click, and its restore, are not modelled.
- Views.ProfileCompletion: the percentage `int((filled / 7) * 100)` is computed in floating point by the source and as the integer `filled * 100 / 7` here; the two agree for every count from 0 to 7.
- `md5`, `slugify` and the HMAC-SHA256 digest are parameters. Their own properties are outside the model.
- Character classes and letter case are ASCII only. This applies to `\s`, `\w`, `\d`, `str.strip`, `String.trim`, `lower`, `toUpperCase`, `isdigit` and `isalpha`. Unicode spaces and letters are not modelled.
- String lengths count characters, not UTF-16 code units.
- Payout amounts on the payouts page are reals, and an amount `parseFloat` reads as NaN is `None`. The agents' commission amounts are integers, not decimals. A `Date` is an integer year, a month number and integer milliseconds, and the month filter takes the month number. The exported payment and payout cells stay text. An unparsable schedule time (`Invalid Date`) is `None`, and as in the source such a time passes the scheduled-send check.
- Animations, colours other than the counter colours, icons inside messages, ripples, row highlighting, notifications' auto-dismissal and placeholder rows are not modelled.
- Cache entry timeouts are not modelled. Cache.Store keeps entries until they are overwritten.
- Security.Process: the compiled path patterns of `detect_malicious_content` are not modelled. Whether one of them matches is the input `patternHit`, and only the substring screens are stated.
- Security.Process: the response headers that `add_security_headers` sets are not modelled. Only the decision to block or pass the request is stated.
- Forms.CleanEmailFormat, Forms.CleanDomainLink, Forms.CleanSchemeLink, Forms.GithubLinkExample: these model only the `clean_<field>` methods, applied to the value they receive. The model's URL and e-mail fields clean a value before those methods run, and that step is not modelled. A URL field adds a missing "http://" scheme and applies its URL validator, so through the form "github.com/octo" reaches `clean_github_link` as "http://github.com/octo" and is accepted. The e-mail field's validator refuses some addresses that the '@' test alone would accept.
- RegisterClean: the 500 ms debounce and the feedback markup are not modelled. A check's outcome arrives as a method call.
- Submit loops are modelled over the values of the inputs the handler selects. The DOM query that finds those inputs is not modelled.
- PersonalInfoModern.ValidateAllFields: focus is modelled among the required fields only. The source's query for the first error field also covers non-required fields that show a stale error.
- FormsScript.DraftForm.LoadFormData: the `input` event dispatched on each restored field is not modelled, nor are the handlers it runs.
- The CSV round-trip lemmas hold only for fields free of ',' and line breaks, because the source does not escape quotes or separators.
- The social-link scripts name the same platforms differently: the field names in social_links.js and the platform keys in forms.js. Each script is modelled with its own table.
- The Escape-key handler of auth.js only blurs the active input and is not modelled.
- The auto-save and `loadFormData` of project_form.js and personal_info_modern.js are not modelled. They store a `FormData` snapshot and only log what they load.
- The `get_client_ip` of monitoring.py (236-243) is the same code as the one in middleware.py. It is modelled once, by Middleware.ClientIp.

## Findings

| source | as written | input that shows it | evidently intended | confidence | as-written member | corrected member |
|---|---|---|---|---|---|---|
| backend/users/forms.py:394-410 | `EducationForm.clean` turns a missing start year into 0 and then builds `datetime.date(0, month, 1)`, which raises ValueError | no start year, start month 5, end year 2020, end month 6 | skip the date comparison when the start year is missing | not executed | Forms.EducationCleanAsWritten, Forms.EducationCrashWitness | Forms.EducationRejection |
| backend/users/forms.py:511-523 | `ExperienceForm.clean` does the same with any end year | no start year, start month 3, end year 2021 | skip the comparison when the start year is missing | not executed | Forms.ExperienceCleanAsWritten, Forms.ExperienceCrashWitness | Forms.ExperienceRejection |
| backend/staticfiles/js/skill_formset.js:220-244 | the remove click tests that the page holds more than one card, counting cards that are already fading out, and removes the card 300 ms later (backend/staticfiles/js/certification_formset.js:205-229 does the same) | two cards, both remove buttons clicked within 300 ms: both clicks pass the test and both cards are removed, after which Add has no card to copy | count only the cards not already being removed, so that one card always stays | not executed | Formset.ClickAsWritten, Formset.RemoveRaceEmptiesContainer | Formset.Click, Formset.FireKeepsSteady, Formset.NoRaceWithGuard |
| backend/users/utils.py:109-111 | `sanitize_filename` unpacks `rsplit('.', 1)` into two names, which raises for a long name without a dot | any sanitized name of 101 characters with no '.' | cut a long name without an extension to 100 characters | not executed | Utils.SanitizeFilenameAsWritten, Utils.SanitizeCrashesWithoutDot | Utils.SanitizeFilename |
| backend/static/js/project_form.js:93-133 | removing an unsaved card sets TOTAL_FORMS to the number left, but the later cards keep their old form indexes | four unsaved cards, remove the third: indexes 0, 1, 3 with TOTAL_FORMS 3, and the next card added also gets index 3 | renumber the remaining cards so that their indexes run 0 to n-1 | not executed | ProjectForm.AfterRemoveAsWritten, ProjectForm.RemoveAsWrittenLosesLastCard | ProjectForm.RemoveKeepsIndexed |
| backend/staticfiles/js/auth.js:31-56 | the input handler returns for a short value before `clearTimeout`, so the earlier check stays pending | type "abc", then delete to "ab": the check for "abc" fires and "Username is available" is shown under "ab" | cancel the pending check before testing the length | not executed | Auth.AfterInputAsWritten, Auth.StaleAvailabilityAsWritten | Auth.InputKeepsCurrent |
