/**
 * backend/static/js/social_links.js: the per-field URL check of the social
 * links step, the platform icon, the link preview text and the `https://`
 * prefix added on blur.
 */
module SocialLinks {
  import opened Text
  import opened Wrappers
  import opened Patterns

  // ------------------------------------------------------------ validateSocialLink

  /** A field's pattern: a profile on a fixed host (handle `[\w\-\.]+`) or a dotted website. */
  datatype SocialPattern = ProfileOn(domain: string, subs: seq<string>) | Website

  /** One entry of the `socialInputs` table. */
  datatype SocialConfig = SocialConfig(pattern: SocialPattern, message: string, icon: string)

  predicate PatternMatches(p: SocialPattern, v: string) {
    match p
    case ProfileOn(domain, subs) => ProfileUrl(v, domain, subs, true)
    case Website => WebsiteUrl(v)
  }

  const GithubMessage := "Please enter a valid GitHub URL (e.g., https://github.com/username)"
  const LinkedinMessage := "Please enter a valid LinkedIn URL (e.g., https://linkedin.com/in/username)"
  const FacebookMessage := "Please enter a valid Facebook URL (e.g., https://facebook.com/username)"
  const InstagramMessage := "Please enter a valid Instagram URL (e.g., https://instagram.com/username)"
  const TwitterMessage := "Please enter a valid Twitter URL (e.g., https://twitter.com/username)"
  const YoutubeMessage := "Please enter a valid YouTube URL"
  const WebsiteMessage := "Please enter a valid website URL (e.g., https://yourportfolio.com)"
  const OtherMessage := "Please enter a valid URL (e.g., https://example.com)"

  /** `socialInputs[fieldName]`; the fields outside the table get no validation listener. */
  function ConfigFor(fieldName: string): Option<SocialConfig> {
    if fieldName == "github_link" then Some(SocialConfig(ProfileOn("github.com/", []), GithubMessage, "fab fa-github"))
    else if fieldName == "linkedin_link" then Some(SocialConfig(ProfileOn("linkedin.com/in/", []), LinkedinMessage, "fab fa-linkedin"))
    else if fieldName == "facebook_link" then Some(SocialConfig(ProfileOn("facebook.com/", []), FacebookMessage, "fab fa-facebook"))
    else if fieldName == "instagram_link" then Some(SocialConfig(ProfileOn("instagram.com/", []), InstagramMessage, "fab fa-instagram"))
    else if fieldName == "twitter_link" then Some(SocialConfig(ProfileOn("twitter.com/", []), TwitterMessage, "fab fa-twitter"))
    else if fieldName == "youtube_link" then
      Some(SocialConfig(ProfileOn("youtube.com/", ["channel/", "c/", "user/"]), YoutubeMessage, "fab fa-youtube"))
    else if fieldName == "portfolio_website" then Some(SocialConfig(Website, WebsiteMessage, "fas fa-globe"))
    else if fieldName == "other_social_link" then Some(SocialConfig(Website, OtherMessage, "fas fa-link"))
    else None
  }

  /** The validation class left on the field's container. */
  datatype Mark = Unmarked | Valid | Invalid

  /** The return value, the container's class and the error shown under the field. */
  datatype Verdict = Verdict(ok: bool, mark: Mark, error: Option<string>)

  const UrlMessage := "Please enter a valid URL"

  /**
   * `validateSocialLink`: both classes are removed first; an empty value
   * stops there, a pattern failure marks the container invalid with the
   * field's message, otherwise `urlParses` (`new URL` not throwing) decides.
   */
  function ValidateSocialLink(raw: string, config: SocialConfig, urlParses: string -> bool): (r: Verdict)
    ensures Strip(raw) == [] ==> r == Verdict(true, Unmarked, None)
    ensures Strip(raw) != [] && !PatternMatches(config.pattern, Strip(raw)) ==>
      r == Verdict(false, Invalid, Some(config.message))
    ensures Strip(raw) != [] ==>
      (r.ok <==> PatternMatches(config.pattern, Strip(raw)) && urlParses(Strip(raw)))
    ensures r.ok <==> r.mark != Invalid
    ensures r.error.None? <==> r.ok
  {
    var v := Strip(raw);
    if v == [] then Verdict(true, Unmarked, None)
    else if !PatternMatches(config.pattern, v) then Verdict(false, Invalid, Some(config.message))
    else if urlParses(v) then Verdict(true, Valid, None)
    else Verdict(false, Invalid, Some(UrlMessage))
  }

  /** A non-empty value that passes always carries an http:// or https:// scheme. */
  lemma AcceptedHasScheme(raw: string, config: SocialConfig, urlParses: string -> bool)
    requires Strip(raw) != [] && ValidateSocialLink(raw, config, urlParses).ok
    ensures StartsWith(Strip(raw), "http://") || StartsWith(Strip(raw), "https://")
  {
  }

  /**
   * A non-empty GitHub value passes the pattern iff it is http(s)://,
   * optionally "www.", "github.com/", a `[\w\-\.]+` handle and at most one '/'.
   */
  lemma GithubPatternShape(v: string)
    ensures PatternMatches(ConfigFor("github_link").value.pattern, v) <==>
      exists scheme, www, sub, handle, slash ::
        ProfileParts(v, scheme, www, "github.com/", sub, handle, slash, [], true)
  {
    if ProfileUrl(v, "github.com/", [], true) {
      ProfileMatchParts(v, "github.com/", [], true);
    }
    if exists scheme, www, sub, handle, slash :: ProfileParts(v, scheme, www, "github.com/", sub, handle, slash, [], true) {
      var scheme, www, sub, handle, slash :| ProfileParts(v, scheme, www, "github.com/", sub, handle, slash, [], true);
      ProfilePartsMatch(v, scheme, www, "github.com/", sub, handle, slash, [], true);
    }
  }

  // ------------------------------------------------------------ updateSocialIcon

  /** The domains `updateSocialIcon` looks for, in order, with their icons. */
  const IconDomains: seq<(string, string)> := [
    ("github.com", "social-icon fab fa-github"), ("linkedin.com", "social-icon fab fa-linkedin"),
    ("facebook.com", "social-icon fab fa-facebook"), ("instagram.com", "social-icon fab fa-instagram"),
    ("twitter.com", "social-icon fab fa-twitter"), ("youtube.com", "social-icon fab fa-youtube")]

  const GlobeIcon := "social-icon fas fa-globe"
  const LinkIcon := "social-icon fas fa-link"

  /** The first domain, from `from` on, that the value contains. */
  function IconFrom(v: string, from: nat): (r: Option<nat>)
    requires from <= |IconDomains|
    ensures r.None? ==> forall k :: from <= k < |IconDomains| ==> !Contains(v, IconDomains[k].0)
    ensures r.Some? ==> from <= r.value < |IconDomains| && Contains(v, IconDomains[r.value].0) &&
                        forall j :: from <= j < r.value ==> !Contains(v, IconDomains[j].0)
    decreases |IconDomains| - from
  {
    if from == |IconDomains| then None
    else if Contains(v, IconDomains[from].0) then Some(from)
    else IconFrom(v, from + 1)
  }

  /**
   * `updateSocialIcon`: on the trimmed lowercased value, the icon of the
   * first listed domain it contains; else the globe when it mentions "http"
   * or "www"; else the link icon.
   */
  function SocialIcon(raw: string): (r: string)
    ensures var v := Lower(Strip(raw));
      forall k :: 0 <= k < |IconDomains| && Contains(v, IconDomains[k].0) &&
                  (forall j :: 0 <= j < k ==> !Contains(v, IconDomains[j].0)) ==>
        r == IconDomains[k].1
    ensures var v := Lower(Strip(raw));
      (forall k :: 0 <= k < |IconDomains| ==> !Contains(v, IconDomains[k].0)) ==>
        r == (if Contains(v, "http") || Contains(v, "www") then GlobeIcon else LinkIcon)
  {
    var v := Lower(Strip(raw));
    var k := IconFrom(v, 0);
    if k.Some? then IconDomains[k.value].1
    else if v != [] && (Contains(v, "http") || Contains(v, "www")) then GlobeIcon
    else LinkIcon
  }

  /** An empty field always shows the link icon. */
  lemma EmptyFieldLinkIcon(raw: string)
    requires Strip(raw) == []
    ensures SocialIcon(raw) == LinkIcon
  {
    var v := Lower(Strip(raw));
    assert v == [];
    forall k | 0 <= k < |IconDomains| ensures !Contains(v, IconDomains[k].0) {
      NothingInEmpty(IconDomains[k].0);
    }
    NothingInEmpty("http");
  }

  lemma NothingInEmpty(sub: string)
    requires sub != []
    ensures !Contains([], sub)
  {
  }

  // ------------------------------------------------------------ preview

  const PreviewLength := 40

  /** The link text of `showSocialLinkPreview`. */
  function PreviewText(url: string): (r: string)
    ensures |url| <= PreviewLength ==> r == url
    ensures |url| > PreviewLength ==> |r| == PreviewLength + 3 && r[..PreviewLength] == url[..PreviewLength] && r[PreviewLength..] == "..."
    ensures |r| <= PreviewLength + 3
  {
    if |url| > PreviewLength then url[..PreviewLength] + "..." else url
  }

  // ------------------------------------------------------------ https:// on blur

  /**
   * The blur handler: a trimmed non-empty value without an http:// or
   * https:// prefix becomes "https://" + the trimmed value; any other value
   * is left exactly as typed, surrounding blanks included.
   */
  function AutoPrefix(raw: string): (r: string)
    ensures var v := Strip(raw);
      v != [] && !StartsWith(v, "http://") && !StartsWith(v, "https://") ==> r == "https://" + v
    ensures var v := Strip(raw);
      v == [] || StartsWith(v, "http://") || StartsWith(v, "https://") ==> r == raw
  {
    var v := Strip(raw);
    if v != [] && !StartsWith(v, "http://") && !StartsWith(v, "https://") then "https://" + v else raw
  }

  /** After the handler, every non-blank value carries a scheme once trimmed. */
  lemma AutoPrefixGivesScheme(raw: string)
    requires Strip(raw) != []
    ensures AfterScheme(Strip(AutoPrefix(raw))).Some?
  {
    var v := Strip(raw);
    if !StartsWith(v, "http://") && !StartsWith(v, "https://") {
      PrefixedStripped(v);
      assert ("https://" + v)[..8] == "https://";
    }
  }

  lemma PrefixedStripped(v: string)
    requires v != [] && IsStripped(v)
    ensures Strip("https://" + v) == "https://" + v
  {
    var s := "https://" + v;
    assert s[|s| - 1] == v[|v| - 1];
    StripStripped(s);
  }

  /** Blurring twice is blurring once. */
  lemma AutoPrefixIdempotent(raw: string)
    ensures AutoPrefix(AutoPrefix(raw)) == AutoPrefix(raw)
  {
    var v := Strip(raw);
    if v != [] && !StartsWith(v, "http://") && !StartsWith(v, "https://") {
      PrefixedStripped(v);
      assert ("https://" + v)[..8] == "https://";
    }
  }
}
