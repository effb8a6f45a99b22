/**
 * The regular expressions the browser scripts test values against, each
 * written as a scanning predicate together with a lemma that it accepts
 * exactly the strings of the expression's concatenation form.  JavaScript
 * regexes without the `u` or `i` flag: `\w` is ASCII, matching is
 * case-sensitive, `.` is any character but a line terminator and `$` is the
 * end of the input.
 */
module Patterns {
  import opened Text
  import opened Wrappers

  // ------------------------------------------------------------ /^[^\s@]+@[^\s@]+\.[^\s@]+$/

  /** `[^\s@]`. */
  predicate EmailChar(c: char) { !IsSpace(c) && c != '@' }

  /** A '.' strictly inside `s[from..]`, with at least one character on each side. */
  predicate DotInside(s: string, from: nat) {
    exists q :: from < q < |s| - 1 && s[q] == '.'
  }

  /**
   * The email test of forms.js, auth.js, personal_info.js,
   * personal_info_modern.js and user_profile.js: exactly one '@', not first,
   * no whitespace, and a '.' strictly between the '@' and the last character.
   */
  function IsValidEmail(s: string): (b: bool)
    ensures b ==> 5 <= |s| && s[0] != '@' && s[|s| - 1] != '@'
    ensures b ==> forall i :: 0 <= i < |s| ==> !IsSpace(s[i])
  {
    exists p :: 0 < p < |s| && s[p] == '@' && OnlyAtIs(s, p) && DotInside(s, p + 1)
  }

  /** Every character but the one at `p` is a `[^\s@]`. */
  predicate OnlyAtIs(s: string, p: nat) {
    forall i :: 0 <= i < |s| && i != p ==> EmailChar(s[i])
  }

  predicate EmailSegment(s: string) { s != [] && forall i :: 0 <= i < |s| ==> EmailChar(s[i]) }

  /** `s` is `a@b.c` with three non-empty `[^\s@]+` segments. */
  predicate EmailParts(s: string, a: string, b: string, c: string) {
    s == a + "@" + b + "." + c && EmailSegment(a) && EmailSegment(b) && EmailSegment(c)
  }

  /** The scanner accepts exactly the strings the regular expression describes. */
  lemma EmailRegexShape(s: string)
    ensures IsValidEmail(s) <==> exists a, b, c :: EmailParts(s, a, b, c)
  {
    if IsValidEmail(s) {
      ValidEmailSplits(s);
    }
    if exists a, b, c :: EmailParts(s, a, b, c) {
      var a, b, c :| EmailParts(s, a, b, c);
      PartsMakeValidEmail(s, a, b, c);
    }
  }

  lemma ValidEmailSplits(s: string)
    requires IsValidEmail(s)
    ensures exists a, b, c :: EmailParts(s, a, b, c)
  {
    var p :| 0 < p < |s| && s[p] == '@' && OnlyAtIs(s, p) && DotInside(s, p + 1);
    var q :| p + 1 < q < |s| - 1 && s[q] == '.';
    SplitAtAtAndDot(s, p, q);
  }

  /** Cutting at the '@' and at a later '.' gives the three segments. */
  lemma SplitAtAtAndDot(s: string, p: nat, q: nat)
    requires 0 < p && p + 1 < q < |s| - 1 && s[p] == '@' && s[q] == '.'
    requires forall i :: 0 <= i < |s| && i != p ==> EmailChar(s[i])
    ensures EmailParts(s, s[..p], s[p + 1..q], s[q + 1..])
  {
    var a, b, c := s[..p], s[p + 1..q], s[q + 1..];
    assert s == a + "@" + b + "." + c;
    assert EmailSegment(a) by {
      forall i | 0 <= i < |a| ensures EmailChar(a[i]) { assert a[i] == s[i]; }
    }
    assert EmailSegment(b) by {
      forall i | 0 <= i < |b| ensures EmailChar(b[i]) { assert b[i] == s[p + 1 + i]; }
    }
    assert EmailSegment(c) by {
      forall i | 0 <= i < |c| ensures EmailChar(c[i]) { assert c[i] == s[q + 1 + i]; }
    }
  }

  lemma PartsMakeValidEmail(s: string, a: string, b: string, c: string)
    requires EmailParts(s, a, b, c)
    ensures IsValidEmail(s)
  {
    var p := |a|;
    var q := |a| + 1 + |b|;
    assert s[p] == '@' && s[q] == '.';
    forall i | 0 <= i < |s| && i != p ensures EmailChar(s[i]) {
      if i < p { assert s[i] == a[i]; }
      else if i < q { assert s[i] == b[i - p - 1]; }
      else if i > q { assert s[i] == c[i - q - 1]; }
    }
    assert DotInside(s, p + 1);
  }

  // ------------------------------------------------------------ value.replace(/\D/g, '')

  /** `value.replace(/\D/g, '')`: the digits of `s`, in order. */
  function KeepDigits(s: string): (r: string)
    ensures AllDigits(r) && |r| <= |s|
    ensures AllDigits(s) ==> r == s
    decreases |s|
  {
    if s == [] then []
    else
      var init := KeepDigits(s[..|s| - 1]);
      assert AllDigits(s) ==> AllDigits(s[..|s| - 1]);
      assert AllDigits(s) ==> s == s[..|s| - 1] + [s[|s| - 1]];
      if IsDigit(s[|s| - 1]) then init + [s[|s| - 1]] else init
  }

  /** Digit filtering distributes over concatenation, so it keeps the digits' order. */
  lemma {:induction false} KeepDigitsAppend(a: string, b: string)
    ensures KeepDigits(a + b) == KeepDigits(a) + KeepDigits(b)
    decreases |b|
  {
    if b == [] {
      assert a + b == a;
    } else {
      var b' := b[..|b| - 1];
      assert (a + b)[..|a + b| - 1] == a + b';
      KeepDigitsAppend(a, b');
    }
  }

  // ------------------------------------------------------------ scheme, host and handle pieces

  /** What follows `https?:\/\/`, if the value starts with it. */
  function AfterScheme(s: string): (r: Option<string>)
    ensures r.Some? <==> StartsWith(s, "http://") || StartsWith(s, "https://")
    ensures r.Some? ==> s == "http://" + r.value || s == "https://" + r.value
  {
    if StartsWith(s, "http://") then Some(s[7..])
    else if StartsWith(s, "https://") then Some(s[8..])
    else None
  }

  /** `[\w-]`, or `[\w.-]` / `[\w\-\.]` when `allowDot`. */
  predicate HandleChar(c: char, allowDot: bool) { IsWordChar(c) || c == '-' || (allowDot && c == '.') }

  predicate Handle(h: string, allowDot: bool) {
    h != [] && forall i :: 0 <= i < |h| ==> HandleChar(h[i], allowDot)
  }

  /** `<handle>+\/?$`: a handle, optionally followed by one '/'. */
  predicate HandleTail(t: string, allowDot: bool) {
    Handle(t, allowDot) || (t != [] && t[|t| - 1] == '/' && Handle(t[..|t| - 1], allowDot))
  }

  /** `(sub1|sub2|…)?<handle>+\/?$`. */
  predicate PathTail(t: string, subs: seq<string>, allowDot: bool) {
    HandleTail(t, allowDot) || SubThenHandle(t, subs, allowDot)
  }

  predicate SubThenHandle(t: string, subs: seq<string>, allowDot: bool) {
    exists k :: 0 <= k < |subs| && StartsWith(t, subs[k]) && HandleTail(t[|subs[k]|..], allowDot)
  }

  predicate HostTail(r: string, domain: string, subs: seq<string>, allowDot: bool) {
    StartsWith(r, domain) && PathTail(r[|domain|..], subs, allowDot)
  }

  /**
   * `^https?:\/\/(www\.)?<domain><subs>?<handle>+\/?$`, where `domain`
   * holds the escaped host and the fixed path ("github.com/",
   * "linkedin.com/in/").
   */
  function ProfileUrl(s: string, domain: string, subs: seq<string>, allowDot: bool): (b: bool)
    ensures b ==> AfterScheme(s).Some? && |AfterScheme(s).value| > |domain|
  {
    var r := AfterScheme(s);
    r.Some? &&
    (HostTail(r.value, domain, subs, allowDot) ||
     (StartsWith(r.value, "www.") && HostTail(r.value[4..], domain, subs, allowDot)))
  }

  /** The regex's concatenation form, one choice per optional group. */
  predicate ProfileParts(s: string, scheme: string, www: string, domain: string, sub: string,
                         handle: string, slash: string, subs: seq<string>, allowDot: bool)
  {
    s == scheme + (www + (domain + (sub + (handle + slash)))) &&
    (scheme == "http://" || scheme == "https://") &&
    (www == "" || www == "www.") &&
    (sub == "" || sub in subs) &&
    Handle(handle, allowDot) &&
    (slash == "" || slash == "/")
  }

  lemma HandleTailParts(t: string, allowDot: bool)
    ensures HandleTail(t, allowDot) <==>
      exists h, sl :: t == h + sl && Handle(h, allowDot) && (sl == "" || sl == "/")
  {
    if HandleTail(t, allowDot) {
      if Handle(t, allowDot) {
        assert t == t + "";
      } else {
        assert t == t[..|t| - 1] + "/";
      }
    }
    if exists h, sl :: t == h + sl && Handle(h, allowDot) && (sl == "" || sl == "/") {
      var h, sl :| t == h + sl && Handle(h, allowDot) && (sl == "" || sl == "/");
      if sl == "/" { assert t[..|t| - 1] == h; } else { assert t == h; }
    }
  }

  lemma SchemeStep(s: string, scheme: string, r: string)
    requires scheme == "http://" || scheme == "https://"
    requires s == scheme + r
    ensures AfterScheme(s) == Some(r)
  {
    if scheme == "http://" { assert s[..7] == scheme; assert s[7..] == r; }
    else { assert s[..8] == scheme; assert s[4] == 's'; assert s[..7] != "http://"; assert s[8..] == r; }
  }

  lemma PrefixStep(s: string, p: string, rest: string)
    requires s == p + rest
    ensures StartsWith(s, p) && s[|p|..] == rest
  {
    assert s[..|p|] == p;
  }

  lemma PathStep(sub: string, t: string, subs: seq<string>, allowDot: bool)
    requires sub == "" || sub in subs
    requires HandleTail(t, allowDot)
    ensures PathTail(sub + t, subs, allowDot)
  {
    if sub == "" {
      assert sub + t == t;
    } else {
      var k :| 0 <= k < |subs| && subs[k] == sub;
      PrefixStep(sub + t, sub, t);
      assert SubThenHandle(sub + t, subs, allowDot);
    }
  }

  /** Every string of the concatenation form is accepted. */
  lemma ProfilePartsMatch(s: string, scheme: string, www: string, domain: string, sub: string,
                          handle: string, slash: string, subs: seq<string>, allowDot: bool)
    requires ProfileParts(s, scheme, www, domain, sub, handle, slash, subs, allowDot)
    ensures ProfileUrl(s, domain, subs, allowDot)
  {
    var t := handle + slash;
    HandleTailParts(t, allowDot);
    PathStep(sub, t, subs, allowDot);
    var ht := domain + (sub + t);
    PrefixStep(ht, domain, sub + t);
    assert HostTail(ht, domain, subs, allowDot);
    var r := www + ht;
    SchemeStep(s, scheme, r);
    if www == "www." {
      PrefixStep(r, www, ht);
    } else {
      assert r == ht;
    }
  }

  /** The accepted tail after the host splits into an optional sub-path and a handle tail. */
  lemma PathParts(pt: string, subs: seq<string>, allowDot: bool) returns (sub: string, t: string)
    requires PathTail(pt, subs, allowDot)
    ensures pt == sub + t && (sub == "" || sub in subs) && HandleTail(t, allowDot)
  {
    if HandleTail(pt, allowDot) {
      sub, t := "", pt;
      assert pt == sub + t;
    } else {
      var k :| 0 <= k < |subs| && StartsWith(pt, subs[k]) && HandleTail(pt[|subs[k]|..], allowDot);
      sub, t := subs[k], pt[|subs[k]|..];
      assert pt == sub + t;
    }
  }

  /** The accepted text after the scheme splits into an optional "www." and a host tail. */
  lemma WwwParts(r: string, domain: string, subs: seq<string>, allowDot: bool) returns (www: string, ht: string)
    requires HostTail(r, domain, subs, allowDot) ||
             (StartsWith(r, "www.") && HostTail(r[4..], domain, subs, allowDot))
    ensures r == www + ht && (www == "" || www == "www.") && HostTail(ht, domain, subs, allowDot)
  {
    if HostTail(r, domain, subs, allowDot) {
      www, ht := "", r;
      assert r == www + ht;
    } else {
      www, ht := "www.", r[4..];
      assert r == r[..4] + r[4..];
    }
  }

  /** Every accepted string has the concatenation form. */
  lemma ProfileMatchParts(s: string, domain: string, subs: seq<string>, allowDot: bool)
    requires ProfileUrl(s, domain, subs, allowDot)
    ensures exists scheme, www, sub, handle, slash ::
      ProfileParts(s, scheme, www, domain, sub, handle, slash, subs, allowDot)
  {
    var r := AfterScheme(s).value;
    var scheme := if StartsWith(s, "http://") then "http://" else "https://";
    assert s == scheme + r;
    var www, ht := WwwParts(r, domain, subs, allowDot);
    var pt := ht[|domain|..];
    assert ht == domain + pt;
    var sub, t := PathParts(pt, subs, allowDot);
    HandleTailParts(t, allowDot);
    var handle, slash :| t == handle + slash && Handle(handle, allowDot) && (slash == "" || slash == "/");
    assert ProfileParts(s, scheme, www, domain, sub, handle, slash, subs, allowDot);
  }

  // ------------------------------------------------------------ /^https?:\/\/.+$/ and the website pattern

  /** The characters JavaScript's `.` does not match. */
  predicate LineTerminator(c: char) { c == '\n' || c == '\r' || c == '\U{2028}' || c == '\U{2029}' }

  predicate NoLineBreak(s: string) { forall i :: 0 <= i < |s| ==> !LineTerminator(s[i]) }

  /** `^https?:\/\/.+$`. */
  predicate AnyHttpUrl(s: string) {
    var r := AfterScheme(s);
    r.Some? && r.value != [] && NoLineBreak(r.value)
  }

  /** `[\w\-\.]`. */
  predicate HostChar(c: char) { IsWordChar(c) || c == '-' || c == '.' }

  /** `r` starts with `[\w\-\.]+\.[\w\-\.]+` whose '.' is at `p`. */
  predicate DottedHostAt(r: string, p: nat) {
    1 <= p && p + 1 < |r| && r[p] == '.' && forall j :: 0 <= j <= p + 1 ==> HostChar(r[j])
  }

  /**
   * `^https?:\/\/[\w\-\.]+(\.[\w\-\.]+)+.*$`: one repetition of the group
   * suffices, since `.*` takes whatever further repetitions would have.
   */
  function WebsiteUrl(s: string): (b: bool)
    ensures b ==> AfterScheme(s).Some? && |AfterScheme(s).value| >= 3 && '.' in AfterScheme(s).value
  {
    var r := AfterScheme(s);
    r.Some? && NoLineBreak(r.value) && exists p :: 0 <= p < |r.value| && DottedHostAt(r.value, p)
  }

  /** What follows the scheme is `a.b<rest>`: host characters around a dot, then anything on one line. */
  lemma WebsiteUrlShape(s: string, a: string, b: string, rest: string)
    requires AfterScheme(s).Some?
    requires AfterScheme(s).value == a + "." + b + rest
    requires a != [] && b != [] && NoLineBreak(rest)
    requires forall i :: 0 <= i < |a| ==> HostChar(a[i])
    requires forall i :: 0 <= i < |b| ==> HostChar(b[i])
    ensures WebsiteUrl(s)
  {
    var r := AfterScheme(s).value;
    var p := |a|;
    forall j | 0 <= j <= p + 1 ensures HostChar(r[j]) {
      if j < p { assert r[j] == a[j]; } else if j == p + 1 { assert r[j] == b[0]; }
    }
    assert DottedHostAt(r, p);
    forall i | 0 <= i < |r| ensures !LineTerminator(r[i]) {
      if i < p { assert r[i] == a[i]; }
      else if i == p { }
      else if i < p + 1 + |b| { assert r[i] == b[i - p - 1]; }
      else { assert r[i] == rest[i - p - 1 - |b|]; }
    }
  }

  /** A website URL passes the looser `^https?:\/\/.+$`. */
  lemma WebsiteIsHttp(s: string)
    requires WebsiteUrl(s)
    ensures AnyHttpUrl(s)
  {
  }
}
