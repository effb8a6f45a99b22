/**
 * Request guards of backend/users/middleware.py: the per-key sliding-window
 * limiter on POST submissions, client-IP extraction, the terms-acceptance
 * path allow-list and the no-cache rule for form pages.  The cache becomes a
 * map from key to timestamp list; `time.time()` becomes an integer clock.
 */
module Middleware {
  import opened Text
  import opened Wrappers

  /** Seconds a submission stays in the window. */
  const Window: int := 60
  /** Submissions allowed per window. */
  const MaxRequests: nat := 10

  /** `[t for t in history if now - t < 60]`. */
  function Recent(history: seq<int>, now: int): (r: seq<int>)
    ensures |r| <= |history|
    ensures forall t :: t in r <==> t in history && now - t < Window
  {
    if history == [] then []
    else (if now - history[0] < Window then [history[0]] else []) + Recent(history[1..], now)
  }

  predicate Ascending(h: seq<int>) {
    forall i, j :: 0 <= i < j < |h| ==> h[i] <= h[j]
  }

  /** On a history recorded in clock order, the window is a suffix of it. */
  lemma {:induction false} RecentIsSuffix(h: seq<int>, now: int) returns (i: nat)
    requires Ascending(h)
    ensures i <= |h| && Recent(h, now) == h[i..]
  {
    if h == [] {
      i := 0;
    } else if now - h[0] < Window {
      RecentKeepsAll(h, now);
      i := 0;
    } else {
      var i' := RecentIsSuffix(h[1..], now);
      i := i' + 1;
      assert h[1..][i'..] == h[i..];
    }
  }

  lemma {:induction false} RecentKeepsAll(h: seq<int>, now: int)
    requires Ascending(h) && h != [] && now - h[0] < Window
    ensures Recent(h, now) == h
  {
    if |h| > 1 {
      RecentKeepsAll(h[1..], now);
      assert [h[0]] + h[1..] == h;
    } else {
      assert Recent(h[1..], now) == [];
    }
  }

  /** Recording `now` after the window keeps a clock-ordered history in order. */
  lemma RecordKeepsOrder(h: seq<int>, now: int)
    requires Ascending(h) && forall t :: t in h ==> t <= now
    ensures Ascending(Recent(h, now) + [now])
  {
    var i := RecentIsSuffix(h, now);
    var r := Recent(h, now);
    assert forall k :: 0 <= k < |r| ==> r[k] == h[i + k];
    assert forall k :: 0 <= k < |r| ==> r[k] in h;
  }

  /** Pruning at a later time only drops more: the window never regains an entry. */
  lemma {:induction false} RecentLater(h: seq<int>, t1: int, t2: int)
    requires t1 <= t2
    ensures Recent(Recent(h, t1), t2) == Recent(h, t2)
  {
    if h != [] {
      RecentLater(h[1..], t1, t2);
      if t1 - h[0] < Window {
        assert Recent(h, t1) == [h[0]] + Recent(h[1..], t1);
        assert ([h[0]] + Recent(h[1..], t1))[1..] == Recent(h[1..], t1);
      } else {
        assert Recent(h, t1) == Recent(h[1..], t1);
        assert t2 - h[0] >= Window;
      }
    }
  }

  /**
   * The cache timeout of 60 seconds is unobservable: once 60 seconds have
   * passed since the entry was written at `setAt`, pruning empties it anyway.
   */
  lemma {:induction false} ExpiredEntryIsEmpty(h: seq<int>, setAt: int, now: int)
    requires forall t :: t in h ==> t <= setAt
    requires now - setAt >= Window
    ensures Recent(h, now) == []
  {
    if h != [] {
      assert h[0] in h;
      assert forall t :: t in h[1..] ==> t in h;
      ExpiredEntryIsEmpty(h[1..], setAt, now);
    }
  }

  /**
   * The cache key: `rate_limit_<id>` for a signed-in user, otherwise
   * `rate_limit_anon_` and the MD5 hex digest of the client IP (`md5Hex`
   * stands for the digest).
   */
  function RateKey(authenticated: bool, userId: nat, ip: string, md5Hex: string -> string): (key: string)
    ensures StartsWith(key, "rate_limit_")
  {
    if authenticated then "rate_limit_" + NatStr(userId) else "rate_limit_anon_" + md5Hex(ip)
  }

  /** A signed-in user and an anonymous client never share a counter. */
  lemma RateKeysDisjoint(userId: nat, ip: string, md5Hex: string -> string)
    ensures RateKey(true, userId, ip, md5Hex) != RateKey(false, 0, ip, md5Hex)
  {
    var a := RateKey(true, userId, ip, md5Hex);
    var b := RateKey(false, 0, ip, md5Hex);
    assert a[11] == NatStr(userId)[0];
    assert IsDigit(a[11]);
    assert b[11] == 'a';
  }

  /** `RateLimitMiddleware` together with the cache entries it owns. */
  class RateLimiter {
    /** The cached timestamp list per key. */
    var history: map<string, seq<int>>

    /** No stored list exceeds the limit. */
    ghost predicate Valid()
      reads this
    {
      forall k :: k in history ==> |history[k]| <= MaxRequests
    }

    constructor()
      ensures history == map[] && Valid()
    {
      history := map[];
    }

    /** `cache.get(key, [])`. */
    function Stored(key: string): (h: seq<int>)
      reads this
      ensures key !in history ==> h == []
      ensures key in history ==> h == history[key]
    {
      if key in history then history[key] else []
    }

    /**
     * One request.  Only a POST touches the history; it is rejected iff the
     * pruned history already holds ten entries, and a rejection stores
     * nothing.
     */
    method Handle(isPost: bool, key: string, now: int) returns (allowed: bool)
      requires Valid()
      modifies this
      ensures Valid()
      ensures !isPost ==> allowed && history == old(history)
      ensures isPost ==> (allowed <==> |Recent(old(Stored(key)), now)| < MaxRequests)
      ensures !allowed ==> history == old(history)
      ensures allowed && isPost ==> history == old(history)[key := Recent(old(Stored(key)), now) + [now]]
      ensures (isPost && Ascending(old(Stored(key))) && forall t :: t in old(Stored(key)) ==> t <= now) ==>
                Ascending(Stored(key))
    {
      if !isPost {
        return true;
      }
      var requestHistory := Stored(key);
      requestHistory := Recent(requestHistory, now);
      if |requestHistory| >= MaxRequests {
        return false;
      }
      ghost var before := Stored(key);
      if Ascending(before) && forall t :: t in before ==> t <= now {
        RecordKeepsOrder(before, now);
      }
      requestHistory := requestHistory + [now];
      history := history[key := requestHistory];
      allowed := true;
    }
  }

  /**
   * `get_client_ip`: the first comma-separated element of X-Forwarded-For
   * when that header is present and non-empty, otherwise REMOTE_ADDR.
   */
  function ClientIp(forwardedFor: Option<string>, remoteAddr: Option<string>): (ip: Option<string>)
    ensures forwardedFor.None? || forwardedFor.value == [] ==> ip == remoteAddr
    ensures (forwardedFor.Some? && forwardedFor.value != []) ==> (
      ip.Some? && Free(ip.value, ',') && StartsWith(forwardedFor.value, ip.value) &&
      (|ip.value| == |forwardedFor.value| || forwardedFor.value[|ip.value|] == ','))
  {
    if forwardedFor.Some? && forwardedFor.value != [] then
      FirstPiece(forwardedFor.value, ',');
      Some(SplitOn(forwardedFor.value, [','])[0])
    else remoteAddr
  }

  /** The first piece of a split is the longest separator-free prefix. */
  lemma {:induction false} FirstPiece(s: string, d: char)
    ensures var p := SplitOn(s, [d])[0];
      Free(p, d) && StartsWith(s, p) && (|p| == |s| || s[|p|] == d)
    decreases |s|
  {
    if StartsWith(s, [d]) {
    } else if s == [] {
    } else {
      FirstPiece(s[1..], d);
      var rest := SplitOn(s[1..], [d]);
      var p := [s[0]] + rest[0];
      assert SplitOn(s, [d])[0] == p;
      assert s[..|p|] == [s[0]] + s[1..][..|rest[0]|];
    }
  }

  /** A single address without commas is returned whole. */
  lemma ClientIpSingle(addr: string, remoteAddr: Option<string>)
    requires addr != [] && Free(addr, ',')
    ensures ClientIp(Some(addr), remoteAddr) == Some(addr)
  {
    SplitCharFree(addr, [], ',');
  }

  /** Paths reachable before the terms are accepted. */
  const TermsExempt: seq<string> := ["/accept-terms/", "/logout/", "/static/", "/media/", "/admin/"]

  /**
   * `TermsAcceptanceMiddleware`: `termsAccepted` is `None` when the user has
   * no profile (the exception path, which lets the request through).
   */
  function TermsRedirect(authenticated: bool, termsAccepted: Option<bool>, path: string): (redirect: bool)
    ensures redirect ==> authenticated && termsAccepted == Some(false)
    ensures redirect <==> authenticated && termsAccepted == Some(false) &&
                          forall k :: 0 <= k < |TermsExempt| ==> !StartsWith(path, TermsExempt[k])
  {
    authenticated && termsAccepted == Some(false) && !StartsWithAny(path, TermsExempt)
  }

  /** Anything under /admin/ stays reachable, and the dashboard is not. */
  lemma TermsRedirectCases(rest: string)
    ensures !TermsRedirect(true, Some(false), "/admin/" + rest)
    ensures TermsRedirect(true, Some(false), "/dashboard/")
  {
    assert StartsWith("/admin/" + rest, TermsExempt[4]);
    assert !StartsWith("/dashboard/", TermsExempt[0]) by { assert "/dashboard/"[1] != TermsExempt[0][1]; }
    assert !StartsWith("/dashboard/", TermsExempt[1]) by { assert "/dashboard/"[1] != TermsExempt[1][1]; }
    assert !StartsWith("/dashboard/", TermsExempt[2]) by { assert "/dashboard/"[1] != TermsExempt[2][1]; }
    assert !StartsWith("/dashboard/", TermsExempt[3]) by { assert "/dashboard/"[1] != TermsExempt[3][1]; }
    assert !StartsWith("/dashboard/", TermsExempt[4]) by { assert "/dashboard/"[2] != TermsExempt[4][2]; }
  }

  /** `FormSubmissionSecurityMiddleware`: no-cache headers iff the path mentions "portfolio" or "form". */
  function NoCacheHeaders(path: string): (noCache: bool)
    ensures noCache <==> exists i :: 0 <= i <= |path| && (StartsWith(path[i..], "portfolio") || StartsWith(path[i..], "form"))
  {
    Contains(path, "portfolio") || Contains(path, "form")
  }

  /** The test is a bare substring match: "/platform/" also counts as a form page. */
  lemma NoCacheSubstring()
    ensures NoCacheHeaders("/portfolio/alice/")
    ensures NoCacheHeaders("/platform/")
  {
    assert StartsWith("/portfolio/alice/"[1..], "portfolio");
    assert StartsWith("/platform/"[5..], "form");
  }
}
