/**
 * backend/users/security_middleware.py: `AdvancedSecurityMiddleware` (IP
 * blocklist, substring screens, the per-endpoint counter limit, attack
 * patterns and the order in which a request meets them) and the file checks
 * of `FileUploadSecurityMiddleware`.  The compiled regular-expression list
 * of `detect_malicious_content` is not modelled: its verdict is an input.
 */
module Security {
  import opened Text
  import opened Wrappers
  import opened Cache
  import opened Monitoring

  // ------------------------------------------------------------ substring screens

  const MaliciousPatterns: seq<string> := [
    "script", "javascript:", "vbscript:", "onload", "onerror",
    "union select", "drop table", "insert into", "delete from",
    "exec(", "eval(", "system(", "shell_exec",
    "../", "..\\", "file://", "data://",
    "<script", "<iframe", "<object", "<embed",
    "<?php", "<?=", "include", "require",
    "sqlmap", "nikto", "nmap", "scanner"]

  /** `check_malicious_string`: some listed pattern occurs in the lowercased text. */
  function CheckMaliciousString(s: string): (r: bool)
    ensures r <==> exists k :: 0 <= k < |MaliciousPatterns| && Contains(Lower(s), MaliciousPatterns[k])
  {
    ContainsAny(Lower(s), MaliciousPatterns)
  }

  /** The screen does not depend on letter case. */
  lemma MaliciousIgnoresCase(s: string)
    ensures CheckMaliciousString(Lower(s)) == CheckMaliciousString(s)
  {
    LowerIdempotent(s);
  }

  /** A relative-path climb is caught wherever it appears. */
  lemma MaliciousTraversal(a: string, b: string)
    ensures CheckMaliciousString(a + "../" + b)
  {
    var s := a + "../" + b;
    var l := Lower(s);
    assert l[|a|..][..3] == "../";
    assert StartsWith(l[|a|..], MaliciousPatterns[13]);
  }

  const SensitivePaths: seq<string> := [
    "/admin/", "/login/", "/register/", "/payment/", "/dashboard/", "/api/", "/upload/", "/download/"]

  /** `is_sensitive_endpoint`: a listed fragment occurs in the path (case-sensitively). */
  function IsSensitiveEndpoint(path: string): (r: bool)
    ensures r <==> exists k :: 0 <= k < |SensitivePaths| && Contains(path, SensitivePaths[k])
  {
    ContainsAny(path, SensitivePaths)
  }

  /** The fragment may sit anywhere in the path, but its case must match. */
  lemma SensitiveEndpointCases(prefix: string)
    ensures IsSensitiveEndpoint(prefix + "/api/")
    ensures !IsSensitiveEndpoint("/API/")
  {
    assert StartsWith((prefix + "/api/")[|prefix|..], SensitivePaths[5]);
    assert !Contains("/API/", "/api/") by {
      forall i | 0 <= i <= 5 ensures !StartsWith("/API/"[i..], "/api/") {
        if i == 0 { assert "/API/"[1] != "/api/"[1]; }
      }
    }
    forall k | 0 <= k < |SensitivePaths| ensures !Contains("/API/", SensitivePaths[k]) {
      if k != 5 {
        forall i | 0 <= i <= 5 ensures !StartsWith("/API/"[i..], SensitivePaths[k]) {
          if i == 0 { assert "/API/"[1] != SensitivePaths[k][1]; }
        }
      }
    }
  }

  const AttackAgents: seq<string> := ["sqlmap", "nikto", "nmap", "scanner", "bot", "crawler"]

  /** `'..' in path or '\\' in path`. */
  predicate TraversalPath(path: string) {
    Contains(path, "..") || Contains(path, "\\")
  }

  /** The brute-force rule: a POST to /login/ after more than five failures. */
  function BruteForce(path: string, isPost: bool, failedLogins: int): (b: bool)
    ensures b ==> IsSensitiveEndpoint(path)
  {
    assert StartsWith("/login/"[0..], SensitivePaths[1]);
    path == "/login/" && isPost && failedLogins > 5
  }

  /** `f"login_failed_{ip}"`. */
  function LoginFailedKey(ip: string): string {
    "login_failed_" + ip
  }

  /** Every scanner that the monitoring screen flags is also an attack agent here. */
  lemma ScannerIsAttackAgent(userAgent: string)
    requires exists k :: 0 <= k < |ScannerAgents| && Contains(Lower(userAgent), ScannerAgents[k])
    ensures ContainsAny(Lower(userAgent), AttackAgents)
  {
    var k :| 0 <= k < |ScannerAgents| && Contains(Lower(userAgent), ScannerAgents[k]);
    assert ScannerAgents[k] == AttackAgents[k];
  }

  // ------------------------------------------------------------ the middleware

  datatype Request = Request(path: string, isPost: bool, queryValues: seq<string>, postValues: seq<string>, userAgent: string)

  /**
   * `detect_malicious_content`: the compiled patterns (`patternHit`), then
   * every query value, every POST value of a POST, then the user agent.
   */
  function DetectMaliciousContent(r: Request, patternHit: bool): (b: bool)
    ensures patternHit || CheckMaliciousString(Lower(r.userAgent)) ==> b
    ensures forall i :: 0 <= i < |r.queryValues| && CheckMaliciousString(r.queryValues[i]) ==> b
    ensures !r.isPost && !patternHit && r.queryValues == [] ==> (b <==> CheckMaliciousString(Lower(r.userAgent)))
  {
    patternHit ||
    (exists i :: 0 <= i < |r.queryValues| && CheckMaliciousString(r.queryValues[i])) ||
    (r.isPost && exists i :: 0 <= i < |r.postValues| && CheckMaliciousString(r.postValues[i])) ||
    CheckMaliciousString(Lower(r.userAgent))
  }

  /** Prefixes exempt from the content screen. */
  const ScreenExempt: seq<string> := [
    "/admin-dashboard/", "/dashboard/", "/create/", "/select-template/", "/portfolio/delete/", "/portfolio/delete"]

  /** Requests allowed per sensitive path and address. */
  const SensitiveLimit: int := 10

  datatype Verdict = IpBlocked | MaliciousContent | RateLimited | AttackDetected | Passed

  /** The request gets past the block list and the content screen. */
  predicate Screened(blocked: bool, r: Request, patternHit: bool) {
    !blocked && (StartsWithAny(r.path, ScreenExempt) || !DetectMaliciousContent(r, patternHit))
  }

  /** A sensitive path whose counter for this address has reached the limit. */
  predicate OverLimit(r: Request, count: int) {
    IsSensitiveEndpoint(r.path) && count >= SensitiveLimit
  }

  /** One of the rules of `detect_attack_patterns` fires, given the failed-login count. */
  predicate AttackSeen(r: Request, failedLogins: int) {
    BruteForce(r.path, r.isPost, failedLogins) || TraversalPath(r.path) || ContainsAny(Lower(r.userAgent), AttackAgents)
  }

  /** The rate-limit counters and the failed-login counter never share a key. */
  lemma RateKeyNotLoginKey(action: string, ip: string)
    ensures RateKey(action, ip) != LoginFailedKey(ip)
  {
    assert RateKey(action, ip)[0] == 'r' && LoginFailedKey(ip)[0] == 'l';
  }

  class AdvancedSecurity {
    const cache: Store
    const monitor: SecurityMonitor

    /** The middleware and the global monitor share one cache. */
    ghost predicate Valid() {
      monitor.cache == cache
    }

    constructor(monitor: SecurityMonitor)
      ensures this.monitor == monitor && cache == monitor.cache && Valid()
    {
      this.monitor := monitor;
      this.cache := monitor.cache;
    }

    /** `is_ip_blocked`: any reason stored under `blocked_ip_<ip>`. */
    function IsIpBlocked(ip: string): (b: bool)
      reads cache, monitor
      ensures Valid() && !b ==> (monitor.IsIpBlocked(ip) <==> ip in monitor.blockedIps)
    {
      BlockKey(ip) in cache.reasons
    }

    /** `block_ip`: store the reason, and block in the global monitor too. */
    method BlockIp(ip: string, reason: string)
      requires Valid()
      modifies cache`reasons, monitor`blockedIps
      ensures cache.reasons == old(cache.reasons)[BlockKey(ip) := reason]
      ensures monitor.blockedIps == old(monitor.blockedIps) + {ip}
      ensures IsIpBlocked(ip) && monitor.IsIpBlocked(ip)
    {
      cache.reasons := cache.reasons[BlockKey(ip) := reason];
      monitor.BlockIp(ip, reason);
    }

    /**
     * `check_rate_limit`: false without counting once the counter has
     * reached `limit`; otherwise one more attempt is counted.
     */
    method CheckRateLimit(ip: string, action: string, limit: int) returns (ok: bool)
      modifies cache`counters
      ensures ok <==> old(cache.Count(RateKey(action, ip))) < limit
      ensures !ok ==> cache.counters == old(cache.counters)
      ensures ok ==> cache.counters == old(cache.counters)[RateKey(action, ip) := old(cache.Count(RateKey(action, ip))) + 1]
    {
      var key := RateKey(action, ip);
      var attempts := cache.Count(key);
      if attempts >= limit {
        return false;
      }
      cache.counters := cache.counters[key := attempts + 1];
      return true;
    }

    /**
     * `detect_attack_patterns`: brute force (which also blocks the address),
     * then a traversal path, then a suspicious user agent.
     */
    method DetectAttackPatterns(ip: string, r: Request) returns (attack: bool)
      requires Valid()
      modifies cache`reasons, monitor`blockedIps
      ensures attack <==> BruteForce(r.path, r.isPost, old(cache.Count(LoginFailedKey(ip)))) ||
                          TraversalPath(r.path) || ContainsAny(Lower(r.userAgent), AttackAgents)
      ensures BruteForce(r.path, r.isPost, old(cache.Count(LoginFailedKey(ip)))) ==>
        IsIpBlocked(ip) && ip in monitor.blockedIps
      ensures cache.counters == old(cache.counters)
      ensures !BruteForce(r.path, r.isPost, old(cache.Count(LoginFailedKey(ip)))) ==>
        cache.reasons == old(cache.reasons) && monitor.blockedIps == old(monitor.blockedIps)
    {
      if r.path == "/login/" && r.isPost {
        var failedAttempts := cache.Count(LoginFailedKey(ip));
        if failedAttempts > 5 {
          BlockIp(ip, "Too many failed login attempts");
          return true;
        }
      }
      if Contains(r.path, "..") || Contains(r.path, "\\") {
        return true;
      }
      return ContainsAny(Lower(r.userAgent), AttackAgents);
    }

    /**
     * `__call__`: the checks in order, each ending the request with a 403.
     * `ip` is the client address and `patternHit` the verdict of the
     * compiled patterns on the lowercased path.
     */
    method Process(ip: string, r: Request, patternHit: bool) returns (v: Verdict)
      requires Valid()
      modifies cache, monitor
      ensures v == IpBlocked <==> old(IsIpBlocked(ip))
      ensures v == MaliciousContent <==>
        !old(IsIpBlocked(ip)) && !StartsWithAny(r.path, ScreenExempt) && DetectMaliciousContent(r, patternHit)
      ensures v == MaliciousContent ==> IsIpBlocked(ip) && ip in monitor.blockedIps
      ensures v == RateLimited <==>
        Screened(old(IsIpBlocked(ip)), r, patternHit) && OverLimit(r, old(cache.Count(RateKey("sensitive_" + r.path, ip))))
      ensures v == AttackDetected <==>
        Screened(old(IsIpBlocked(ip)), r, patternHit) && !OverLimit(r, old(cache.Count(RateKey("sensitive_" + r.path, ip)))) &&
        AttackSeen(r, old(cache.Count(LoginFailedKey(ip))))
      ensures v == Passed <==>
        Screened(old(IsIpBlocked(ip)), r, patternHit) && !OverLimit(r, old(cache.Count(RateKey("sensitive_" + r.path, ip)))) &&
        !AttackSeen(r, old(cache.Count(LoginFailedKey(ip))))
      ensures v == AttackDetected && BruteForce(r.path, r.isPost, old(cache.Count(LoginFailedKey(ip)))) ==>
        IsIpBlocked(ip) && ip in monitor.blockedIps
      ensures v == IpBlocked || v == MaliciousContent ==>
        cache.counters == old(cache.counters) && monitor.suspiciousActivities == old(monitor.suspiciousActivities)
      ensures v == AttackDetected ==> |monitor.suspiciousActivities| == |old(monitor.suspiciousActivities)| + 1
      ensures v != AttackDetected ==> monitor.suspiciousActivities == old(monitor.suspiciousActivities)
      ensures v == Passed ==> !TraversalPath(r.path) && !ContainsAny(Lower(r.userAgent), AttackAgents)
      ensures v == Passed && IsSensitiveEndpoint(r.path) ==>
        cache.Count(RateKey("sensitive_" + r.path, ip)) == old(cache.Count(RateKey("sensitive_" + r.path, ip))) + 1
    {
      if IsIpBlocked(ip) {
        return IpBlocked;
      }
      if !StartsWithAny(r.path, ScreenExempt) {
        if DetectMaliciousContent(r, patternHit) {
          BlockIp(ip, "Malicious content detected");
          return MaliciousContent;
        }
      }
      if IsSensitiveEndpoint(r.path) {
        var ok := CheckRateLimit(ip, "sensitive_" + r.path, SensitiveLimit);
        if !ok {
          return RateLimited;
        }
      }
      RateKeyNotLoginKey("sensitive_" + r.path, ip);
      var attack := DetectAttackPatterns(ip, r);
      if attack {
        var activity := Activity("suspicious_request", r.path, if r.isPost then "POST" else "GET", r.userAgent, Some(ip));
        var _ := monitor.LogSuspiciousActivity(activity);
        return AttackDetected;
      }
      return Passed;
    }
  }

  // ------------------------------------------------------------ uploads

  const AllowedExtensions: set<string> := {".pdf", ".doc", ".docx", ".jpg", ".jpeg", ".png"}
  const AllowedMimeTypes: set<string> := {
    "application/pdf", "application/msword",
    "application/vnd.openxmlformats-officedocument.wordprocessingml.document",
    "image/jpeg", "image/png"}
  /** 10 MiB. */
  const MaxUploadSize: int := 10 * 1024 * 1024

  /** `'.' + name.lower().split('.')[-1]` when the name has a '.', otherwise the empty string. */
  function Extension(name: string): (ext: string)
    ensures '.' !in Lower(name) ==> ext == []
    ensures '.' in Lower(name) ==> ext != [] && ext[0] == '.' && Free(ext[1..], '.') && EndsWith(Lower(name), ext)
  {
    var lowered := Lower(name);
    if '.' in lowered then
      var pieces := SplitOn(lowered, ".");
      DotExtensionShape(lowered);
      "." + pieces[|pieces| - 1]
    else []
  }

  /** In a name with a '.', the last '.'-piece preceded by '.' is a suffix holding one '.'. */
  lemma DotExtensionShape(s: string)
    requires '.' in s
    ensures var ps := SplitOn(s, "."); var ext := "." + ps[|ps| - 1];
      Free(ext[1..], '.') && EndsWith(s, ext)
  {
    var ps := SplitOn(s, ".");
    var i :| 0 <= i < |s| && s[i] == '.';
    SplitLast(s, '.');
    var last := ps[|ps| - 1];
    assert LastPieceOf(s, '.', last, |ps| == 1);
    assert |ps| != 1;
    assert s[|s| - |last| - 1..] == ['.'] + last;
    assert ("." + last)[1..] == last;
  }

  /** The extension runs from the last '.' of the lowercased name to its end. */
  lemma ExtensionFromLastDot(name: string, i: nat)
    requires i < |name| && Lower(name)[i] == '.'
    requires forall j :: i < j < |name| ==> Lower(name)[j] != '.'
    ensures Extension(name) == Lower(name)[i..]
  {
    var s := Lower(name);
    assert s[i] in s;
    DotSuffix(s, Extension(name), i);
  }

  lemma DotSuffix(s: string, ext: string, i: nat)
    requires ext != [] && ext[0] == '.' && Free(ext[1..], '.') && EndsWith(s, ext)
    requires i < |s| && s[i] == '.' && forall j :: i < j < |s| ==> s[j] != '.'
    ensures ext == s[i..]
  {
    var start := |s| - |ext|;
    assert s[start..] == ext;
    assert s[start] == '.';
  }

  /** `validate_file`: extension, then size, then MIME type. */
  function ValidateFile(name: string, size: int, contentType: string): (ok: bool)
    ensures ok ==> Extension(name) in AllowedExtensions && size <= MaxUploadSize && contentType in AllowedMimeTypes
    ensures ok <== Extension(name) in AllowedExtensions && size <= MaxUploadSize && contentType in AllowedMimeTypes
  {
    if Extension(name) !in AllowedExtensions then false
    else if size > MaxUploadSize then false
    else contentType in AllowedMimeTypes
  }

  /** A name without any '.' is always refused. */
  lemma ValidateFileNeedsDot(name: string, size: int, contentType: string)
    requires '.' !in name
    ensures !ValidateFile(name, size, contentType)
  {
  }

  /** The extension check ignores letter case: a name is judged as its lowercased form. */
  lemma ValidateFileIgnoresCase(name: string, size: int, contentType: string)
    ensures ValidateFile(name, size, contentType) == ValidateFile(Lower(name), size, contentType)
  {
    ExtensionIgnoresCase(name);
  }

  lemma ExtensionIgnoresCase(name: string)
    ensures Extension(Lower(name)) == Extension(name)
  {
    LowerIdempotent(name);
  }

  /** Only the text after the last '.' counts: "cv.pdf.exe", or any name ending ".exe" in any case, is refused. */
  lemma ValidateFileLastDot(name: string, size: int, contentType: string)
    requires EndsWith(Lower(name), ".exe")
    ensures !ValidateFile(name, size, contentType)
  {
    var s := Lower(name);
    var i := |s| - 4;
    assert s[i..] == ".exe";
    assert s[i] == s[i..][0];
    forall j | i < j < |name| ensures s[j] != '.' {
      assert s[j] == s[i..][j - i];
    }
    ExtensionFromLastDot(name, i);
    assert Extension(name) == ".exe";
    ExeNotAllowed();
  }

  lemma ExeNotAllowed()
    ensures ".exe" !in AllowedExtensions
  {
  }
}
