/**
 * backend/users/monitoring.py: the security monitor (suspicious-activity
 * log, IP blocklist, rate-limit counters), the performance monitor (bounded
 * slow-request buffer and per-path counters) and the error monitor
 * (error log and per-type counts), plus the suspicious-request screen.
 * Durations are integer milliseconds; clocks, e-mail alerts and logging are
 * left out, and an alert becomes a returned flag.
 */
module Monitoring {
  import opened Text
  import opened Wrappers
  import opened Cache

  // ------------------------------------------------------------ security monitor

  datatype Activity = Activity(kind: string, path: string, httpMethod: string, userAgent: string, ip: Option<string>)

  /** Attempts allowed by the monitor's rate limit. */
  const MonitorLimit: int := 5

  class SecurityMonitor {
    var suspiciousActivities: seq<Activity>
    var blockedIps: set<string>
    const cache: Store

    constructor(cache: Store)
      ensures this.cache == cache && suspiciousActivities == [] && blockedIps == {}
    {
      this.cache := cache;
      suspiciousActivities := [];
      blockedIps := {};
    }

    /** `log_suspicious_activity`: one record per call; an alert once more than ten are held. */
    method LogSuspiciousActivity(activity: Activity) returns (alert: bool)
      modifies this`suspiciousActivities
      ensures suspiciousActivities == old(suspiciousActivities) + [activity]
      ensures alert <==> |suspiciousActivities| > 10
    {
      suspiciousActivities := suspiciousActivities + [activity];
      alert := |suspiciousActivities| > 10;
    }

    /** `block_ip`: remember the address and store the reason under `blocked_ip_<ip>`. */
    method BlockIp(ip: string, reason: string)
      modifies this`blockedIps, cache`reasons
      ensures blockedIps == old(blockedIps) + {ip}
      ensures cache.reasons == old(cache.reasons)[BlockKey(ip) := reason]
      ensures IsIpBlocked(ip)
    {
      blockedIps := blockedIps + {ip};
      cache.reasons := cache.reasons[BlockKey(ip) := reason];
    }

    /** `is_ip_blocked`: in the set, or a truthy reason in the cache. */
    function IsIpBlocked(ip: string): (b: bool)
      reads this, cache
      ensures ip in blockedIps ==> b
      ensures BlockKey(ip) !in cache.reasons ==> (b <==> ip in blockedIps)
    {
      ip in blockedIps || (BlockKey(ip) in cache.reasons && cache.reasons[BlockKey(ip)] != [])
    }

    /**
     * `check_rate_limit` with the default limit of five: at the limit the
     * address is blocked and the counter stays; below it the counter goes up
     * by exactly one.
     */
    method CheckRateLimit(ip: string, action: string) returns (ok: bool)
      modifies this`blockedIps, cache
      ensures ok <==> old(cache.Count(RateKey(action, ip))) < MonitorLimit
      ensures ok ==> cache.counters == old(cache.counters)[RateKey(action, ip) := old(cache.Count(RateKey(action, ip))) + 1]
      ensures ok ==> blockedIps == old(blockedIps) && cache.reasons == old(cache.reasons)
      ensures !ok ==> cache.counters == old(cache.counters) && IsIpBlocked(ip)
      ensures !ok ==> (blockedIps == old(blockedIps) + {ip} &&
                       cache.reasons == old(cache.reasons)[BlockKey(ip) := "Rate limit exceeded for " + action])
    {
      var key := RateKey(action, ip);
      var attempts := cache.Count(key);
      if attempts >= MonitorLimit {
        BlockIp(ip, "Rate limit exceeded for " + action);
        return false;
      }
      cache.counters := cache.counters[key := attempts + 1];
      return true;
    }
  }

  // ------------------------------------------------------------ performance monitor

  datatype SlowRequest = SlowRequest(path: string, duration: int, queryCount: nat)

  /** A request slower than one second (durations in milliseconds). */
  const SlowThreshold: int := 1000
  const SlowKept: nat := 100

  /** `slow_queries[-100:]` once the list has grown past 100. */
  function KeepLast(s: seq<SlowRequest>): (r: seq<SlowRequest>)
    ensures |r| <= SlowKept || |r| == |s|
    ensures |s| <= SlowKept ==> r == s
    ensures |s| > SlowKept ==> |r| == SlowKept && EndsWithSeq(s, r)
  {
    if |s| > SlowKept then s[|s| - SlowKept..] else s
  }

  predicate EndsWithSeq(s: seq<SlowRequest>, t: seq<SlowRequest>) {
    |t| <= |s| && s[|s| - |t|..] == t
  }

  class PerformanceMonitor {
    var slowQueries: seq<SlowRequest>
    /** `performance_metrics[path]['count']`. */
    var counts: map<string, nat>
    /** `performance_metrics[path]['total_duration']`. */
    var totalDurations: map<string, int>

    ghost predicate Valid()
      reads this
    {
      |slowQueries| <= SlowKept && counts.Keys == totalDurations.Keys
    }

    constructor()
      ensures Valid() && slowQueries == [] && counts == map[] && totalDurations == map[]
    {
      slowQueries := [];
      counts := map[];
      totalDurations := map[];
    }

    function CountOf(path: string): (n: nat)
      reads this
      ensures path in counts ==> n == counts[path]
      ensures path !in counts ==> n == 0
    {
      if path in counts then counts[path] else 0
    }

    /**
     * `track_request_performance`: a slow request is appended and the buffer
     * cut back to its last 100 entries; the path's count goes up by one and
     * its total by the duration.
     */
    method TrackRequestPerformance(path: string, duration: int, queryCount: nat)
      requires Valid()
      modifies this
      ensures Valid()
      ensures duration > SlowThreshold ==>
        slowQueries == KeepLast(old(slowQueries) + [SlowRequest(path, duration, queryCount)])
      ensures duration <= SlowThreshold ==> slowQueries == old(slowQueries)
      ensures counts == old(counts)[path := old(CountOf(path)) + 1]
      ensures path in totalDurations &&
        totalDurations == old(totalDurations)[path := (if path in old(totalDurations) then old(totalDurations)[path] else 0) + duration]
    {
      if duration > SlowThreshold {
        slowQueries := KeepLast(slowQueries + [SlowRequest(path, duration, queryCount)]);
      }
      var count := CountOf(path);
      var total := if path in totalDurations then totalDurations[path] else 0;
      counts := counts[path := count + 1];
      totalDurations := totalDurations[path := total + duration];
    }
  }

  /** The slow-request buffer holds the newest slow request last, with the ones before it in arrival order. */
  lemma KeepLastNewestLast(s: seq<SlowRequest>, r: SlowRequest)
    ensures var k := KeepLast(s + [r]);
      k != [] && k[|k| - 1] == r && EndsWithSeq(s, k[..|k| - 1])
  {
    var t := s + [r];
    var k := KeepLast(t);
    if |t| > SlowKept {
      assert k[..|k| - 1] == s[|s| - (SlowKept - 1)..];
    } else {
      assert k[..|k| - 1] == s;
    }
  }

  // ------------------------------------------------------------ error monitor

  datatype ErrorRecord = ErrorRecord(kind: string, message: string, requestInfo: map<string, string>)

  /** The number of records of the given type. */
  function KindCount(errors: seq<ErrorRecord>, kind: string): (n: nat)
    ensures n <= |errors|
  {
    if errors == [] then 0
    else KindCount(errors[..|errors| - 1], kind) + (if errors[|errors| - 1].kind == kind then 1 else 0)
  }

  class ErrorMonitor {
    var errors: seq<ErrorRecord>
    var errorCounts: map<string, nat>

    /** Each counter equals the number of logged errors of its type, and every logged type has a counter. */
    ghost predicate Valid()
      reads this
    {
      (forall k :: k in errorCounts ==> errorCounts[k] == KindCount(errors, k)) &&
      (forall i :: 0 <= i < |errors| ==> errors[i].kind in errorCounts)
    }

    constructor()
      ensures Valid() && errors == [] && errorCounts == map[]
    {
      errors := [];
      errorCounts := map[];
    }

    /**
     * `log_error`: one record appended, its type's counter incremented from
     * 0; an alert once that type has been seen more than ten times.
     */
    method LogError(kind: string, message: string, requestInfo: Option<map<string, string>>) returns (alert: bool)
      requires Valid()
      modifies this
      ensures Valid()
      ensures errors == old(errors) + [ErrorRecord(kind, message, if requestInfo.Some? then requestInfo.value else map[])]
      ensures errorCounts == old(errorCounts)[kind := (if kind in old(errorCounts) then old(errorCounts)[kind] else 0) + 1]
      ensures alert <==> errorCounts[kind] > 10
    {
      var error := ErrorRecord(kind, message, if requestInfo.Some? then requestInfo.value else map[]);
      errors := errors + [error];
      if kind !in errorCounts {
        KindCountAbsent(old(errors), kind);
        errorCounts := errorCounts[kind := 0];
      }
      errorCounts := errorCounts[kind := errorCounts[kind] + 1];
      forall k | k in errorCounts
        ensures errorCounts[k] == KindCount(errors, k)
      {
        KindCountSnoc(old(errors), error, k);
      }
      alert := errorCounts[kind] > 10;
    }
  }

  /** One more record adds one to its own type's count and leaves the others. */
  lemma KindCountSnoc(errors: seq<ErrorRecord>, e: ErrorRecord, kind: string)
    ensures KindCount(errors + [e], kind) == KindCount(errors, kind) + (if e.kind == kind then 1 else 0)
  {
    assert (errors + [e])[..|errors|] == errors;
  }

  /** A type that was never logged has count 0. */
  lemma {:induction false} KindCountAbsent(errors: seq<ErrorRecord>, kind: string)
    requires forall i :: 0 <= i < |errors| ==> errors[i].kind != kind
    ensures KindCount(errors, kind) == 0
  {
    if errors != [] {
      KindCountAbsent(errors[..|errors| - 1], kind);
    }
  }

  // ------------------------------------------------------------ request screen

  const SuspiciousPaths: seq<string> := ["/admin/", "script", "union", "eval(", "javascript:"]
  const ScannerAgents: seq<string> := ["sqlmap", "nikto", "nmap", "scanner"]

  /** `is_suspicious_request`: a listed fragment in the lowercased path or a scanner name in the lowercased user agent. */
  function IsSuspiciousRequest(path: string, userAgent: string): (r: bool)
    ensures r <==> (exists k :: 0 <= k < |SuspiciousPaths| && Contains(Lower(path), SuspiciousPaths[k])) ||
                   (exists k :: 0 <= k < |ScannerAgents| && Contains(Lower(userAgent), ScannerAgents[k]))
  {
    ContainsAny(Lower(path), SuspiciousPaths) || ContainsAny(Lower(userAgent), ScannerAgents)
  }

  /** The screen ignores letter case in both inputs. */
  lemma SuspiciousIgnoresCase(path: string, userAgent: string)
    ensures IsSuspiciousRequest(Lower(path), Lower(userAgent)) == IsSuspiciousRequest(path, userAgent)
  {
    LowerIdempotent(path);
    LowerIdempotent(userAgent);
  }

  /** Any admin URL is flagged, whatever the agent. */
  lemma AdminPathSuspicious(rest: string, userAgent: string)
    ensures IsSuspiciousRequest("/admin/" + rest, userAgent)
  {
    var p := "/admin/" + rest;
    assert Lower(p)[..7] == "/admin/";
    assert StartsWith(Lower(p)[0..], SuspiciousPaths[0]);
  }
}
