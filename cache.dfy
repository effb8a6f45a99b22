/**
 * The part of Django's cache that the security code shares.  Its keys fall
 * into disjoint families by prefix (`rate_limit_…` counters, `blocked_ip_…`
 * block reasons, `login_failed_…` counters), so the store is kept as two
 * maps: integer counters and text reasons.  Entry timeouts are not modelled.
 */
module Cache {
  class Store {
    var counters: map<string, int>
    var reasons: map<string, string>

    constructor()
      ensures counters == map[] && reasons == map[]
    {
      counters := map[];
      reasons := map[];
    }

    /** `cache.get(key, 0)` on a counter key. */
    function Count(key: string): (n: int)
      reads this
      ensures key in counters ==> n == counters[key]
      ensures key !in counters ==> n == 0
    {
      if key in counters then counters[key] else 0
    }
  }

  /** `f"blocked_ip_{ip}"`. */
  function BlockKey(ip: string): (key: string)
    ensures |key| == |ip| + 11 && key[11..] == ip
  {
    "blocked_ip_" + ip
  }

  /** `f"rate_limit_{action}_{ip}"`. */
  function RateKey(action: string, ip: string): (key: string)
    ensures |key| == |action| + |ip| + 12 && key[..11] == "rate_limit_" && key[11..11 + |action|] == action
  {
    "rate_limit_" + action + "_" + ip
  }
}
