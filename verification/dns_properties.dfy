/**
  Properties of the AAAA cache stated over the functions that specify its
  operations: the lookup path (hit, miss, selection, errors, storing), the
  sweep's eviction rule, and invariants of whole runs of operations.
 */
module DnsProperties {
  import opened Wrappers
  import opened NetIP
  import opened DnsCache

  // ---- Selection and resolution ----

  /**
    A lookup picks the first qualifying address in resolver order, whatever
    qualifying addresses come after it.
   */
  lemma ResolveSelectsFirst(host: string, ips: seq<IP>, i: nat, now: int, format: IP -> string)
    requires NonEmptyFormat(format)
    requires i < |ips| && IsIPv6Only(ips[i])
    requires forall j :: 0 <= j < i ==> !IsIPv6Only(ips[j])
    ensures Resolve(host, LookupOk(ips), now, format) == Ok(CacheEntry(format(ips[i]), now))
  {
  }

  /** A lookup fails exactly when the resolver fails or no returned address qualifies. */
  lemma ResolveSucceedsIff(host: string, answer: Answer, now: int, format: IP -> string)
    requires NonEmptyFormat(format)
    ensures Resolve(host, answer, now, format).Ok? <==>
              answer.LookupOk? && exists i :: 0 <= i < |answer.ips| && IsIPv6Only(answer.ips[i])
  {
  }

  /** A resolver error is passed back as it is. */
  lemma ResolverErrorPropagates(host: string, cause: string, now: int, format: IP -> string)
    ensures Resolve(host, LookupFailed(cause), now, format) == Err(ResolverError(cause))
  {
  }

  /** When no returned address qualifies (all IPv4 or IPv4-mapped, say), the lookup fails naming the host. */
  lemma NoQualifyingAddressFails(host: string, ips: seq<IP>, now: int, format: IP -> string)
    requires forall j :: 0 <= j < |ips| ==> !IsIPv6Only(ips[j])
    ensures Resolve(host, LookupOk(ips), now, format) == Err(NoAAAARecord(host))
    ensures Resolve(host, LookupOk(ips), now, format).error.Message() == "could not find AAAA record for " + host
  {
  }

  /** An answer holding only IPv4 and IPv4-mapped addresses never yields an AAAA address. */
  lemma OnlyIPv4AnswerFails(host: string, ips: seq<IP>, now: int, format: IP -> string)
    requires forall j :: 0 <= j < |ips| ==> |ips[j]| == 4 || (|ips[j]| == 16 && ips[j][..12] == V4InV6Prefix)
    ensures Resolve(host, LookupOk(ips), now, format) == Err(NoAAAARecord(host))
  {
  }

  /** The example answer [10.0.0.1, fe80::1, ::2]: fe80::1 is chosen, not ::2. */
  lemma SelectionExample(host: string, now: int, format: IP -> string)
    requires NonEmptyFormat(format)
    ensures var v4: IP := [10, 0, 0, 1];
            var linkLocal: IP := [0xfe, 0x80, 0, 0, 0, 0, 0, 0, 0, 0, 0, 0, 0, 0, 0, 1];
            var two: IP := [0, 0, 0, 0, 0, 0, 0, 0, 0, 0, 0, 0, 0, 0, 0, 2];
            Resolve(host, LookupOk([v4, linkLocal, two]), now, format) == Ok(CacheEntry(format(linkLocal), now))
  {
  }

  // ---- The lookup path ----

  /** A hit returns the stored address and leaves the map alone, whatever the entry's age and whatever the resolver would say. */
  lemma HitReturnsCached(cache: map<string, CacheEntry>, shouldCache: bool, host: string, answer: Answer, now: int,
                         format: IP -> string)
    requires host in cache
    ensures Query(cache, shouldCache, host, answer, now, format) == (Ok(cache[host].aaaa), cache)
  {
  }

  /** On a miss, an error from the resolver or from selection is returned and nothing is stored. */
  lemma MissFailureLeavesCache(cache: map<string, CacheEntry>, shouldCache: bool, host: string, answer: Answer,
                               now: int, format: IP -> string)
    requires host !in cache
    requires Resolve(host, answer, now, format).Err?
    ensures Query(cache, shouldCache, host, answer, now, format)
         == (Err(Resolve(host, answer, now, format).error), cache)
  {
  }

  /**
    On a successful miss with caching on, `host` maps to the new address at
    time `now` and every other key keeps its entry.
   */
  lemma MissStoresEntry(cache: map<string, CacheEntry>, host: string, answer: Answer, now: int, format: IP -> string)
    requires host !in cache
    requires Resolve(host, answer, now, format).Ok?
    ensures var (r, cache') := Query(cache, true, host, answer, now, format);
            && r == Ok(Selected(answer.ips, format))
            && cache'.Keys == cache.Keys + {host}
            && cache'[host] == CacheEntry(Selected(answer.ips, format), now)
            && (forall k :: k in cache ==> cache'[k] == cache[k])
  {
  }

  /** After a successful lookup with caching on, the next lookup of the host hits and returns the same address. */
  lemma LookupThenHit(cache: map<string, CacheEntry>, host: string, a1: Answer, t1: int, a2: Answer, t2: int,
                      format: IP -> string)
    requires Query(cache, true, host, a1, t1, format).0.Ok?
    ensures var (r1, c1) := Query(cache, true, host, a1, t1, format);
            Query(c1, true, host, a2, t2, format) == (r1, c1)
  {
  }

  /** With caching off, a lookup from the (always empty) map is exactly a fresh resolution and stores nothing. */
  lemma CachingOffAlwaysResolves(host: string, answer: Answer, now: int, format: IP -> string)
    ensures var r := Resolve(host, answer, now, format);
            (Query(map[], false, host, answer, now, format)
               == (if r.Ok? then Ok(r.value.aaaa) else Err(r.error), map[]))
  {
  }

  // ---- The sweep ----

  /** A sweep never adds a host that was not in its snapshot. */
  lemma SweepNeverAdds(cache: map<string, CacheEntry>, shouldCache: bool, ttl: uint16, now: int,
                       answers: string -> Answer, format: IP -> string)
    ensures Swept(cache, shouldCache, ttl, now, answers, format).Keys <= cache.Keys
  {
  }

  /** A host is evicted exactly when its re-resolution fails and its timestamp plus the TTL is strictly before `now`. */
  lemma SweepEvictsIff(cache: map<string, CacheEntry>, shouldCache: bool, ttl: uint16, now: int,
                       answers: string -> Answer, format: IP -> string, host: string)
    requires host in cache
    ensures host !in Swept(cache, shouldCache, ttl, now, answers, format) <==>
              Resolve(host, answers(host), now, format).Err? && cache[host].timestamp + ttl as int < now
  {
  }

  /** A host whose re-resolution fails but which is still within its TTL keeps its entry unchanged. */
  lemma SweepKeepsFreshFailure(cache: map<string, CacheEntry>, shouldCache: bool, ttl: uint16, now: int,
                               answers: string -> Answer, format: IP -> string, host: string)
    requires host in cache
    requires Resolve(host, answers(host), now, format).Err?
    requires now <= cache[host].timestamp + ttl as int
    ensures var swept := Swept(cache, shouldCache, ttl, now, answers, format);
            host in swept && swept[host] == cache[host]
  {
  }

  /** With caching on, a host that re-resolves gets the new address stamped `now`, resetting its TTL clock. */
  lemma SweepRefreshes(cache: map<string, CacheEntry>, ttl: uint16, now: int,
                       answers: string -> Answer, format: IP -> string, host: string)
    requires host in cache
    requires answers(host).LookupOk? && Selected(answers(host).ips, format) != ""
    ensures var swept := Swept(cache, true, ttl, now, answers, format);
            host in swept && swept[host] == CacheEntry(Selected(answers(host).ips, format), now)
  {
  }

  /** The grace period with a 30-second TTL: a failure 10 s after resolution keeps the entry, one 31 s after evicts it. */
  lemma GracePeriodExample(cache: map<string, CacheEntry>, host: string, t0: int, answers: string -> Answer,
                           format: IP -> string)
    requires host in cache && cache[host].timestamp == t0
    requires answers(host).LookupFailed?
    ensures host in Swept(cache, true, 30, t0 + 10, answers, format)
    ensures host !in Swept(cache, true, 30, t0 + 31, answers, format)
  {
  }

  /** Sweeping two disjoint groups of hosts one after the other is the same as sweeping them together. */
  lemma SweepOrderIrrelevant(cache: map<string, CacheEntry>, a: set<string>, b: set<string>, shouldCache: bool,
                             ttl: uint16, now: int, answers: string -> Answer, format: IP -> string)
    requires a !! b
    ensures SweptHosts(SweptHosts(cache, a, shouldCache, ttl, now, answers, format), b, shouldCache, ttl, now, answers, format)
         == SweptHosts(cache, a + b, shouldCache, ttl, now, answers, format)
  {
  }

  // ---- Runs of operations ----

  /** One step of the cache's life: a lookup, or a sweep pass. */
  datatype Op =
    | Lookup(host: string, answer: Answer, now: int)
    | SweepPass(now: int, answers: string -> Answer)

  function Apply(shouldCache: bool, ttl: uint16, format: IP -> string, cache: map<string, CacheEntry>, op: Op)
    : map<string, CacheEntry>
  {
    match op
    case Lookup(host, answer, now) => Query(cache, shouldCache, host, answer, now, format).1
    case SweepPass(now, answers) => Swept(cache, shouldCache, ttl, now, answers, format)
  }

  /** The map after the operations `ops`, in order. */
  function Run(shouldCache: bool, ttl: uint16, format: IP -> string, cache: map<string, CacheEntry>, ops: seq<Op>)
    : map<string, CacheEntry>
    decreases |ops|
  {
    if ops == [] then cache
    else Run(shouldCache, ttl, format, Apply(shouldCache, ttl, format, cache, ops[0]), ops[1..])
  }

  /** Every operation keeps the map's invariant. */
  lemma ApplyKeepsInvariant(shouldCache: bool, ttl: uint16, format: IP -> string, cache: map<string, CacheEntry>, op: Op)
    requires CacheInvariant(shouldCache, format, cache)
    ensures CacheInvariant(shouldCache, format, Apply(shouldCache, ttl, format, cache, op))
  {
  }

  /**
    Any run keeps the invariant: every stored address is non-empty and is the
    text of an IPv6-only address, and with caching off the map stays empty.
   */
  lemma {:induction false} RunKeepsInvariant(shouldCache: bool, ttl: uint16, format: IP -> string,
                                             cache: map<string, CacheEntry>, ops: seq<Op>)
    requires CacheInvariant(shouldCache, format, cache)
    ensures CacheInvariant(shouldCache, format, Run(shouldCache, ttl, format, cache, ops))
    decreases |ops|
  {
    if ops != [] {
      ApplyKeepsInvariant(shouldCache, ttl, format, cache, ops[0]);
      RunKeepsInvariant(shouldCache, ttl, format, Apply(shouldCache, ttl, format, cache, ops[0]), ops[1..]);
    }
  }

  /** With caching off, the map NewDns creates stays empty whatever operations follow. */
  lemma {:induction false} CachingOffStaysEmpty(ttl: uint16, format: IP -> string, ops: seq<Op>)
    ensures Run(false, ttl, format, map[], ops) == map[]
  {
    RunKeepsInvariant(false, ttl, format, map[], ops);
  }

  /**
    A host present after a run was present before it or was stored by a
    successful lookup of it in the run, with caching on: failed lookups and
    lookups with caching off add no host.
   */
  lemma {:induction false} RunKeysFromLookups(shouldCache: bool, ttl: uint16, format: IP -> string,
                                              cache: map<string, CacheEntry>, ops: seq<Op>, host: string)
    requires host in Run(shouldCache, ttl, format, cache, ops)
    ensures host in cache ||
            exists i :: 0 <= i < |ops| && ops[i].Lookup? && ops[i].host == host && shouldCache &&
                        Resolve(host, ops[i].answer, ops[i].now, format).Ok?
    decreases |ops|
  {
    if ops != [] {
      var next := Apply(shouldCache, ttl, format, cache, ops[0]);
      RunKeysFromLookups(shouldCache, ttl, format, next, ops[1..], host);
      if host in next && host !in cache {
        assert ops[0].Lookup? && ops[0].host == host;
      } else if host !in next {
        var i :| 0 <= i < |ops[1..]| && ops[1..][i].Lookup? && ops[1..][i].host == host && shouldCache &&
                 Resolve(host, ops[1..][i].answer, ops[1..][i].now, format).Ok?;
        assert ops[i + 1] == ops[1..][i];
      }
    }
  }
}
