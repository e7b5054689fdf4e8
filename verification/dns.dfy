/**
  The AAAA cache of dns.go: a map from hostname to the IPv6 address last
  resolved for it and the time it was resolved, a lookup that answers from the
  map or resolves and (when caching is on) stores, and one pass of the
  background sweep that re-resolves every cached host and evicts those that fail
  after their time-to-live.

  The network, the clock and the address formatter are inputs: a lookup is
  given the resolver's `Answer` and the current time `now` (whole seconds), and
  the cache is given the formatter `format` that stands for `net.IP.String`.
  Locking is left out: every operation is one atomic step.
 */
module DnsCache {
  import opened Wrappers
  import opened NetIP

  /** The TTL's Go type. */
  newtype uint16 = x: int | 0 <= x < 0x1_0000

  /** CacheEntry of dns.go:20-23; `timestamp` in whole seconds. */
  datatype CacheEntry = CacheEntry(aaaa: string, timestamp: int)

  /** What `net.LookupIP(host)` returned: an error, or the addresses in resolver order. */
  datatype Answer = LookupFailed(cause: string) | LookupOk(ips: seq<IP>)

  /** The two errors lookupAAAA returns. */
  datatype Error = ResolverError(cause: string) | NoAAAARecord(host: string) {
    function Message(): (m: string)
      ensures NoAAAARecord? ==> m == "could not find AAAA record for " + host
    {
      match this
      case ResolverError(cause) => cause
      case NoAAAARecord(host) => "could not find AAAA record for " + host
    }
  }

  datatype Result<+T> = Ok(value: T) | Err(error: Error)

  /** `net.IP.String` never yields the empty string. */
  ghost predicate NonEmptyFormat(format: IP -> string) {
    forall ip :: format(ip) != ""
  }

  /** Index of the first address in resolver order that passes the test of dns.go:86. */
  function FirstIPv6Only(ips: seq<IP>): (r: Option<nat>)
    ensures r.Some? ==> r.value < |ips| && IsIPv6Only(ips[r.value])
    ensures r.Some? ==> forall j :: 0 <= j < r.value ==> !IsIPv6Only(ips[j])
    ensures r.None? ==> forall j :: 0 <= j < |ips| ==> !IsIPv6Only(ips[j])
  {
    if ips == [] then None
    else if IsIPv6Only(ips[0]) then Some(0)
    else match FirstIPv6Only(ips[1..])
      case None => None
      case Some(i) => Some(i + 1)
  }

  /** The text the selection loop leaves in `aaaa`: empty when no address qualifies. */
  function Selected(ips: seq<IP>, format: IP -> string): (aaaa: string)
    ensures NonEmptyFormat(format) ==> (aaaa == "" <==> forall j :: 0 <= j < |ips| ==> !IsIPv6Only(ips[j]))
  {
    match FirstIPv6Only(ips)
    case None => ""
    case Some(i) => format(ips[i])
  }

  /** The value lookupAAAA computes before it stores anything (dns.go:78-99). */
  function Resolve(host: string, answer: Answer, now: int, format: IP -> string): (r: Result<CacheEntry>)
    ensures r.Ok? ==> r.value.aaaa != "" && r.value.timestamp == now
    ensures r.Ok? ==> exists ip :: IsIPv6Only(ip) && r.value.aaaa == format(ip)
  {
    match answer
    case LookupFailed(cause) => Err(ResolverError(cause))
    case LookupOk(ips) =>
      var aaaa := Selected(ips, format);
      if |aaaa| == 0 then Err(NoAAAARecord(host))
      else
        assert IsIPv6Only(ips[FirstIPv6Only(ips).value]);
        Ok(CacheEntry(aaaa, now))
  }

  /** The map after lookupAAAA: the new entry is written only on success with caching on (dns.go:101-105). */
  function Stored(cache: map<string, CacheEntry>, shouldCache: bool, host: string, r: Result<CacheEntry>)
    : (cache': map<string, CacheEntry>)
    ensures host in cache' <==> host in cache || (shouldCache && r.Ok?)
    ensures host in cache' ==> cache'[host] == if shouldCache && r.Ok? then r.value else cache[host]
    ensures forall k :: k != host ==> (k in cache' <==> k in cache) && (k in cache ==> cache'[k] == cache[k])
  {
    if shouldCache && r.Ok? then cache[host := r.value] else cache
  }

  /** The answer and the new map of `AAAA` (dns.go:55-75): a hit is returned as it is. */
  function Query(cache: map<string, CacheEntry>, shouldCache: bool, host: string, answer: Answer, now: int,
                 format: IP -> string): (q: (Result<string>, map<string, CacheEntry>))
    ensures q.1.Keys <= cache.Keys + {host}
    ensures forall k :: k in cache ==> k in q.1 && (k != host ==> q.1[k] == cache[k])
  {
    if host in cache then (Ok(cache[host].aaaa), cache)
    else
      var r := Resolve(host, answer, now, format);
      (match r case Ok(entry) => Ok(entry.aaaa) case Err(e) => Err(e), Stored(cache, shouldCache, host, r))
  }

  /** The test of dns.go:44: the entry's timestamp plus the TTL is strictly before `now`. */
  predicate Expired(entry: CacheEntry, ttl: uint16, now: int)
    ensures Expired(entry, ttl, now) ==> entry.timestamp < now
  {
    entry.timestamp + ttl as int < now
  }

  /**
    What one sweep step does to the entry of `host` taken from the snapshot:
    None when it is evicted, otherwise the entry it is left with.
   */
  function Revalidate(shouldCache: bool, ttl: uint16, host: string, entry: CacheEntry, answer: Answer, now: int,
                      format: IP -> string): (r: Option<CacheEntry>)
    ensures r.None? <==> Resolve(host, answer, now, format).Err? && Expired(entry, ttl, now)
    ensures r.Some? && r.value != entry ==>
              shouldCache && Resolve(host, answer, now, format).Ok? && r.value == Resolve(host, answer, now, format).value
  {
    var r := Resolve(host, answer, now, format);
    if r.Err? && Expired(entry, ttl, now) then None
    else if r.Ok? && shouldCache then Some(r.value)
    else Some(entry)
  }

  /** The map once the hosts in `done` have been swept, starting from `cache`. */
  function SweptHosts(cache: map<string, CacheEntry>, done: set<string>, shouldCache: bool, ttl: uint16, now: int,
                      answers: string -> Answer, format: IP -> string): (swept: map<string, CacheEntry>)
    ensures swept.Keys <= cache.Keys
  {
    map h | h in cache && (h in done ==> Revalidate(shouldCache, ttl, h, cache[h], answers(h), now, format).Some?)
      :: if h in done then Revalidate(shouldCache, ttl, h, cache[h], answers(h), now, format).value else cache[h]
  }

  /** The map after one whole sweep pass over `cache`. */
  function Swept(cache: map<string, CacheEntry>, shouldCache: bool, ttl: uint16, now: int,
                 answers: string -> Answer, format: IP -> string): (swept: map<string, CacheEntry>)
    ensures swept.Keys <= cache.Keys
  {
    SweptHosts(cache, cache.Keys, shouldCache, ttl, now, answers, format)
  }

  /**
    What holds of the map at all times: every address is non-empty and is the
    text of some IPv6-only address, and the map is empty when caching is off.
   */
  ghost predicate CacheInvariant(shouldCache: bool, format: IP -> string, cache: map<string, CacheEntry>) {
    && (forall h :: h in cache ==> cache[h].aaaa != "")
    && (forall h :: h in cache ==> exists ip :: IsIPv6Only(ip) && cache[h].aaaa == format(ip))
    && (!shouldCache ==> cache == map[])
  }

  /** The selection loop of dns.go:83-90: the text of the first qualifying address, or "". */
  method SelectAAAA(ips: seq<IP>, format: IP -> string) returns (aaaa: string)
    ensures aaaa == Selected(ips, format)
  {
    aaaa := "";
    var k := 0;
    while k < |ips|
      invariant 0 <= k <= |ips|
      invariant forall j :: 0 <= j < k ==> !IsIPv6Only(ips[j])
      invariant aaaa == ""
    {
      if IsIPv6Only(ips[k]) {
        aaaa := format(ips[k]);
        return;
      }
      k := k + 1;
    }
  }

  /** The `Dns` struct of dns.go:11-18. */
  class Dns {
    const shouldCache: bool
    const ttl: uint16
    const format: IP -> string
    var cache: map<string, CacheEntry>

    ghost predicate Valid()
      reads this
    {
      CacheInvariant(shouldCache, format, cache)
    }

    /** NewDns of dns.go:25-31: an empty map with the given configuration. */
    constructor NewDns(shouldCache: bool, ttl: uint16, format: IP -> string)
      ensures Valid()
      ensures this.shouldCache == shouldCache && this.ttl == ttl && this.format == format
      ensures cache == map[]
    {
      this.shouldCache := shouldCache;
      this.ttl := ttl;
      this.format := format;
      cache := map[];
    }

    /** lookupAAAA of dns.go:77-108, given the resolver's answer and the time. */
    method LookupAAAA(host: string, answer: Answer, now: int) returns (r: Result<CacheEntry>)
      requires Valid()
      modifies this
      ensures Valid()
      ensures r == Resolve(host, answer, now, format)
      ensures cache == Stored(old(cache), shouldCache, host, r)
    {
      match answer {
        case LookupFailed(cause) =>
          return Err(ResolverError(cause));
        case LookupOk(ips) =>
          var aaaa := SelectAAAA(ips, format);
          if |aaaa| == 0 {
            return Err(NoAAAARecord(host));
          }
          var entry := CacheEntry(aaaa, now);
          if shouldCache {
            cache := cache[host := entry];
          }
          return Ok(entry);
      }
    }

    /** AAAA of dns.go:55-75: the cached address on a hit, otherwise lookupAAAA's. */
    method AAAA(host: string, answer: Answer, now: int) returns (r: Result<string>)
      requires Valid()
      modifies this
      ensures Valid()
      ensures (r, cache) == Query(old(cache), shouldCache, host, answer, now, format)
    {
      if host in cache {
        return Ok(cache[host].aaaa);
      }
      var entry := LookupAAAA(host, answer, now);
      match entry {
        case Ok(e) => r := Ok(e.aaaa);
        case Err(e) => r := Err(e);
      }
    }

    /**
      The body of cacheWorker's loop for one snapshot host (dns.go:43-48):
      re-resolve it, and delete it when that fails and its snapshot entry has
      outlived the TTL.
     */
    method SweepHost(host: string, entry: CacheEntry, now: int, answer: Answer) returns (r: Result<CacheEntry>)
      requires Valid()
      modifies this
      ensures Valid()
      ensures r == Resolve(host, answer, now, format)
      ensures cache == if r.Err? && Expired(entry, ttl, now) then Stored(old(cache), shouldCache, host, r) - {host}
                       else Stored(old(cache), shouldCache, host, r)
    {
      r := LookupAAAA(host, answer, now);
      if r.Err? && Expired(entry, ttl, now) {
        cache := cache - {host};
      }
    }

    /**
      One pass of cacheWorker (dns.go:35-49): snapshot the map, then sweep
      each snapshot host in no fixed order.
     */
    method Sweep(now: int, answers: string -> Answer)
      requires Valid()
      modifies this
      ensures Valid()
      ensures cache == Swept(old(cache), shouldCache, ttl, now, answers, format)
    {
      var snapshot := cache;
      var pending := snapshot.Keys;
      ghost var done: set<string> := {};
      while pending != {}
        invariant done !! pending && done + pending == snapshot.Keys
        invariant cache == SweptHosts(snapshot, done, shouldCache, ttl, now, answers, format)
        invariant Valid()
        decreases pending
      {
        var host :| host in pending;
        ghost var before := cache;
        var r := SweepHost(host, snapshot[host], now, answers(host));
        SweepStep(snapshot, done, host, before, r, cache, shouldCache, ttl, now, answers, format);
        pending := pending - {host};
        done := done + {host};
      }
      assert done == snapshot.Keys;
    }
  }

  /** One loop step of Sweep extends the set of swept hosts by `host`. */
  lemma SweepStep(snapshot: map<string, CacheEntry>, done: set<string>, host: string,
                  before: map<string, CacheEntry>, r: Result<CacheEntry>, after: map<string, CacheEntry>,
                  shouldCache: bool, ttl: uint16, now: int, answers: string -> Answer, format: IP -> string)
    requires host in snapshot && host !in done
    requires before == SweptHosts(snapshot, done, shouldCache, ttl, now, answers, format)
    requires r == Resolve(host, answers(host), now, format)
    requires after == if r.Err? && Expired(snapshot[host], ttl, now) then Stored(before, shouldCache, host, r) - {host}
                      else Stored(before, shouldCache, host, r)
    ensures after == SweptHosts(snapshot, done + {host}, shouldCache, ttl, now, answers, format)
  {
    var target := SweptHosts(snapshot, done + {host}, shouldCache, ttl, now, answers, format);
    assert forall h :: h in after <==> h in target;
  }

  /** Sweeping any set of hosts keeps the map's invariant. */
  lemma SweptHostsKeepsInvariant(cache: map<string, CacheEntry>, done: set<string>, shouldCache: bool, ttl: uint16,
                                 now: int, answers: string -> Answer, format: IP -> string)
    requires CacheInvariant(shouldCache, format, cache)
    ensures CacheInvariant(shouldCache, format, SweptHosts(cache, done, shouldCache, ttl, now, answers, format))
  {
    var swept := SweptHosts(cache, done, shouldCache, ttl, now, answers, format);
    forall h | h in swept
      ensures swept[h].aaaa != "" && exists ip :: IsIPv6Only(ip) && swept[h].aaaa == format(ip)
    {
      if h in done {
        var r := Resolve(h, answers(h), now, format);
        if !(r.Ok? && shouldCache) {
          assert swept[h] == cache[h];
        }
      }
    }
  }
}
