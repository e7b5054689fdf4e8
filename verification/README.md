# AAAA cache model

A Dafny model of the IPv6 (AAAA) address cache in `dns.go`: a `Dns` object holding
a map from hostname to `CacheEntry{AAAA, Timestamp}`, its lookup-or-resolve
operation `AAAA`, the resolve-select-store step `lookupAAAA`, and one pass of
the background `cacheWorker` sweep that re-resolves cached hosts and evicts
those that fail after their TTL.

Files:

- `wrappers.dfy`: the `Option` datatype.
- `net_ip.dfy` (module `NetIP`): the slice of Go's `net.IP` the cache uses. `To4` and
  `To16` follow Go's documented semantics: a 4-byte address is IPv4, and a 16-byte
  address in `::ffff:0:0/96` (section 2.5.5.2 of RFC 4291) has an IPv4 form too.
- `dns.dfy` (module `DnsCache`): the entry, answer and error datatypes; the functions
  that specify each operation (`Resolve`, `Stored`, `Query`, `Revalidate`, `Swept`);
  the selection loop `SelectAAAA`; and the class `Dns`. Its methods update the `cache`
  map field in place, and each one is proved equal to its specification function.
- `dns_properties.dfy` (module `DnsProperties`): lemmas about those functions, and
  about runs of lookups and sweep passes.

The resolver, the clock and `net.IP.String` are inputs. A lookup receives the
resolver's `Answer` (`LookupFailed(cause)` or `LookupOk(ips)`) and the time `now`
in whole seconds. A sweep pass receives `now` and a function giving the answer for
each host. The `Dns` object holds `format: IP -> string` in place of `net.IP.String`.
The model keeps the source's `len(aaaa) == 0` test as written. Results that need
"the formatter never yields the empty string" take `NonEmptyFormat(format)` as a
precondition; Go's `String` has this property.

The sweep visits snapshot hosts in an order chosen by `:|`, because Go's map
iteration order is unspecified. `Sweep` is proved to give `Swept(...)` for every
order.

## Model

| member | source | states |
|---|---|---|
| `NetIP.To4` | dns.go:86 | `To4(ip)` is non-nil exactly for 4-byte addresses and 16-byte IPv4-mapped ones; the result is the address's last four bytes |
| `NetIP.To16` | dns.go:86 | `To16(ip)` is non-nil exactly for 4- and 16-byte addresses; the result is 16 bytes, and an IPv4 address gets the `::ffff:0:0/96` prefix |
| `NetIP.IPv6OnlyIff` | dns.go:86 | the test `To4() == nil && To16() != nil` holds exactly for 16-byte addresses outside `::ffff:0:0/96` |
| `NetIP.To4OfTo16` | dns.go:86 | widening an IPv4 address with `To16` and narrowing it with `To4` gives it back |
| `NetIP.IPv4NeverQualifies` | dns.go:86 | an IPv4 address fails the test both as it is and in its IPv4-mapped form |
| `NetIP.IsIPv6Only` | dns.go:86 | the test `To4() == nil && To16() != nil`; only 16-byte addresses pass it, and `IPv6OnlyIff` characterises it as "16 bytes and outside `::ffff:0:0/96`" |
| `DnsCache.FirstIPv6Only` | dns.go:85-90 | the index returned passes the test and no earlier address does; None means no address passes |
| `DnsCache.SelectAAAA` | dns.go:83-90 | the loop leaves the text of the first qualifying address in `aaaa`, or the empty string when none qualifies |
| `DnsCache.Selected` | dns.go:83-90 | the text the selection loop leaves in `aaaa`; given a never-empty formatter it is empty exactly when no address passes the test; `SelectAAAA` computes it |
| `DnsCache.Resolve` | dns.go:77-99 | a successful resolution carries a non-empty address that is the text of an IPv6-only address, and is stamped with the lookup time |
| `DnsCache.Error.Message` | dns.go:93 | the no-AAAA error reads "could not find AAAA record for" followed by the host (used by `NoQualifyingAddressFails`) |
| `DnsCache.Stored` | dns.go:101-105 | the map after `lookupAAAA`: `host` gains or takes the new entry only on success with caching on; every other key keeps its entry (`MissStoresEntry`, `MissFailureLeavesCache`) |
| `DnsCache.Query` | dns.go:55-75 | the result and map of `AAAA`: the map gains at most `host` and no other key changes; hit and miss behaviour in `HitReturnsCached`, `MissStoresEntry`, `LookupThenHit` |
| `DnsCache.Revalidate` | dns.go:42-48 | one sweep step's fate for a snapshot entry: evicted exactly when re-resolution fails and the entry has expired; otherwise kept, or replaced only with caching on and only by the entry the re-resolution produced |
| `DnsCache.Expired` | dns.go:44 | the eviction age test, timestamp plus TTL strictly before `now`, which only an entry older than `now` can pass; `SweepEvictsIff` and `GracePeriodExample` state its use |
| `DnsCache.SweptHosts` | dns.go:37-48 | the map once some snapshot hosts have been swept: no key is added; `SweepStep` relates it to the loop and `SweepOrderIrrelevant` shows the visiting order does not matter |
| `DnsCache.Swept` | dns.go:35-49 | the map after a whole pass: its keys are a subset of the snapshot's (`SweepEvictsIff`, `SweepKeepsFreshFailure`, `SweepRefreshes`) |
| `DnsCache.SweptHostsKeepsInvariant` | dns.go:42-48 | sweeping any set of hosts keeps `CacheInvariant` |
| `DnsCache.CacheInvariant` | dns.go:92-105 | what holds of the map at all times: every address non-empty and the text of some IPv6-only address, and an empty map when caching is off; kept by every `Dns` method (through `Valid`) and by `RunKeepsInvariant` |
| `DnsCache.Dns.NewDns` | dns.go:25-31 | a new cache has the given caching flag and TTL and an empty map |
| `DnsCache.Dns.LookupAAAA` | dns.go:77-108 | returns `Resolve`'s result; the map gains or overwrites `host` only on success with caching on, and otherwise is unchanged; the map invariant is kept |
| `DnsCache.Dns.AAAA` | dns.go:55-75 | returns and leaves the map as `Query` says: the cached address on a hit, `lookupAAAA`'s result on a miss |
| `DnsCache.Dns.Sweep` | dns.go:35-49 | after the pass, whatever order the snapshot hosts are visited in, the map is `Swept` of the map before it; the invariant is kept |
| `DnsCache.Dns.SweepHost` | dns.go:43-48 | returns `Resolve`'s result for the host; the map is `Stored` of the old one, minus the host when re-resolution failed and the snapshot entry has expired; the invariant is kept |
| `DnsCache.SweepStep` | dns.go:42-48 | re-resolving one snapshot host, then deleting it when that failed and it expired, extends the swept part by that host |
| `DnsProperties.ResolveSelectsFirst` | dns.go:85-99 | the stored address is that of the first qualifying IP in resolver order; later qualifying IPs are ignored |
| `DnsProperties.ResolveSucceedsIff` | dns.go:78-99 | resolution succeeds exactly when the resolver succeeds and some returned IP qualifies |
| `DnsProperties.ResolverErrorPropagates` | dns.go:78-81 | a resolver error is returned unchanged |
| `DnsProperties.NoQualifyingAddressFails` | dns.go:92-94 | with no qualifying IP the lookup fails with "could not find AAAA record for" followed by the host |
| `DnsProperties.OnlyIPv4AnswerFails` | dns.go:85-94 | an answer holding only IPv4 or IPv4-mapped addresses fails with the no-AAAA error |
| `DnsProperties.SelectionExample` | dns.go:85-90 | for the answer 10.0.0.1, fe80::1, ::2 the address chosen is fe80::1 |
| `DnsProperties.HitReturnsCached` | dns.go:56-63 | a hit returns exactly the cached address and leaves the map unchanged, whatever the entry's age or the resolver's answer |
| `DnsProperties.MissFailureLeavesCache` | dns.go:68-71 | a miss whose resolution fails returns that error and leaves the map unchanged |
| `DnsProperties.MissStoresEntry` | dns.go:96-105 | a successful miss with caching on maps the host to the selected address at time `now` and keeps every other key's entry |
| `DnsProperties.LookupThenHit` | dns.go:56-63 | after a successful lookup with caching on, the next lookup of the host returns the same address and the map does not change |
| `DnsProperties.CachingOffAlwaysResolves` | dns.go:101-105 | with caching off, every lookup is a fresh resolution and the map stays empty |
| `DnsProperties.SweepNeverAdds` | dns.go:37-48 | the keys after a sweep pass are a subset of the keys before it |
| `DnsProperties.SweepEvictsIff` | dns.go:43-47 | a host is evicted exactly when its re-resolution fails and its timestamp plus the TTL is strictly before `now` |
| `DnsProperties.SweepKeepsFreshFailure` | dns.go:43-47 | a host whose re-resolution fails but is still within its TTL keeps its entry unchanged |
| `DnsProperties.SweepRefreshes` | dns.go:43 | with caching on, a host that re-resolves gets the new address stamped `now` |
| `DnsProperties.GracePeriodExample` | dns.go:44 | with a TTL of 30 s, a failure 10 s after resolution keeps the entry and one 31 s after evicts it |
| `DnsProperties.SweepOrderIrrelevant` | dns.go:42 | sweeping two disjoint groups of hosts one after the other gives the same map as sweeping them together |
| `DnsProperties.ApplyKeepsInvariant` | dns.go:92-105 | one lookup or sweep pass keeps `CacheInvariant`: every stored address is non-empty and the text of some IPv6-only address, and with caching off the map is empty |
| `DnsProperties.RunKeepsInvariant` | dns.go:92-105 | any sequence of lookups and sweep passes keeps `CacheInvariant` |
| `DnsProperties.CachingOffStaysEmpty` | dns.go:25-30 | with caching off, the map stays empty from `NewDns` on, whatever operations follow |
| `DnsProperties.RunKeysFromLookups` | dns.go:101-105 | a host present after a run was present before, or some lookup of it in the run succeeded with caching on; failed lookups and lookups with caching off add no host |

## Left out

- Locking (`sync.Mutex`) and the interleaving of concurrent lookups with the sweep: every operation is one atomic step, so the lost-update and duplicate-resolution behaviour of concurrent misses is not modelled.
- The endless `for` loop and the 15-second `time.Sleep` of `cacheWorker`: one pass is modelled; runs of passes appear only in the lemmas about `Run`.
- `net.LookupIP`: a real DNS query; the model takes its result as an input.
- `net.IP.String`: the RFC 5952 text form is not modelled; the model takes it as the parameter `format`, and only its non-emptiness is used.
- `time.Now()` and `time.Duration`: time is an integer count of seconds given to each operation; the source reads the clock separately for each host in a sweep, while the model uses one `now` for the whole pass.
