# Verification of the DNS splitter

A Dafny 4.11 model of a DNS server that routes each query by the category of its domain, and proofs of what the
server keeps. `dafny verify dfyconfig.toml` checks everything.

The centre is the record-level cache and the router over it. A lookup walks CNAMEs through the cache; if the walk
ends at records of the wanted type the query is answered at once, otherwise only the tail of the chain is asked
upstream, the reply is put after the cached aliases, and the merge is cached again, record group by record group.
While it walks, every lookup drops expired entries from the very map it walks over.

How the model is built:

- What the program changes in place is a class: the cache and its items (`MemoryDNSCache`, `RRCacheItem`), the
  category table, the upstream manager, the router, the response message. Their methods have the loops and branches
  of the program and are proved equal to functions on values: `Abs()` gives the store as a map, `RouteSpec` is one
  query as a function of the store, the settings and the choices of time and scheduling (`Schedule`).
- The results about runs are lemmas about those functions, and `Serving.Serve` ties them to the object: a router that
  serves any list of queries produces a run of calls in the sense of those lemmas.
- The two fan-out protocols, the lock steps of the cache and concurrent queries are state machines; their lemmas range
  over all runs.
- Time is in nanoseconds. A clock never runs backwards and may advance by any amount between two readings. TTLs are
  32-bit. Division truncates toward zero, as in Go (`TruncDiv`).
- Upstream groups answer as an arbitrary function of group, name, type and number of the call, after any latency.
  GeoIP and ASN databases are an arbitrary predicate.

| file | content |
|---|---|
| `dns.dfy` | records, messages, names, grouping an answer by owner and type |
| `dns_cache.dfy` | TTL arithmetic, the cache as a value, the cache object |
| `chain_walk.dfy` | the CNAME walk as a recursion and as the loop |
| `name_case.dfy` | the spelling of names in cache keys |
| `split_lock.dfy`, `interleaved.dfy` | the cache lock by lock, under concurrent calls; walks that interleave with them |
| `zone_paths.dfy`, `concurrent_route.dfy`, `overlapping.dfy` | whole queries that run at once over one cache; the TTLs they are served |
| `router_model.dfy`, `router.dfy` | one query as a function, and as methods of the router |
| `serving.dfy`, `served_ttl.dfy` | the router over a run of queries; the TTLs it serves |
| `transparency.dfy`, `round_trip.dfy`, `ttl_drift.dfy` | the three main results about the cache |
| `frequent_hits.dfy` | a run that keeps an alias alive for ever |
| `alias_ring.dfy` | two aliases that form a loop, and how their copies multiply in the cache |
| `policy_options.dfy` | which policy decides and how far its options reach |
| `ecs_fallback.dfy`, `group_query.dfy` | the two fan-out protocols |
| `matcher.dfy` | longest-suffix matching and learning |
| `config.dfy`, `startup.dfy` | validation and loading |
| `truncation.dfy` | UDP truncation |
| `log_path.dfy`, `log_cleanup.dfy` | path cleaning, log clean-up |
| `escape_json.dfy` | JSON escaping |

Where code and documentation disagree the model follows the code. What the proofs show about it:

- The README gives the ECS fan-out three seconds (README.md:463). The timeout leaves the `select`, not the loop:
  after it the router waits for a query to finish (`EcsFallback.TimeoutDoesNotEndTheWait`). The three-second timer
  does not bound that wait; what does is the five-second timeout that each exchange with a nameserver has of its own
  (upstream/manager.go:53, upstream/group.go:41).
- A cache key is said to be lower case (cache/dns_cache.go:40); it is only made fully qualified, so a name
  asked in another case is asked upstream again (`NameCase.FoundOnlyAsSpelled`, `NameCase.OtherCaseAsksAgain`).
- A full cache hit is answered before any policy is looked at, so a blocked domain is answered from the cache as long
  as records of it are fresh (`Transparency.BlockedExactlyBelowFullHit`, `RoundTrip.CachedTailIsServedUnderAnyPolicy`).
- The options of a policy end where a misfit of expected_ips begins: the replacement is not stripped, and the fan-out
  caches it in spite of disable_cache (`PolicyOptions.StripsUnlessReplaced`, `PolicyOptions.CachesOnlyIfReplaced`).
- An alias asked for more than once a second keeps its full TTL for ever, if each time its tail is not in the cache
  (`TTLDrift.KeepsTTLIffWithinASecond`, `FrequentHits.AskedTwicePerSecondItNeverExpires`); a full hit refreshes
  nothing (`Transparency.FullHitFilesNothing`).
- Nothing looks for loops before an answer is cached. A walk round two aliases of each other collects each of them five
  times, the merged reply is cached with all copies, and so every query that goes round in vain multiplies the copies
  in the cache by five while they are fresh (`AliasRing.RingGrows`, `AliasRing.LoopFillsTheCache`).
- A query that is overtaken while it walks can serve a record with a higher TTL than the upstream gave
  (`Overlapping.OverlappingQueryServesMore`), but never with none left (`SplitLock.ServedWithTimeLeft`).
- A category learned for a domain asked with an upper-case letter is never found again
  (`Matching.LearnedWhenNormal`, `Matching.UpperCaseIsNeverRead`); the trailing dot is taken off before a query is
  routed (server/server.go:68).
- A lookup overtaken by a store to the same key can delete what was just stored (`SplitLock.LookupCanLoseAStore`,
  `SplitLock.StoreIsLost`).
- A CNAME query overtaken by a store between its two lookups can follow the alias it should have returned
  (`Interleaved.AliasQueryMeetsZoneIff`, `Interleaved.AliasQueryGoesWrong`).
- The log clean-up compares the configured path with cleaned ones: with a path such as ./logs/dns.log it can delete
  the active log (`LogCleanup.ActiveLogIsExemptIffTidy`, `LogCleanup.ActiveLogCanBeRemoved`).
- After a nameserver that could not be created, replies are reported under the wrong nameserver's name
  (`GroupQuery.NamesAreRightIff`, `GroupQuery.WrongNameOccurs`).

## Model

| member | source | states |
|---|---|---|
| `CacheModel.ExpiredIffNothingLeft` | cache/dns_cache.go:23-36 | the two ways to read an item's age agree: expired means no TTL left, for all items and instants but a TTL-0 item stamped less than a second after the instant asked about |
| `CacheModel.NanosecondsFit` | cache/dns_cache.go:23-26 | every 32-bit TTL in nanoseconds fits a signed 64-bit duration |
| `CacheModel.ClampBounds` | cache/dns_cache.go:140-145 | the clamp keeps a short TTL as it is and cuts a long one to the last whole second within the limit, neither more nor less; clamping twice is clamping once |
| `CacheModel.StoredRecordLives` | cache/dns_cache.go:127-152 | of a store in nanoseconds: each record is there in its place, and at or after the store it is live exactly as long as its TTL says or, if that exceeds the cache's limit, for the whole seconds within the limit (main.go:274 sets 24 hours) |
| `CacheModel.LookupPurges` | cache/dns_cache.go:97-124 | a lookup leaves of its own entry just the live records, of one with none nothing at all, and every other entry alone |
| `CacheModel.EvictionIsInvisible` | cache/dns_cache.go:84-124 | whatever a lookup drops or rewrites, every key shows the same live records at every instant from the lookup's clock reading on |
| `CacheModel.SetRespectsView` | cache/dns_cache.go:127-152 | a store applied to two caches nobody can tell apart leaves two that nobody can tell apart |
| `CacheModel.GetKeepsWellFormed` | cache/dns_cache.go:84-124 | a lookup keeps: no empty entry, records of the entry's own key, TTLs within the limit, stored in the past |
| `CacheModel.SetKeepsWellFormed` | cache/dns_cache.go:127-152 | so does a store of records that belong under its key, whatever their TTLs |
| `CacheModel.ServedTTLBounds` | cache/dns_cache.go:28-36 | a record that a lookup finds live is served with a TTL between 1 and the limit, and the 32-bit conversion changes nothing |
| `CacheModel.RemainingExceedsIff` | cache/dns_cache.go:28-36 | for a walk that began before the store it reads, the remaining TTL exceeds the stored one exactly if it began a whole second earlier or more |
| `CacheModel.KeyStringInjective` | cache/dns_cache.go:45-48 | two different keys never have the same key string, whatever colons and digits the names contain |
| `CacheModel.KeyStringReads` | cache/dns_cache.go:45-48 | the key string of a lookup is the name with its final dot, the type in decimal without leading zeros and class 1, with colons between |
| `NameCase.KeyKeepsSpelling` | cache/dns_cache.go:84-89 | two lookups have the same key exactly if their types agree and their names are spelled alike, but for a final dot that one of them lacks |
| `NameCase.SpellingsHaveDifferentKeys` | cache/dns_cache.go:38-43 | two spellings of one name that differ in the case of letters have different keys |
| `NameCase.FoundOnlyAsSpelled` | cache/dns_cache.go:248-291 | records of a name, filed with whatever else the answer holds into whatever cache and still fresh, are found by a query that spells the name as they do; a query with another spelling, under which nothing is live, finds nothing |
| `NameCase.OtherCaseAsksAgain` | router/router.go:56-126 | so a query for the same name in another case, with nothing live under that spelling, is not answered from the cache: unless its policy blocks it, its group or the fan-out is asked again |
| `MemoryCache.FilterExpired` | cache/dns_cache.go:99-106 | exactly the items not expired are kept, in order |
| `MemoryCache.MemoryDNSCache.GetRRs` | cache/dns_cache.go:84-124 | returns the live view of the key at one clock reading, reports a hit exactly if it is non-empty, and leaves exactly the specified store |
| `MemoryCache.MemoryDNSCache.SetRRs` | cache/dns_cache.go:127-152 | replaces the entry by the given items, clamped and stamped with one clock reading; no items, no change; no other entry changes |
| `MemoryCache.MemoryDNSCache.SetSingleRR` | cache/dns_cache.go:155-174 | files one item under its record's own name, type and class, as they are |
| `MemoryCache.MemoryDNSCache.DeleteRRs` | cache/dns_cache.go:177-189 | removes that key and nothing else |
| `MemoryCache.StampAll` | cache/dns_cache.go:139-145 | clamps and stamps every item of the list, also when one is listed twice |
| `ChainWalk.ResolveCNAMEChain` | cache/dns_cache.go:248-291 | the loop, with its own clock readings and with every lookup purging the map it walks over, returns the recursive walk over the cache as it was, and leaves a cache that shows the same |
| `ChainWalk.WalkIsConnected` | cache/dns_cache.go:248-291 | with one alias per owner the answers are a connected chain from the queried name; the upstream target is its end; below the depth limit that end has neither the wanted type nor an alias live |
| `ChainWalk.FullHitHasAnswer` | router/router.go:65-74 | a full hit has at least one record, so the first one may be looked at; a walk that found nothing stands where it began |
| `ChainWalk.LastAliasIsFollowed` | cache/dns_cache.go:276-287 | of several records under a CNAME key the walk follows the last alias, and stays where it is if there is none |
| `ChainWalk.AliasThenTail` | cache/dns_cache.go:257-287 | by the numbers of the protocol: with nothing live of the wanted type under a name, the live alias under type 5 and class 1 comes first, then all that is live of the wanted type under its target, in stored order |
| `ChainWalk.CyclicChainIsCutOff` | cache/dns_cache.go:253-290 | if at the readings of the walk the names it visits lead round a cycle of aliases, however many copies of an alias an entry holds, the walk ends all the same: it has at least `depth` aliases and asks upstream for a name of the cycle |
| `ChainWalk.OneAliasPerRound` | cache/dns_cache.go:253-290 | where the cache shows at most one alias per owner, which a cache that has filed a cycle again no longer does, an unfinished walk has at most `depth` aliases, so on a cycle exactly as many |
| `ChainWalk.TwoNameCycle` | cache/dns_cache.go:253-290 | two names aliased to each other are such a cycle as long as both entries are fresh; with one copy of each the walk has exactly `depth` aliases |
| `AliasRing.RingGrows` | router/router.go:56-160 | a query for a name of such a pair, under any ordinary policy that caches, whose group answers without records: if the cache held p copies of either alias, the reply carries 10 p aliases and the cache then holds 5 p copies of either, for all clock readings, store times and orders of the groups, and still fresh as long as they were |
| `AliasRing.RingGrowsOverRuns` | router/router.go:56-291 | so over every run in time with k such queries, as long as the first copies are fresh at its end, the copies grow by a factor of 5 to the k |
| `AliasRing.LoopFillsTheCache` | router/router.go:246-291 | such runs start from an empty cache: after one answer that holds both aliases and k queries without records, 5 to the k copies of either alias are in the cache; none of those k calls files anything anew, so the bound on drift holds of every copy, though no zone without cycles could give such answers |
| `ChainWalk.WalkRespectsView` | cache/dns_cache.go:248-291 | the walk depends on the live view only, from its first clock reading on |
| `SplitLock.OnlyStoredLiveRecordsAreReturned` | cache/dns_cache.go:84-152 | in every interleaving of the lock steps of any number of lookups, stores, deletes and clears, each record returned was stored under that key and had not expired at the lookup's clock reading |
| `SplitLock.ServedWithTimeLeft` | cache/dns_cache.go:84-152 | in every such interleaving a record returned by a lookup has at least one second of TTL left at any clock reading its caller took before the lookup's own |
| `SplitLock.CleanUpIsInvisibleIffUnchanged` | cache/dns_cache.go:108-121 | a clean-up that writes is invisible exactly if the entry still shows what its lookup saw |
| `SplitLock.LookupCanLoseAStore` | cache/dns_cache.go:91-121 | from every state whose entry for a key has expired there is a run in which a complete store to that key is deleted by an older lookup |
| `SplitLock.StoreIsLost` | cache/dns_cache.go:84-152 | a run from an empty cache ends with a store that was made, whole and unexpired, and is gone |
| `Interleaved.LookupsReturnWholeRRsets` | cache/dns_cache.go:84-152 | if stores bring whole RRsets of a zone, then in every interleaving of the lock steps each lookup returns nothing or the zone's whole RRset |
| `Interleaved.AloneItIsTheWalk` | cache/dns_cache.go:257-290 | a walk described by what its lookups returned is, with nobody else about, the walk over the cache |
| `Interleaved.InterleavedWalkMeetsZone` | cache/dns_cache.go:248-291 | so a walk for any type but CNAME, however its lookups interleave with other calls, finds what the zone says, with its upstream target to ask for the rest |
| `Interleaved.AliasQueryMeetsZoneIff` | cache/dns_cache.go:257-287 | a CNAME query, whose rounds look twice under one key, is answered as the zone says exactly if no store came between the two lookups of the first round, or the alias then found leads to a name that has none |
| `Interleaved.OvertakingIsReachable` | cache/dns_cache.go:257-274 | such a round is reached from every state without an entry for the key |
| `Interleaved.AliasQueryGoesWrong` | cache/dns_cache.go:253-290 | a zone of two aliases and a run from an empty cache, with one store of a whole RRset, in which a walk of the default depth for a CNAME record is not completed to the zone's answer |
| `ZonePaths.PathCompletes` | cache/dns_cache.go:248-291 | for every type but CNAME, aliases that lead through the zone, followed by its answer for their end, are its answer for their start |
| `ZonePaths.PathBefore` | router/router.go:190-195 | for every type, CNAME too, such aliases in front of an answer for their end hold of each RRset all of it or nothing, with one TTL |
| `ZonePaths.MissAfterPath` | router/router.go:76-160 | so whatever policy decides, all that is filed below a full hit is whole RRsets, and a reply that no policy blocks or strips is the zone's answer for every type but CNAME |
| `ConcurrentRoute.ConcurrentRepliesMeetZone` | router/router.go:56-160 | any number of queries at once over one cache, with the steps of each (lookups lock by lock, asking, merging, filing group by group) in any interleaving: every reply for a type other than CNAME that is a full hit, or that no policy blocks or strips, is the zone's own answer |
| `ConcurrentRoute.ConcurrentRepliesAreAsExpected` | router/router.go:56-243 | and of every other reply of such a run too, for every type: below a full hit a blocking policy gives just its block reply; any other reply has the zone's records in order, under disable_https and below a full hit without the HTTPS ones unless it replaces one that does not fit; for a CNAME query it has them exactly unless the walk followed the alias that was asked for to a name with an alias too and the reply begins with what the walk found, which the fan-out's does not |
| `ConcurrentRoute.ConcurrentStoresAreWhole` | router/router.go:246-291 | all that such queries store is whole RRsets of the zone, also what a CNAME query led astray stores |
| `ConcurrentRoute.CacheTakesItsOwnSteps` | cache/dns_cache.go:84-152 | the cache sees of such a run only steps of its own, so all that is stated of its runs lock by lock applies |
| `Overlapping.ConcurrentRecordsAreAlive` | cache/dns_cache.go:248-291 | in every run of concurrent queries, whatever the upstreams answer, each record that a query took from the cache had at least one second left at the clock reading its TTL was computed for |
| `Overlapping.OverlappingQueryServesMore` | cache/dns_cache.go:248-291 | a run of concurrent queries from an empty cache, over groups that answer from a zone, reaches two replies: one query misses, asks, files an address with a TTL of 60 and replies; one that arrived d seconds before it then finds the address and serves it with a TTL of 60 + d |
| `RouterModel.GroupsPartitionAnswer` | router/router.go:249-280 | the groups by owner and type together are the answer section, record for record with multiplicity |
| `RouterModel.CacheWritesExactly` | router/router.go:246-291 | after caching, each grouped key holds exactly its group in order, clamped and stamped, and every other key is as before |
| `RouterModel.OrderIrrelevantIffNoClash` | router/router.go:277-290 | at one store time the map's iteration order does not matter, for any cache, exactly if no two groups of one type have names that differ only in a trailing dot |
| `RouterModel.WireNamesDoNotClash` | router/router.go:277-290 | records with fully qualified names, as they come off the wire, never clash |
| `RouterModel.WriteAllRespectsView` | router/router.go:246-291 | what calls file into two caches nobody can tell apart leaves two that nobody can tell apart |
| `RouterModel.LearnsWhoAnswered` | router/router.go:311-456 | proxy_ecs and proxy are asked, and direct exactly if an A or AAAA record received from proxy_ecs has an address that matches a rule; direct_site is learned exactly if direct was asked and answered, proxy_site exactly if it was not asked and proxy or else proxy_ecs gave the reply, nothing exactly if there is no reply; the reply is that message, filtered as the policy says |
| `EcsFallback.AddressesOf` | utils/dns.go:10-21 | the addresses of an answer are those of its A and AAAA records and no others |
| `RouterObject.CacheResponse` | router/router.go:246-291 | the two loops over records and over the map of groups file each group of the answer exactly once, at times between start and end |
| `RouterObject.Collect` | router/router.go:337-374 | the select loop of the router object ends as some finished run of the protocol does |
| `RouterObject.ValidateIPs` | router/router.go:471-492 | true exactly if for every A and AAAA record of the answer some rule matches its address, in particular if there is no such record |
| `RouterObject.AnyAddressMatches` | router/router.go:388-389 | true exactly if some rule matches the address of some A or AAAA record of the answer |
| `RouterObject.Router.FindPolicyNamed` | router/router.go:164-177 | a policy of that name if there is one, the first; without one the policy named unknown for proxy_ecs_fallback, without options |
| `RouterObject.Router.HandleProxyECSFallback` | router/router.go:311-456 | reply, cache, category to learn and groups asked are those of the specified fan-out, whatever was received |
| `RouterObject.Router.HandleIPValidation` | router/router.go:197-243 | a misfit is replaced by the fallback group's merged reply, unfiltered, or else by the fan-out under a fresh policy |
| `RouterObject.Router.RouteUpstream` | router/router.go:120-160 | the ordinary branch: ask for the tail, merge, filter, validate, cache, in this order and with these exceptions |
| `RouterObject.Router.Route` | router/router.go:56-160 | one query: reply, new cache up to purging, learned category, upstream calls and their order are those of the specification for some schedule in which at least one fan-out result was received |
| `RouterObject.Router.RunPending` | router/router.go:459-468 | one background write reaches the category table, as domain and category were when the query ended |
| `Serving.Serve` | router/router.go:56-160 | a router object serving any list of queries one after another from an empty cache, with background writes happening in any order between them, produces a run of calls: every reply is that of one call over the store which the calls before it filed, whatever was purged on the way |
| `Serving.RouteRespectsView` | router/router.go:56-74 | a call has the same outcome over two caches that show the same from its start on |
| `Serving.ServedRunMeetsZone` | router/router.go:56-160 | in such a run, with groups answering from one stable zone, every reply that is a full hit, or that no policy blocks or strips of HTTPS records, is the zone's own answer to the query, TTLs apart; the other queries of the run may meet any policies |
| `Serving.StrippedRunMeetsZone` | router/router.go:134-149 | and every reply of such a run below a full hit under disable_https is the zone's answer without its HTTPS records, unless it replaces one that does not fit expected_ips |
| `ServedTTL.RunsKeepWellFormed` | router/router.go:246-291 | after every run each entry holds records of its own key, within the limit, stored in the past; nothing is assumed of the upstreams |
| `ServedTTL.EveryServedTTLIsInRange` | cache/dns_cache.go:248-291 | every record that any call of a run of calls that follow one another takes from the cache has a TTL of at least one second and at most the limit, which main.go sets to 86400 seconds; the upper bound needs that calls do not overlap, the lower one does not (`SplitLock.ServedWithTimeLeft`) |
| `Transparency.WalkMeetsZone` | cache/dns_cache.go:248-291 | over a cache that holds only whole RRsets of the zone, what a walk finds followed by the zone's answer for where it stopped is the zone's answer for where it began |
| `Transparency.RunsKeepSound` | router/router.go:56-160 | every run, under any policies, leaves only whole RRsets of the zone in the cache, each with one TTL |
| `Transparency.RouteMeetsZone` | router/router.go:56-160 | over such a cache the reply is the zone's answer, same records in the same order: full hit, partial hit, depth exhausted, miss, ordinary group, expected_ips, fallback group or fan-out |
| `Transparency.CacheIsTransparent` | router/router.go:63-160 | after any run a call returns the records, in order and TTLs apart, that the same question brings over an empty cache |
| `Transparency.FullHitIgnoresPolicy` | router/router.go:65-74 | on a full hit this holds under every policy, also one that blocks or strips HTTPS records |
| `Transparency.BlockedExactlyBelowFullHit` | router/router.go:63-117 | a domain under a blocking policy gets its block reply exactly if the cache cannot answer in full, or holds just the records that the block reply would carry; that reply is NXDOMAIN unless the block type is noerror or 0.0.0.0, and for the latter it carries 0.0.0.0 or :: with a TTL of 60 to an A or AAAA query and nothing to any other |
| `Transparency.FullHitFilesNothing` | router/router.go:65-74 | a full hit is answered with a success that holds just the records of the walk; it asks nobody, learns nothing and leaves the cache as it was, so it refreshes no entry |
| `Transparency.SoundStoreHasOneAliasPerOwner` | cache/dns_cache.go:270-287 | a cache of whole RRsets shows at most one alias per name, owned by that name |
| `Transparency.RunsWalkConnected` | cache/dns_cache.go:248-291 | so after every run with honest groups the cached part of a reply is one connected chain from the queried name, ending for the reason its result gives |
| `RoundTrip.StoreThenResolve` | router/router.go:246-291 | after an answer holding an alias chain in any order was cached and until its smallest clamped TTL runs out, a walk returns exactly the chain, in order, TTLs less the whole seconds elapsed, needing no upstream, if and only if the chain has at most as many owners as the walk's depth; otherwise it asks for the owner it has reached |
| `RoundTrip.NothingLostNothingAdded` | cache/dns_cache.go:248-291 | if the answer is nothing but the chain, what is served is a rearrangement of all its records |
| `RoundTrip.CachedTailIsServedUnderAnyPolicy` | router/router.go:65-74 | a name that was only the tail of another name's answer is then served from the cache, whatever its own policy says |
| `TTLDrift.RecacheDrift` | router/router.go:135-155 | one re-caching of an alias never raises its TTL and moves its expiry by its latency plus the fraction of a second cut off, so by less than its latency plus one second |
| `TTLDrift.DriftBound` | router/router.go:246-291 | after k re-cachings of one item, one after the other, its expiry is no earlier than at first and below that plus k seconds plus the summed latencies |
| `TTLDrift.PartialHitRecaches` | router/router.go:120-231 | whatever the upstreams answer: a partial hit through an ordinary group, with expected_ips and fallback_group or without, files every alias it served again; where no names of its reply clash, the alias's entry then holds the old item with the remaining TTL at the walk's clock reading and the time stamp of its own write |
| `TTLDrift.OneCallRecaches` | router/router.go:56-291 | under any policy and with any upstreams: a call that files nothing under a key but records its own walk has found either leaves the entry alone, or every item of the new entry is an unexpired item of the old one, re-cached within the call |
| `TTLDrift.SilentMeansNotAnew` | router/router.go:120-231 | a call does so if no group's answer to what the call may ask has a record under the key |
| `TTLDrift.StretchRecaches` | router/router.go:56-160 | over any stretch of any run of calls that follow one another in which nothing is filed anew under a key, whatever else the upstreams answer, every item of the entry at its end is an item of the entry at its beginning, re-cached in order, once by each call that filed the key |
| `TTLDrift.DriftOverRuns` | router/router.go:56-160 | so over such a stretch with k re-filings no item has a higher TTL number than the one it came from, and its expiry has moved by less than k seconds plus the time those k calls took, and never back |
| `TTLDrift.OneAliasDrifts` | router/router.go:56-160 | if besides all groups answer from one stable zone, the entry of an alias is a single item throughout, to which that bound applies |
| `TTLDrift.KeepsTTLIffWithinASecond` | cache/dns_cache.go:29-36 | a re-caching keeps the TTL number exactly if less than one whole second has passed since the last filing |
| `FrequentHits.AskedTwicePerSecondItNeverExpires` | router/router.go:56-160 | the number of re-filings cannot be left out of the bound: in a run of calls for an alias to a name without records of the type, half a second apart, every call but the first files just the cached alias again and leaves it its full TTL, so it never expires |
| `FrequentHits.SuchASettingExists` | router/router.go:56-160 | there are a zone, groups and a policy for which that run happens |
| `PolicyOptions.FirstPolicyWins` | router/router.go:164-177 | the first policy of a name decides; exactly if there is none it is one named unknown, for proxy_ecs_fallback, without options |
| `PolicyOptions.NoPolicyMeansFanout` | router/router.go:84-122 | below a full hit a domain whose category has no policy, or that has no category while there is no policy named unknown, goes through the fan-out without options |
| `PolicyOptions.UnknownGroupFails` | router/router.go:124-132 | a policy for a group that does not exist gives no reply, files nothing and learns nothing |
| `PolicyOptions.ReplacedIff` | router/router.go:197-241 | the reply of an ordinary group is replaced exactly if the policy names expected_ips and some A or AAAA record of the filtered reply, cached part included, has an address that none of them matches |
| `PolicyOptions.ReplyIsItsSources` | router/router.go:120-243 | below a full hit the reply has the response code and the flags of the message that gave it, whether from the policy's group, its fallback group or the fan-out; its records are the cached aliases, unless the fan-out answered, followed by that message's, stripped exactly if the policy says so and nothing was replaced |
| `PolicyOptions.FilesItsReply` | router/router.go:151-160 | under a policy that caches, just the reply is filed, and it is filed whenever there is one |
| `PolicyOptions.FilteredMeans` | router/router.go:494-525 | filtering takes the records of types 64 and 65 out of Answer and Additional if the policy says so, and changes nothing else |
| `PolicyOptions.StripsUnlessReplaced` | router/router.go:135-149 | disable_https strips every reply below a full hit, except exactly the replacement of one that does not fit expected_ips: a fallback group's answer and the fan-out's are handed on whole |
| `PolicyOptions.CachesOnlyIfReplaced` | router/router.go:232-240 | disable_cache keeps everything out of the cache, except exactly when the fan-out has replaced a reply that does not fit |
| `PolicyOptions.StrippedReplyMeetsZone` | router/router.go:134-149 | over a cache of whole RRsets, below a full hit, the reply under disable_https is the zone's answer without its HTTPS records, in order, unless it replaces one that does not fit |
| `PolicyOptions.StrippedPolicyHandsOnHTTPS` | router/router.go:205-231 | the first exception occurs in a call over an empty cache: an ANY query under disable_https whose fallback group answers with an HTTPS record |
| `PolicyOptions.UncachedPolicyCaches` | router/router.go:232-240 | the second occurs in a call over an empty cache: an A query under disable_cache whose address fits no expected_ips rule |
| `Transparency.HonestGroupsExist` | router/router.go:126 | the assumption of the results about zones can be met: for every zone there are groups that always answer from it, with any TTL |
| `EcsFallback.DecidesOnFinishedQueries` | router/router.go:337-374 | in every run the loop ends after exactly two events, at most one of them the timeout, so with at least one result; with both exactly if the timeout was not taken |
| `EcsFallback.ScheduleIndependent` | router/router.go:376-456 | the outcome depends only on which results were received, not on their order or on the timer |
| `EcsFallback.RunsLeaveExactly` | router/router.go:337-374 | the finished runs of the loop leave exactly these pairs of variables: each its own query's result or nothing, and at least one its result |
| `EcsFallback.ProducersNeverBlock` | router/router.go:324-335 | a producer can always send, also after the decision |
| `EcsFallback.NoDeadlock` | router/router.go:324-374 | before two events were taken some step is possible |
| `EcsFallback.EveryStepMakesProgress` | router/router.go:324-374 | every step uses up a finite amount of work, so every run ends |
| `EcsFallback.TimeoutDoesNotEndTheWait` | router/router.go:341-374 | once the timeout was taken the loop can go on exactly if a query has finished |
| `EcsFallback.WaitAfterTimeoutIsReachable` | router/router.go:341-374 | such a wait, with both queries under way, is reached |
| `GroupQuery.SendersNeverBlock` | upstream/group.go:301-326 | in every interleaving a worker that has decided to send finds room in the channel, also after the query has returned |
| `GroupQuery.NothingIsLost` | upstream/group.go:329-354 | while the receiver listens under a live context, a result is queued or a worker is still to send one |
| `GroupQuery.RestsOnlyWhenAllIsDone` | upstream/group.go:297-358 | a run comes to rest only when the query has returned and every worker has sent or quit: no deadlock, no worker left behind |
| `GroupQuery.EveryStepMakesProgress` | upstream/group.go:297-358 | every step uses up a finite amount of work, so every run comes to rest |
| `GroupQuery.OutcomeIsJustified` | upstream/group.go:329-358 | an answer is that of the first success received, which had a response and no error; "all failed" means that every upstream had an error or no response, and it names the error received last; a timeout means that the caller's context had ended |
| `GroupQuery.SucceedsIffSomeUpstreamDoes` | upstream/group.go:329-358 | if the caller's context has not ended, the query succeeds exactly if some upstream does, in every schedule |
| `GroupQuery.NewGroup` | upstream/group.go:153-174 | the upstreams are those of the nameservers that could be created, in order, and no more than there are nameservers |
| `GroupQuery.NamesAreRightIff` | upstream/group.go:308-326 | every reply is reported under its own nameserver's name exactly if no nameserver that could not be created stands before one that could |
| `GroupQuery.WrongNameOccurs` | upstream/group.go:164-171 | two nameservers of which only the second can be created: its replies go under the name of the first |
| `Matching.JoinSplit` | router/matcher.go:36-38 | splitting a name at its dots and joining the parts again gives the name |
| `Matching.Matcher.Match` | router/matcher.go:24-46 | the loop over split and re-joined labels computes the specified match |
| `Matching.Matcher.MatchExact` | router/matcher.go:49-61 | succeeds exactly if the normalised name itself has an entry |
| `Matching.BestIsLongestSuffix` | router/matcher.go:24-46 | the match is the category of the longest label suffix with a non-empty entry, and there is none exactly if no suffix has one |
| `Matching.MatchIsUnique` | router/matcher.go:24-46 | that property determines the match |
| `Matching.CaseAndDotInsensitive` | router/matcher.go:24-28 | two names that differ in the case of letters only have the same match; one trailing dot is ignored exactly if the name before it does not end in a dot |
| `Matching.LowerCaseIsFound` | router/matcher.go:24-46 | an entry in lower case is found for its name in whatever case it is asked, with or without the final dot |
| `Matching.RootMatchesNothing` | router/matcher.go:25-28 | the empty name and the root match nothing, whatever the table holds |
| `Matching.FoundAtLabelsOnly` | router/matcher.go:35-43 | an entry by itself in lower case is found for its own name and for every name that ends in a dot and it, and for no other name that ends like it |
| `Matching.LearningOne` | cache/category_cache.go:49-55 | a new entry changes a lookup exactly if it is a label suffix of the name and no longer suffix has an entry; then the lookup gives the new category |
| `Matching.LearnedWhenNormal` | router/router.go:459-468 | what is learned for a domain is found by the next lookup of that domain exactly if the domain has no letter from A to Z and no dot at its end |
| `Matching.UpperCaseIsNeverRead` | router/router.go:459-468 | an entry learned for a domain with a letter from A to Z changes no lookup of any domain |
| `Matching.LearningIsLocal` | router/router.go:459-468 | after any sequence of learned entries a changed match is due to one of them that is now the longest entry |
| `Matching.MemoryCategoryCache.BatchSet` | cache/category_cache.go:58-67 | in whatever order the entries are written, the table is the old one overridden by them |
| `Config.ValidateUpstreamGroup` | config/validate.go:79-92 | succeeds exactly if proxy, proxy_ecs and direct exist with a nameserver each, and otherwise names the first fault |
| `Config.ValidateOutbound` | config/validate.go:94-134 | succeeds exactly if every SOCKS5 outbound has a server and a port, every group's outbound exists and every nameserver behind one that is not direct uses HTTPS |
| `Config.LastEntryCounts` | config/validate.go:94-113 | of several outbounds with one tag the last decides its type; without an entry the tag direct exists as well |
| `Config.ValidateQueryPolicy` | config/validate.go:198-238 | succeeds exactly if every policy names known categories, groups, block types and rule kinds |
| `Config.NoDanglingGroup` | router/router.go:56-243 | after a successful validation, for every domain, cache and set of learned categories, every group a query asks for exists |
| `Config.NextPolicyIsLearned` | router/router.go:459-468 | the learned category decides the policy of the domain's next query exactly if the domain has no letter from A to Z and no dot at its end |
| `Startup.LoadFromConfig` | upstream/manager.go:52-89 | afterwards the manager has exactly the old and the configured groups, each with its nameservers and its client subnet |
| `Startup.Assemble` | config/validate.go:12-63 | start-up succeeds exactly on a valid configuration, and then the router's policies and groups are the configured ones |
| `Truncation.MaxSize` | server/server.go:113-121 | 512 without EDNS, with it what the client says up to 1232, with no floor |
| `Truncation.EnsureUDPSize` | server/server.go:107-148 | the three loops together drop last records one at a time until the message fits or nothing may go; TC is set exactly if it did not fit; nothing happens off UDP |
| `Truncation.CutsInOrder` | server/server.go:135-145 | what is left is a prefix of each section; Authority is touched only once Additional is empty, Answer only once both are, the first Answer never |
| `Truncation.FitsOrIsMinimal` | server/server.go:135-145 | a result that is still too long has neither Additional nor Authority and at most one Answer |
| `Truncation.NoFittingCutKeepsMore` | server/server.go:135-145 | if dropping the last record never lengthens a message, no fitting cut of any kind keeps more Answers, or as all Answers more Authority, or with all of both more Additional |
| `Truncation.FitsIffFirstAnswerDoes` | server/server.go:135-145 | under the same assumption the result fits exactly if the first Answer alone would |
| `LogCleanup.SortByAge` | middleware/logger.go:345-352 | the exchange sort yields an oldest-first permutation |
| `LogCleanup.FoundMembers` | middleware/logger.go:330-342 | the files of a round are those found whose size and time the system tells |
| `LogCleanup.TotalIsSum` | middleware/logger.go:330-342 | the total is the sum of their sizes |
| `LogCleanup.DeleteOldest` | middleware/logger.go:354-366 | the files tried are the shortest run of files whose path is not logFile and whose removable members bring the total within the limit, or all of them; the total is the start less what was removed |
| `LogCleanup.CleanUp` | middleware/logger.go:309-367 | one round: nothing below the limit; above it the files found are sorted and the shortest run is deleted |
| `LogCleanup.LogFileIsKept` | middleware/logger.go:359-362 | a file whose path equals logFile is never removed |
| `LogPath.FoundAsIsClean` | middleware/logger.go:311-315 | a search of the directory of a file finds that file under its lexically cleaned path |
| `LogPath.CleaningRules` | middleware/logger.go:311-315 | cleaning follows the path library's rules: empty segments and dots are dropped, two dots take the name before them away, and two dots at the root go nowhere |
| `LogPath.CleanIffTidy` | middleware/logger.go:311-315 | cleaning leaves a path alone exactly if it is written with no empty segment, no dot, and two dots at most at the front of a relative path |
| `LogCleanup.ActiveLogIsExemptIffTidy` | middleware/logger.go:311-362 | so the active log is exempt from deletion exactly if logFile is written that way |
| `LogCleanup.ActiveLogCanBeRemoved` | middleware/logger.go:311-365 | with a path like ./logs/dns.log the active log is itself deleted when it alone exceeds the limit |
| `LogCleanup.RemovalsWereNeeded` | middleware/logger.go:355-358 | before each removal the total was above the limit |
| `LogCleanup.OldestGoFirst` | middleware/logger.go:344-366 | if every removal succeeds, no file that stays is older than one that went, the run removed is the shortest that suffices, and if none suffices only a file whose path is logFile stays |
| `LogCleanup.ShortestRunIsUnique` | middleware/logger.go:354-366 | the run is determined by the files and their order |
| `EscapeJSON.FivePassesAreOneSubstitution` | middleware/logger.go:101-108 | the five passes over the whole string equal one substitution per character |
| `EscapeJSON.EscapesOf` | middleware/logger.go:101-108 | backslash, quote, line feed, carriage return and tab come out as the JSON escapes of two characters, every other character as itself, in order |
| `EscapeJSON.UnescapeIsLeftInverse` | middleware/logger.go:101-108 | unescaping gives back the string |
| `EscapeJSON.EscapeIsInjective` | middleware/logger.go:101-108 | two different strings are never escaped alike |
| `EscapeJSON.ControlsLeft` | middleware/logger.go:101-108 | a control character is in the result exactly if it was in the string and is not a line feed, carriage return or tab |
| `EscapeJSON.IsOneToken` | middleware/logger.go:101-108 | every quote in the result stands after an odd run of backslashes and the result ends with an even one, so between quotes it is one token |

## Left out

- Dns.Fqdn: a name counts as fully qualified if it ends in a dot; that a backslash escapes the dot is decided in the DNS library, which is not part of this model.
- MemoryCache.MemoryDNSCache.SetRRs: the new store is stated for items the cache has not filed before, as its only caller passes them; an item filed twice would have its earlier entry stamped too.
- Matching.CaseAndDotInsensitive: letters are lower-cased in the ASCII range only; Unicode case folding is not modelled.
- EscapeJSON.IsOneToken: about quotes and backslashes only; control characters other than line feed, carriage return and tab are passed on unescaped by the code, as `EscapeJSON.ControlsLeft` says.
- Truncation.NoFittingCutKeepsMore: the length of a message is an arbitrary function; that dropping the last record never lengthens it is assumed there (name compression points backwards only), the packing itself is not modelled.
- GroupQuery.OutcomeIsJustified: about groups with at least one upstream; a group without any fails before the race starts.
- Transparency.CacheIsTransparent: about calls that follow one another; concurrent ones are the subject of `concurrent_route.dfy`.
- ServedTTL.EveryServedTTLIsInRange: about calls that follow one another; with overlapping calls a served TTL can exceed the stored one, exactly when `CacheModel.RemainingExceedsIff` says; the lower bound holds there too (`SplitLock.ServedWithTimeLeft`, `Overlapping.ConcurrentRecordsAreAlive`).
- SplitLock.ServedWithTimeLeft: about the remaining TTL as a number; the 32-bit conversion would cut it off for a walk that began more than a hundred years before the store it reads.
- Serving.Serve: queries of the router object follow one another, with background writes of categories between them; queries that overlap are the subject of `concurrent_route.dfy`.
- ConcurrentRoute.ConcurrentRepliesMeetZone: concurrent queries are values in a state machine, not the router object, which serves one query after another; their learned categories are not followed.
- AliasRing.RingGrows: about rings of two names that have no entry of the wanted type; in longer rings the ten rounds do not visit every name equally often.
- Startup.Assemble: the checks of the configuration sections that name no group are one flag.
- LogPath.FoundAsIsClean: about paths without the pattern characters of the search, in the directory and in the base name; with one of them a log may not be found under its own path at all. Symbolic links are not looked through.
- Config.NoDanglingGroup: about names; that a group's nameservers can be reached, or created at all, is not stated.
- LogCleanup.CleanUp: sizes are unbounded integers, without the wrap-around of a 64-bit sum; a removal succeeds or fails by path.
- CacheResponseByRR: nothing calls it, and its scan of the key string does not recover the key.
- The Redis caches: library calls with times as floating-point scores; at the exact expiry instant they differ from the memory cache.
- The response code the client sees: the server lets the library build the reply, which is not part of this model; only Route's own code is modelled.
- The TTL override of cacheResponse (its last parameter): every call passes zero.
- The identity of message objects: replies are values, so that filtering a reply also changes the upstream's message object, and that a cached record object is shared until it is copied, is not captured.
- Configuration sections that name no group (ecs, cache, category preload, fallback, log): one flag that stands for their checks; null entries in the group map are not modelled.
- Sockets, DoH, SOCKS5, bootstrap, downloads, YAML and geo databases: foreign input and output, replaced by the answer function and the address predicate.
- Logging, trace ids, colours and the singleflight wrapper: no influence on replies or cache.
- The category preload: which domains the data file puts into which category. The category table is arbitrary here, so every result holds for any preloaded content.
- Rounding of durations to floating-point seconds: whole nanoseconds and truncating division are used.
