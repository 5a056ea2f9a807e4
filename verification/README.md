# Zaphyl: verified models of the proxy's engines

Zaphyl is a reverse proxy. Most of it connects libraries; this project models the parts that have state,
concurrency or arithmetic of their own, and proves what they promise.

| file | models |
|---|---|
| `Codec.dfy` | the binary format of a cache file, its writer and its bounds-checked reader |
| `CacheKey.dfy` | the cache key and the canonical form of `Accept-Encoding` in it |
| `Policy.dfy` | which requests and responses may be cached, for how long, and which headers are kept |
| `HeaderText.dfy`, `TextShape.dfy` | what the text of a header says, read straight off its characters, and that the two modules above read exactly that |
| `CacheStore.dfy` | the two-tier cache as a state machine: runs, evictions, restarts, crashes |
| `ResponseCache.dfy` | the cache objects, each method tied to a step of that machine |
| `ProxyMachine.dfy` | caching requests on both listeners as interleaved threads over memory, directory and inodes, with reads and writes in pieces |
| `ProxyFiles.dfy` | what that machine keeps true of its files, while no two puts of one hash hold the temporary file at once: they are whole |
| `FilePrefixes.dfy` | what it keeps true of them while no two puts of one hash write at once: they are beginnings of what was put |
| `ProxyResults.dfy` | what it keeps true of the cache: key isolation, where lifetimes and cookies come from |
| `ProxyTrace.dfy` | what its messages say of every put and every answer: freshness by the clocks, no answer without its reason |
| `LastPutWins.dfy` | exactly when memory holds the last put |
| `Reaching.dfy` | reachable states, and the stretches of steps the witness runs below are made of |
| `LostUpdate.dfy` | a run that brings an older response back |
| `TornFile.dfy` | a run that serves the beginning of one response with the end of another, and exactly how many writers that takes |
| `Revalidations.dfy` | runs that store a cookie, and that take the default lifetime |
| `RequestFlow.dfy` | the caching stage of one request, run on the cache object |
| `Undisturbed.dfy` | one request of the interleaved machine with nothing in between is that stage |
| `Capture.dfy` | capturing a streamed body, on both listeners; request body limits |
| `ReloadCache.dfy` | the certificate cache under concurrent callers and file rewrites |
| `Balancer.dfy` | round-robin target selection, sequential and concurrent |
| `Routing.dfy` | route matching, prefixes, path rewriting |
| `RateLimiter.dfy` | the fixed-window rate limiter |
| `SiteFile.dfy` | writing, reading, enabling and disabling site files |
| `Renewal.dfy` | the certificate renewal loop |
| `PluginChain.dfy` | plugin chains around an upstream fetch |
| `Base.dfy`, `Text.dfy` | shared types and string operations |

Time is an integer number of nanoseconds since the Unix epoch. A Rust string is modelled by its UTF-8 bytes,
one character per byte. Hash functions, parsers of certificates, plugins, origins and
schedules are arbitrary. Where the code does something each time in an order it does not fix (which of several
entries with the same expiry is evicted, say), the model allows every choice.

Some claims one might expect are false of the code. Each is proved to be, with inputs or runs for which it
fails, and with the exact condition under which it holds:

- An entry survives a cache file unchanged exactly when its lengths fit and its expiry is a whole second (`Codec.RoundTripExactly`).
- A cache file is not always one whole entry: two puts of one hash that write at once can leave, and serve, the beginning of one body with the end of another (`TornFile.TornResponseIsServed`). Runs read and serve only what was put exactly if no hash ever has more than one writer (`TornFile.OneWriterExactly`); a put may empty a file that another has just written, or write on after the other has published it.
- The last put does not always win: a lookup can put an older response back (`LostUpdate.OlderResponseComesBack`). With puts of one hash one after the other, memory goes wrong exactly by a refill after a later publication (`LastPutWins.MemoryIsLastExactly`).
- A cache that holds no more keys than its limit may still lose one at a restart (`CacheStore.FullDirectoryForgets`); with one key fewer, or a limit of 1, it loses none (`CacheStore.FoundAfterRestarts`).
- A stored response reads back its own lifetime exactly when its first printable `Vary` value is cacheable (`Policy.StoredTtlAgrees`, `Policy.HiddenVary`), and a run takes the 60-second default only after storing one for which it is not (`ProxyResults.StoredEntriesAreLawful`, `Revalidations.DefaultIsTaken`).
- Responses that set cookies are stored, and served to others (`Revalidations.CookieIsServed`): exactly those that a revalidation brought as changed (`ProxyResults.CookiesComeFromRevalidation`).
- A cache key does not always tell two requests apart: a host header may hold a slash (`CacheKey.SlashHostSharesSlot`). Two hosts can be confused exactly if one is the other, a slash, and anything (`CacheKey.ConfusedExactly`).
- Quality values and other parameters never reach the cache key (`CacheKey.ParametersDropped`).
- Cache directives are read in lower case only: `Private` forbids nothing (`HeaderText.CaseMatters`). Which texts forbid or permit storing is `HeaderText.ResponseTtlExactly`.
- A validator with a comma never matches itself (`Policy.OwnEtagMatches`).
- A call may return an unhealthy target while another is healthy. Undisturbed, that needs the wrap of the counter, and happens exactly for target counts that leave more than 1 when they divide 2^64 (`Balancer.HealthyExactly`); disturbed, it can happen whenever some target is down (`Balancer.HealthyCanBeMissed`), and then the call was overtaken at every turn of the healthy one (`Balancer.Overtaken`).
- Rounds are fair from every counter value exactly when the number of targets divides 2^64 (`Balancer.FairExactly`, `Balancer.FallbackExactly`, `Balancer.WrapKeepsRotation`).
- The comment on `rewrite_path` says that the result always begins with `/`; for a prefix of slashes only it does not (`Routing.RewriteStartsWithSlash`).
- A refused client may have had almost twice its limit within the preceding window (`RateLimiter.RefusedAboveLimit`); exactly when is `RateLimiter.RefusalInRun`.
- The certificate cache can return a stale value (`ReloadCache.SharedTimeIsStale`), exactly if a modification time comes back with a different value (`ReloadCache.LinearizableExactly`). Rewriting one file in pieces is harmless (`ReloadCache.TornRewriteIsStable`); renewing a certificate and then its key is not (`ReloadCache.PairIsUnstable`).
- A certificate renewed in time can still be lost: a failed write of the new one leaves none (`Renewal.TornIsALapse`), until an order writes one again (`Renewal.LapseEnds`, `Renewal.BackInTime`); otherwise it lapses exactly if more failed orders than fit the window come in a row (`Renewal.NoLapseExactly`).
- Enabling a site whose fields need control characters leaves a file that can no longer be read (`SiteFile.SetEnabledRoundTrip`, `SiteFile.EscapedNewlineIsLost`).

## Model

| member | source | states |
|---|---|---|
| Codec.DecodeOfEncode | crates/zaphyl-core/src/cache.rs:331-381 | decoding an encoded entry, whatever bytes follow it, gives the entry back with its expiry truncated to seconds, and leaves those bytes |
| Codec.EncodeOfDecode | crates/zaphyl-core/src/cache.rs:354-381 | whatever decodes, from any bytes, re-encodes to exactly the bytes consumed |
| Codec.RoundTripExactly | crates/zaphyl-core/src/cache.rs:331-381 | the round trip is the identity if and only if lengths fit their fields and the expiry is a whole second after the epoch |
| Codec.PrefixFree | crates/zaphyl-core/src/cache.rs:353-381 | every strict prefix of an encoding is reported as truncated |
| Codec.EncodingInjective | crates/zaphyl-core/src/cache.rs:331-345 | entries with equal files are equal up to the sub-second part of the expiry |
| Codec.Encode | crates/zaphyl-core/src/cache.rs:331-345 | the appending loop produces the layout the round-trip lemmas are about |
| Codec.Buffer.WriteBytes | crates/zaphyl-core/src/cache.rs:348-351 | appends a length prefix truncated to 32 bits and the bytes |
| Codec.Decode | crates/zaphyl-core/src/cache.rs:354-381 | the reading loop agrees with the specification of decoding, including truncated input and the clock overflow panic |
| Codec.Reader.Take | crates/zaphyl-core/src/cache.rs:395-400 | takes exactly the next n bytes, or nothing and does not move |
| Codec.Reader.String | crates/zaphyl-core/src/cache.rs:414-417 | reads one length-prefixed string, or fails on truncated input |
| CacheKey.SlotsExactly | crates/zaphyl-core/src/cache.rs:199-205 | for any hosts and targets, two keys are equal if and only if host and target agree where they are run together, and the sets of codings are equal |
| CacheKey.KeyIdentifiesRequest | crates/zaphyl-core/src/cache.rs:199-205 | for hosts without a slash, two keys are equal if and only if host, path and query, and set of codings are equal |
| CacheKey.SlashHostSharesSlot | crates/zaphyl/src/main.rs:478-483 | a host header is cut at a colon only, so for every host with a slash another host and path share its key |
| CacheKey.ConfusedExactly | crates/zaphyl-core/src/cache.rs:199-205 | two different hosts can share a key if and only if one goes on with a slash where the other ends |
| CacheKey.CanonicalIffSameCodings | crates/zaphyl-core/src/cache.rs:77-94 | two header values normalise alike if and only if they name the same set of codings |
| CacheKey.CanonicalIdempotent | crates/zaphyl-core/src/cache.rs:77-94 | normalising a normal form changes nothing and keeps the codings |
| CacheKey.ParametersDropped | crates/zaphyl-core/src/cache.rs:82-89 | parameters of a coding, so also `q=0`, do not change the key |
| CacheKey.NormalizeAcceptEncoding | crates/zaphyl-core/src/cache.rs:77-94 | the vector of tokens, sorted, deduplicated and joined, is the canonical form |
| Policy.StoredTtlAgrees | crates/zaphyl/src/main.rs:364-373 | a captured response gives back the lifetime it was stored with if and only if its first printable `Vary` is cacheable; its status is 200 |
| Policy.HiddenVary | crates/zaphyl/src/main.rs:733-764 | for every lifetime and validator, headers an origin can send whose stored form has no lifetime at all |
| Policy.StoredTtlIsMaxAge | crates/zaphyl-core/src/cache.rs:38-57 | a stored lifetime is the positive `max-age` of the response's own `Cache-Control` |
| Policy.MaxAgeOfDecimal | crates/zaphyl-core/src/cache.rs:38-57 | a plain `max-age=N` is read as N for every positive N of 64 bits |
| Policy.CapturedSetsNoCookie | crates/zaphyl/src/main.rs:738-762 | a response captured on a plain miss carries no `Set-Cookie` |
| Policy.CapturedDeclaresTtl | crates/zaphyl/src/main.rs:733-764 | what is captured declares, as its own `max-age`, the lifetime it is stored for |
| Policy.OwnEtagMatches | crates/zaphyl-core/src/cache.rs:117-131 | a validator sent back as it was given matches if and only if it has no comma |
| HeaderText.ResponseTtlExactly | crates/zaphyl-core/src/cache.rs:38-57 | a lifetime of n seconds is decided if and only if the status is 200, no cookie is set, `Vary` names nothing but `Accept-Encoding`, the first element of `Cache-Control` that gives an age gives n, positive, and no element, at any place and with any spaces, is one of the three that forbid it |
| HeaderText.ForbiddenAnywhere | crates/zaphyl-core/src/cache.rs:97-103 | one forbidding element, wherever it stands in a list of any elements, stops a response of any kind from being stored |
| HeaderText.CaseMatters | crates/zaphyl-core/src/cache.rs:101 | for every lifetime, a list with `Private` after it is stored for that lifetime |
| HeaderText.VaryExactly | crates/zaphyl-core/src/cache.rs:61-73 | a `Vary` value is cacheable if and only if each element spells `accept-encoding`, in any case and with any spaces |
| HeaderText.FirstMaxAgeExactly | crates/zaphyl-core/src/cache.rs:106-112 | the age read is the number of the first element that gives one: `max-age=`, an optional plus, and digits worth less than 2^64, with any spaces |
| HeaderText.RequestCacheableExactly | crates/zaphyl-core/src/cache.rs:21-30 | a request may use the cache if and only if it is a `GET` without credentials that lists neither `no-store` nor `no-cache` |
| HeaderText.CaptureTtlExactly | crates/zaphyl/src/main.rs:732-745 | the decision on a whole response head: the first `Cache-Control` and the first `Vary`, if printable, and no `Set-Cookie` |
| HeaderText.StoredTtlExactly | crates/zaphyl/src/main.rs:364-373 | a stored response gives back n seconds if and only if its first `Cache-Control` gives them and its first `Vary` lets it |
| HeaderText.CapturedExactly | crates/zaphyl/src/main.rs:350-360 | of the headers, in their order, exactly those are stored that are printable and spell none of the six connection headers |
| HeaderText.CodingSetExactly | crates/zaphyl-core/src/cache.rs:77-94 | a header names exactly the codings that its elements spell in any case, with any spaces around and any parameters after; no header names none |
| HeaderText.IfNoneMatchExactly | crates/zaphyl-core/src/cache.rs:117-131 | a condition holds if and only if it is `*` or some element gives the same validator, weak or strong, with any spaces |
| CacheStore.TwoTierRefinement | crates/zaphyl-core/src/cache.rs:220-328 | over every sequential run with restarts, collisions and evictions, a lookup misses or returns exactly the last put of its key, and never panics; fresh means unexpired, stale means expired or within the truncated second; both tiers keep their bounds |
| CacheStore.MemoryOnlyIsExact | crates/zaphyl-core/src/cache.rs:220-267 | without a disk tier a hit is fresh if and only if the last put has not expired |
| CacheStore.ExactWhileItFits | crates/zaphyl-core/src/cache.rs:220-267 | while the keys put fit, the cache answers exactly like the unbounded map, with no spurious misses |
| CacheStore.FoundAfterRestarts | crates/zaphyl-core/src/cache.rs:220-327 | with fewer keys than the limit, or one and a limit of 1, and none colliding, a lookup after any restarts finds the last put of its key, and misses only a key never put |
| CacheStore.FullDirectoryForgets | crates/zaphyl-core/src/cache.rs:299-327 | at the limit, for every limit from 2, a run with no more keys than that loses one at a restart |
| CacheStore.StepKeepsAgreement | crates/zaphyl-core/src/cache.rs:220-328 | every put, lookup, eviction and restart keeps both tiers in agreement with "last put wins" |
| CacheStore.LostFromMemory | crates/zaphyl-core/src/cache.rs:255-267 | but for restarts, memory loses an entry only to a new key, when full, one at a time, and one that expires no later than any other |
| CacheStore.LostFromDisk | crates/zaphyl-core/src/cache.rs:309-327 | the directory loses an entry file only to a put, when full, one at a time, and one written no later than any other |
| CacheStore.CrashAtomic | crates/zaphyl-core/src/cache.rs:299-327 | wherever a disk put stops, it has lost no file, or one oldest file of a full directory; only a completed put changes what its hash reads as, to the complete new entry; every other key reads exactly as before |
| CacheStore.CrashSafe | crates/zaphyl-core/src/cache.rs:292-307 | after any number of puts and crashes, a key reads as nothing or as the latest finished put of exactly that key |
| CacheStore.CrashKeepsBound | crates/zaphyl-core/src/cache.rs:309-327 | the directory never holds more entry files than allowed, crashes included |
| ResponseCache.MinByTime | crates/zaphyl-core/src/cache.rs:259-262 | finds a key with the smallest time |
| ResponseCache.ResponseCache.Lookup | crates/zaphyl-core/src/cache.rs:220-242 | is one lookup step of the machine: memory first, then disk with refill |
| ResponseCache.ResponseCache.Put | crates/zaphyl-core/src/cache.rs:246-251 | is one put step of the machine: disk tier, then memory |
| ResponseCache.ResponseCache.InsertMemory | crates/zaphyl-core/src/cache.rs:255-267 | evicts a soonest-expiring entry only when full and the key is new |
| ResponseCache.ResponseCache.Get | crates/zaphyl-core/src/cache.rs:209-214 | returns the response of a fresh lookup and nothing else |
| ResponseCache.DiskStore.Get | crates/zaphyl-core/src/cache.rs:292-297 | returns the decoded entry only if its stored key is the one asked for, and panics exactly on a file whose expiry the clock cannot hold |
| ResponseCache.DiskStore.Put | crates/zaphyl-core/src/cache.rs:299-307 | evicts, writes the temporary file, renames it |
| ResponseCache.DiskStore.Evict | crates/zaphyl-core/src/cache.rs:309-327 | removes the oldest entry file exactly when the directory is full |
| ProxyMachine.PutsWereBegun | crates/zaphyl/src/http3.rs:433-451 | the put history of a run is exactly the stores, replacements and refreshes it began, in their order |
| ProxyFiles.StepKeepsFiles | crates/zaphyl-core/src/cache.rs:299-307 | while no two puts of one hash hold the temporary file, every step of every thread, partial writes included, leaves each published file one complete entry, also for who is still reading it |
| ProxyFiles.ReadsAsLast | crates/zaphyl-core/src/cache.rs:292-307 | then the file of a key reads as the last published put of its hash, or as nothing, and decoding it does not panic |
| FilePrefixes.StepKeepsPrefixes | crates/zaphyl-core/src/cache.rs:299-307 | while only no two puts of one hash write at once, every step leaves each inode the beginning of one file that some put wrote, and each reader the beginning of what it reads |
| ProxyResults.StepKeepsInv | crates/zaphyl/src/main.rs:504-572 | every step of every thread to a state in which no two puts of one hash write at once keeps the invariant the following results rest on |
| ProxyResults.TiersHoldOnlyPuts | crates/zaphyl-core/src/cache.rs:292-307 | in every interleaving in which no two puts of one hash write at once, what is in memory, what a file reads as, and what a reader in the middle of a file gets, was put under exactly that key |
| ProxyResults.StoredEntriesAreLawful | crates/zaphyl/src/main.rs:532-560 | in those interleavings, all puts of a run store a response that gives its lifetime back, and no refresh takes the default, if and only if every response stored on a miss has a cacheable first captured `Vary` |
| ProxyResults.CookiesComeFromRevalidation | crates/zaphyl/src/main.rs:544-560 | in those interleavings, a run puts a response that sets a cookie if and only if it stores a changed response that a revalidation brought with one |
| ProxyResults.CookieTraced | crates/zaphyl/src/main.rs:532-560 | in those interleavings, each such put traces back, through refreshes, to one of those, of the same key and response |
| ProxyTrace.PutsExactly | crates/zaphyl/src/main.rs:532-560 | in every run each put is for the key of the request its thread last began, and puts what the origin sent in that request, or confirmed; it expires its lifetime after the clock at that step or, for a revalidation on HTTP/3, after the arrival of the request |
| ProxyTrace.ResponsesComeFromOrigins | crates/zaphyl/src/http3.rs:422-454 | in the interleavings above, every response put, confirmed ones included, was sent by an origin at an earlier step, for a request with the same key |
| ProxyTrace.WholeRunFreshness | crates/zaphyl/src/main.rs:504-572 | in the interleavings above, on both listeners, with disk faults and restarts, a response served as fresh was stored, replaced or confirmed at an earlier step, for a request with its key, and looked up less than the `max-age` of its own headers after the clock of that step or, for a revalidation on HTTP/3, after the arrival of that request; only a confirmed one whose headers no longer let it be stored has a minute instead |
| ProxyTrace.AnswersHaveReasons | crates/zaphyl/src/http3.rs:410-466 | in every run, each answer from the cache was looked up at the time it claims, or rests on a `304` or a new response received, for a request with its key |
| ProxyTrace.FailureFetches | crates/zaphyl/src/main.rs:563-564 | in every run, a request whose origin cannot be reached serves and puts nothing then, goes on to fetch under its key, and is not answered from the cache later |
| TornFile.TornResponseIsServed | crates/zaphyl-core/src/cache.rs:299-307 | for any two bodies cut at the same place, two puts that write at once lead to a fresh response with the beginning of one and the end of the other, which nobody has put |
| TornFile.OneWriterExactly | crates/zaphyl-core/src/cache.rs:292-307 | all runs in which no hash has more than k writers at once read, and serve as fresh, only what was put under the key asked for, if and only if k is at most 1 |
| Revalidations.CookieIsServed | crates/zaphyl/src/main.rs:544-560 | for any storable response with a validator and any cookie, a run serves from the cache a response that sets it |
| Revalidations.DefaultIsTaken | crates/zaphyl/src/main.rs:532-543 | for every lifetime, a run refreshes for 60 seconds a response whose own headers say otherwise |
| LostUpdate.OlderResponseComesBack | crates/zaphyl-core/src/cache.rs:231-234 | for any two bodies, a run puts the older and then the newer, finishes both, holds the newer in memory, and one refill makes memory hold the older |
| LastPutWins.MemoryIsLastExactly | crates/zaphyl-core/src/cache.rs:220-267 | with puts of one hash one after the other and none failing, memory holds the last published put of each of its keys throughout a run if and only if no refill comes after a different put of its key was published since it opened its file |
| LastPutWins.LastPutWins | crates/zaphyl-core/src/cache.rs:246-251 | then, without a restart, whenever nobody is putting under its hash, memory and disk hold the last put begun under a key, or nothing |
| RequestFlow.CacheStage | crates/zaphyl/src/main.rs:469-573 | the caching stage is one lookup, a decision on its result alone, and at most the one put decided, with every expiry written out; a request that may not use the cache leaves it alone and is given no key to store under |
| RequestFlow.Revalidate | crates/zaphyl/src/http3.rs:422-454 | after a conditional request, refreshes for the lifetime the response gives back or a minute, replaces for the lifetime the new one gives back, or leaves the cache alone and goes on to fetch; lifetimes count from the clock after the answer, on HTTP/3 from the arrival |
| Undisturbed.UndisturbedIsStage | crates/zaphyl/src/main.rs:504-572 | from any reachable state, all steps of one request with none of another in between, in whatever pieces it reads and writes, are one lookup, one decision and at most one put of the sequential cache, with the outcome decided from what the origin answered in those steps |
| Undisturbed.StageIsSound | crates/zaphyl/src/http3.rs:398-466 | spelled out: such a request is served an unexpired response, or one that the origin confirmed or replaced in those steps, which is put with the expiry written out; otherwise, also when the origin cannot be reached, it is served nothing, puts nothing and fetches |
| Undisturbed.CaptureIsStore | crates/zaphyl/src/main.rs:723-803 | the head and complete body stream of an upstream response begin exactly the put that the filters make, or none |
| Capture.ChunkingIndependent | crates/zaphyl/src/http3.rs:747-762 | however a body is cut, the accumulator ends with all of it if it is within the cap, and overflowed and empty otherwise |
| Capture.StoresExactlyTheBody | crates/zaphyl/src/main.rs:723-803 | a complete stream stores exactly one response with exactly the upstream body, if cacheable and within the cap, and nothing otherwise |
| Capture.StoredExactly | crates/zaphyl/src/main.rs:723-803 | the same on header text: a complete stream within the cap is stored for n seconds if and only if the head permits n; nothing is stored if it permits none, or the body is longer |
| Capture.WithoutKeyNothingIsStored | crates/zaphyl/src/http3.rs:613-639 | a request without a key, so one that may not use the cache, stores nothing, on either listener |
| Capture.BrokenStoresNothing | crates/zaphyl/src/http3.rs:667-716 | when the upstream breaks off, nothing of what had arrived is stored, on either listener |
| Capture.AtMostOnePut | crates/zaphyl/src/main.rs:787-800 | any sequence of calls makes at most one put, and none before the end of the stream |
| Capture.BufferBounded | crates/zaphyl/src/main.rs:778-786 | the buffer never exceeds the cap at any point |
| Capture.ListenersAgree | crates/zaphyl/src/http3.rs:610-716 | both listeners store the same response for the same head, body and clock |
| Capture.RelayAndStore | crates/zaphyl/src/http3.rs:641-716 | the frame loop stores exactly if the response was cacheable, not broken off, and within the cap, and then its whole body under its key, for its lifetime from the clock at the end |
| Capture.RequestCtx.UpstreamResponseFilter | crates/zaphyl/src/main.rs:723-766 | captures the metadata and lifetime of a head that permits it, and gives the key up exactly for one that permits none |
| Capture.RequestCtx.UpstreamResponseBodyFilter | crates/zaphyl/src/main.rs:768-803 | one call of the body filter: accumulate, and store at the end of the stream |
| Capture.RequestCtx.RequestBodyFilter | crates/zaphyl/src/main.rs:582-603 | aborts exactly when the bytes seen exceed the limit |
| Capture.ForwardUpload | crates/zaphyl/src/http3.rs:538-554 | forwards the longest run of whole chunks within the limit, so all of them if and only if the body is within it |
| ReloadCache.LinearizableExactly | crates/zaphyl/src/tls.rs:44-59 | for any versions a file goes through, all runs of concurrent callers answer each call with what loading gave at some moment of it if and only if the versions are stable: when a time comes back, so does every value loadable since |
| ReloadCache.GetIsLinearizable | crates/zaphyl/src/tls.rs:44-59 | the positive half, for every interleaving and every prefix of a run |
| ReloadCache.StableIfNeverBack | crates/zaphyl/src/tls.rs:44-52 | for a clock that never goes back, stable means that versions of one time agree from the first one that loads |
| ReloadCache.TornRewriteIsStable | crates/zaphyl/src/acme.rs:141 | truncating and writing one file in pieces, within one tick, keeps a history stable |
| ReloadCache.PairIsUnstable | crates/zaphyl/src/acme.rs:141-142 | writing a certificate and then its key does not, once the new certificate has loaded with the old key |
| ReloadCache.SharedTimeIsStale | crates/zaphyl/src/tls.rs:47-52 | with a shared modification time, a call started after the second rewrite returns the first one's value |
| ReloadCache.ColdGet | crates/zaphyl/src/tls.rs:54-58 | an undisturbed miss loads the current version and publishes it under its time |
| ReloadCache.WarmGet | crates/zaphyl/src/tls.rs:47-52 | an undisturbed hit returns the cached value and changes nothing |
| ReloadCache.ReloadCache.Get | crates/zaphyl/src/tls.rs:44-59 | reuses the cached value exactly while its tag matches, publishes only a successful load |
| Balancer.FairRound | crates/zaphyl-core/src/router.rs:167-182 | from any counter whose round does not cross a wrap that shows, as many calls as there are healthy targets return each of them exactly once |
| Balancer.FairExactly | crates/zaphyl-core/src/router.rs:167-182 | that is so from every counter, whatever targets are down, if and only if the number of targets divides 2^64 |
| Balancer.FairFallback | crates/zaphyl-core/src/router.rs:172-181 | with every target down, likewise, any `count` calls return every target exactly once |
| Balancer.FallbackExactly | crates/zaphyl-core/src/router.rs:172-181 | and that, too, is so from every counter if and only if the number of targets divides 2^64 |
| Balancer.HealthyIfAny | crates/zaphyl-core/src/router.rs:172-181 | an undisturbed call that does not cross the wrap, or for a count that leaves at most 1 in 2^64, returns a healthy target if and only if there is one |
| Balancer.HealthyExactly | crates/zaphyl-core/src/router.rs:172-181 | undisturbed calls return a healthy target whenever there is one, from every counter, if and only if the count leaves at most 1 in 2^64 |
| Balancer.UndisturbedCall | crates/zaphyl-core/src/router.rs:172-181 | a call of the interleaved machine during which nobody else moves the counter returns the position the sequential function computes |
| Balancer.Overtaken | crates/zaphyl-core/src/router.rs:172-181 | in every run, with health changing, a call that returns a target that is down although another was healthy throughout took none of the turns of that one: others took them all, and at least one came up during the call |
| Balancer.WrapInvisible | crates/zaphyl-core/src/router.rs:175 | only the wrapped counter decides what a series of calls returns |
| Balancer.ConcurrentBalance | crates/zaphyl-core/src/router.rs:172-179 | with all targets up, any interleaving of calls gives each target the floor or ceiling of its share |
| Balancer.HealthyCanBeMissed | crates/zaphyl-core/src/router.rs:174-181 | for every health of the targets with one of them down, and every counter, an interleaving in which a call returns a target that is down |
| Balancer.WrapKeepsRotation | crates/zaphyl-core/src/router.rs:175 | rotation survives the wrap of the counter if and only if the number of targets divides 2^64 |
| Balancer.Route.NextTarget | crates/zaphyl-core/src/router.rs:167-182 | takes the first healthy position within one round, else the one after it, and leaves the counter behind it |
| Routing.UnderIffSegments | crates/zaphyl-core/src/router.rs:239-249 | a path is under a prefix if and only if the segments of the trimmed prefix begin its own |
| Routing.UnderTransitive | crates/zaphyl-core/src/router.rs:239-249 | being under a prefix is transitive |
| Routing.ShadowsIffWider | crates/zaphyl-core/src/router.rs:184-200 | one route accepts every request of another if and only if its host and prefix are wider |
| Routing.ShadowedNeverSelected | crates/zaphyl-core/src/router.rs:218-220 | a route behind a wider one is never selected |
| Routing.MatchRoute | crates/zaphyl-core/src/router.rs:218-220 | selects the first route that matches, and none only if none does |
| Routing.RewriteInverse | crates/zaphyl-core/src/router.rs:152-163 | prefix and rewritten path together give the original, except that the bare prefix becomes `/` |
| Routing.RewriteStartsWithSlash | crates/zaphyl-core/src/router.rs:148-163 | exactly when the rewritten path begins with `/` |
| Routing.RewriteDropsSegments | crates/zaphyl-core/src/router.rs:152-163 | rewriting drops the prefix's segments and keeps the others |
| Routing.RewritesExactly | crates/zaphyl-core/src/router.rs:152-163 | nothing is rewritten if and only if the route does not strip or has no prefix; a path that does not begin with the prefix stays as it is |
| Routing.ForwardedExactly | crates/zaphyl/src/http3.rs:509-516 | a matched request is forwarded with its query as it came, and with its path whole if the route does not strip, or else without the segments of the prefix |
| RateLimiter.RateBound | crates/zaphyl-core/src/ratelimit.rs:36-52 | no interval as long as the window has more than 2*max-1 allowed events of a key |
| RateLimiter.RateBoundIsTight | crates/zaphyl-core/src/ratelimit.rs:36-52 | for every limit and window of at least 2 ms some run reaches that bound |
| RateLimiter.RefusalInRun | crates/zaphyl-core/src/ratelimit.rs:36-52 | a refusal means exactly max allowed events since the window started; in the whole preceding window at least max, at most 2*max-1, and exactly max if and only if the window before does not reach into it |
| RateLimiter.RefusedAboveLimit | crates/zaphyl-core/src/ratelimit.rs:36-52 | for every limit and window of at least 2 ms some refusal comes with 2*max-1 allowed events in the preceding window |
| RateLimiter.AnswersIgnoreOtherKeys | crates/zaphyl-core/src/ratelimit.rs:36-52 | each answer is what a limiter serving that key alone would give |
| RateLimiter.RateLimiter.Check | crates/zaphyl-core/src/ratelimit.rs:36-52 | updates the key's window only and returns its answer |
| RateLimiter.LateIsOnTime | crates/zaphyl/src/main.rs:439-440 | clocks are read before the lock is taken: in any run, in whatever order the readings arrive, each event is answered as if it had come at the latest reading so far |
| RateLimiter.RateBoundInAnyOrder | crates/zaphyl-core/src/ratelimit.rs:45-51 | so by the latest readings no window has more than 2*max-1 allowed events, in any run |
| RateLimiter.LimitsAtTheEdge | crates/zaphyl-core/src/ratelimit.rs:36-52 | a limit of 0 allows nothing, and a window of 0 refuses nothing under a positive limit |
| SiteFile.TwoPassesAreOne | crates/zaphyl/src/cli.rs:91-93 | the two replacements escape every character on its own |
| SiteFile.WriteRoundTrip | crates/zaphyl/src/cli.rs:100-129 | a written site reads back as itself if and only if its strings are printable, and not at all otherwise |
| SiteFile.SetEnabledRoundTrip | crates/zaphyl/src/cli.rs:328-364 | enabling or disabling any file that reads as a site keeps every other field if and only if they are printable |
| SiteFile.EscapedNewlineIsLost | crates/zaphyl/src/cli.rs:328-364 | files for which it does not: any printable site given a domain with an escaped newline reads as nothing once rewritten |
| SiteFile.CommandsKeepFields | crates/zaphyl/src/cli.rs:328-364 | any sequence of commands on any file that reads as a printable site keeps every other field and leaves `enabled` as the last one set it |
| SiteFile.WriteSiteToml | crates/zaphyl/src/cli.rs:100-129 | the appended text is the written form those results are about |
| SiteFile.SitesDir.SetEnabled | crates/zaphyl/src/cli.rs:328-364 | rewrites one site's file if `from_toml` accepts it, and nothing otherwise |
| Renewal.NoLapseExactly | crates/zaphyl/src/acme.rs:79-109 | f failed orders in a row can never let the certificate expire, if and only if f+1 gaps fit into the window and no failed order may tear the file |
| Renewal.TornIsALapse | crates/zaphyl/src/acme.rs:141 | one order whose write of the certificate fails midway is a lapse at once, whatever the window |
| Renewal.TurnExactly | crates/zaphyl/src/acme.rs:84-109 | after every run, one more check orders if and only if the certificate is missing, unreadable or within the window, and what the order wrote or left is then on disk |
| Renewal.LapseEnds | crates/zaphyl/src/acme.rs:86-109 | a missing or torn certificate stays missing exactly as long as no order writes one; the first that does ends the lapse |
| Renewal.BackInTime | crates/zaphyl/src/acme.rs:84-98 | with at most f failures in a row a missing certificate is back after at most f+1 checks, and so within f+1 gaps |
| Renewal.SaturationIsHarmless | crates/zaphyl/src/acme.rs:104-109 | saturating arithmetic never changes the decision to renew |
| Renewal.WindowInRange | crates/zaphyl/src/acme.rs:81-83 | the window is the configured number of days in seconds, or the largest 64-bit number if that is less; one of at least a day is at least a day |
| Renewal.CertificateFile.RenewalLoop | crates/zaphyl/src/acme.rs:79-99 | each turn waits, checks, and replaces the certificate only when due and the order wrote one |
| PluginChain.TraceOfRun | crates/zaphyl/src/plugins.rs:87-124 | an undisturbed run is all request hooks, one fetch, all response hooks in reverse; a response cuts off every later hook and the fetch |
| PluginChain.RunIsNested | crates/zaphyl/src/plugins.rs:87-124 | the two loops around one fetch compute the nested wrapping of each plugin around the next |
| PluginChain.NestConcat | crates/zaphyl/src/plugins.rs:52-56 | a chain of two parts is the first wrapped around the second |
| PluginChain.GlobalPluginsAreOutermost | crates/zaphyl/src/plugins.rs:51-56 | a route's chain is the global plugins wrapped around the route's own |
| PluginChain.ResponseConcat | crates/zaphyl-plugin/src/lib.rs:243-248 | response hooks of a longer chain are those of its end, then those of its beginning |
| PluginChain.RequestConcat | crates/zaphyl-plugin/src/lib.rs:229-237 | request hooks of a longer chain are those of its beginning, then, if they continue, those of its end |
| PluginChain.HandleRequest | crates/zaphyl-plugin/src/lib.rs:229-237 | the loop runs request hooks in order until one responds or fails |
| PluginChain.HandleResponse | crates/zaphyl-plugin/src/lib.rs:243-248 | the loop runs response hooks in reverse until one fails |
| PluginChain.RunPlugins | crates/zaphyl/src/plugins.rs:87-124 | runs the two phases around at most one fetch |
| PluginChain.Build | crates/zaphyl/src/plugins.rs:32-68 | one chain per route, global plugins first; nothing if a plugin cannot be loaded |

## Left out

- Codec.Decode: does not repair invalid UTF-8; strings are byte sequences, and the lossy conversion of bytes that are not UTF-8 is not modelled.
- CacheStore.TwoTierRefinement: is for a disk that does not fail and entries whose lengths fit the format; with faults `ProxyResults.TiersHoldOnlyPuts` still holds.
- CacheStore.CrashSafe: is for one writer; for several, `ProxyResults.TiersHoldOnlyPuts` says what holds while no two of one hash write at once and `TornFile.TornResponseIsServed` what may happen when they do.
- CacheStore.FoundAfterRestarts: is for a disk that does not fail.
- ProxyTrace.WholeRunFreshness: takes clocks at or after the epoch, entries whose lengths fit the format and an empty cache to start from; a request whose expiry would overflow the clock panics and is modelled as abandoned.
- ProxyResults.StoredEntriesAreLawful: has the same assumptions; with `ProxyResults.CookiesComeFromRevalidation` and `ProxyResults.CookieTraced`, it leaves open what runs with two writers of one hash store after they have read a torn file.
- LastPutWins.LastPutWins: leaves open which response wins when puts of one hash overlap or fail to reach the disk; then memory and disk may keep different ones.
- Undisturbed.UndisturbedIsStage: takes the file an eviction removes to be one that was written longest ago; interleaved, the machine lets an eviction remove any entry file, since others may write while it looks.
- Capture.StoresExactlyTheBody: is about one request; in the interleaved machine the body of a response arrives in one step, which `Undisturbed.CaptureIsStore` ties to it.
- Balancer.FairRound: takes health as constant during a round.
- Balancer.ConcurrentBalance: takes all targets as healthy during a run, and a counter that does not wrap unless the number of targets divides 2^64.
- CacheKey.SlotsExactly: assumes no unit separator in host and target, which neither a header value nor a request target can hold.
- CacheKey.KeyIdentifiesRequest: is for hosts without a slash and targets that begin with one; `CacheKey.SlotsExactly` is for all.
- SiteFile.WriteRoundTrip: reads the part of TOML that the written files use (bare keys, basic strings with short escapes, booleans, one assignment a line). Of files edited by hand nothing is assumed but that `from_toml` may accept them; that it agrees with this reader on written files is an assumption (`SiteFile.ReadsWrittenForm`). A write error of the file system is left out.
- Renewal.NoLapseExactly: orders take no time of their own, and the clock is after the epoch.
- ReloadCache.GetIsLinearizable: takes loading as one step. A loader that reads the certificate before and the key after a renewal gets a pair that no moment had; the next call sees the new time and loads again.
- Foreign files in the cache directory, and directory read errors during eviction.
- The agreement of the conditional request's URL with the forwarded one: revalidation is given the unstripped path, and its outcome is arbitrary here.
- Turning an answer from the cache into a `304` for a client that has it already: only the comparison of validators is modelled (`HeaderText.IfNoneMatchExactly`).
- Response compression: the body is captured before it is encoded, and the encoders are library code.
- TLS, X.509 and ACME message exchanges: only the expiry of a certificate and the outcome of an order remain.
- Access control, static files, configuration checks, site kind detection, metrics and logging: branch by branch decisions, or the work of a library.
