# umbrella middlewares, modelled in Dafny

This project models the middleware collection `umbrella`, a Go package of
`net/http` middlewares. Each middleware of the package becomes one module:

- composition (`Use`);
- request gates (`Switch`, `Debug`, `Reject`, `AllowMethod` and
  `DisallowMethod`, `AllowHTTPHeader` and `DisallowHTTPHeader` with their
  Content-Type, Accept and User-Agent instances);
- response-header setters (`HSTS`, `CacheControl`, `NoCache`,
  `Clickjacking`, `XSSFiltering`);
- the MD5 `ETag` middleware with its 304 answer to a matching
  If-None-Match;
- static file routes (`StaticFS` and the index-checking file system);
- client address recovery (`RealIP`);
- rate limiting (`RateLimit`, `RateLimitPerIP`);
- the time-bounded response cache (`Stampede`);
- the metrics record and its recorder (`Metrics`, `Clone`, `newMetrics`,
  `MetricsRecorder`).

Handlers are pure functions from a request to a response
(`Http.Handler`), and middlewares are functions from handler to handler.
A component that keeps state between requests is a class whose fields the
methods update:

- the `Stampede` cache;
- the per-address limiter registry;
- the metrics record and the recorder;
- the response writer.

Each method of those classes is tied to a pure transition function, and
lemmas state the properties of that function. The downstream handler's
recorded response, clock readings, the goroutine count, the outcome of a
limiter wait and the MD5 function are parameters of the model.

The shared modules are:

- `Wrappers`: `Option`;
- `Strings`: ASCII case folding, substring search, split and join,
  trimming, decimals;
- `Http`: canonical header keys, header maps, requests and responses, the
  status text table, and a `ResponseWriter` class that sends the header
  map as it stands when the status is first written.

Where the sources disagree with each other:

- The `Metrics` struct at `metrics.go:16-42` has no uptime fields.
  `metrics_recorder.go:65-66` writes `UptimeDurationNanoseconds` and
  `UptimeDurationMilliseconds`, so the record here carries both, and
  `Clone` and `newMetrics` treat them like the other scalars.
- `metrics.go:110-246` holds an older copy of the recorder, without the hook
  and without uptime. The model follows `metrics_recorder.go`.
- Uptime is measured from the process start (`processStartTime`,
  `umbrella.go:8-14`), not from the creation of the recorder.

## Model

| member | source | states |
|---|---|---|
| `Middleware.Use` | middleware.go:8-15 | the loop wraps `next` so that the first middleware listed is outermost: the result is the right fold `m1(m2(...mn(next)))` |
| `Middleware.ChainEmpty` | middleware.go:8-15 | `Use()` with no middlewares hands back the handler itself |
| `Middleware.ChainSingle` | middleware.go:8-15 | `Use(m)(h)` is `m(h)` |
| `Middleware.ChainAppend` | middleware.go:8-15 | composition splits at any point: `Use(xs ++ ys)(h) == Use(xs)(Use(ys)(h))` |
| `Middleware.ChainOrder` | middleware.go:10-12 | every listed middleware runs exactly once and the first one listed runs first |
| `Switch.SwitchRunsNext` | switch.go:7-18 | when `f(r)` holds the response is `next`'s and does not depend on the alternative handler |
| `Switch.SwitchRunsAlternate` | switch.go:7-18 | when `f(r)` fails the response is `h`'s and does not depend on `next` |
| `Switch.DebugOff` | debug.go:9-13 | `Debug(false)` answers 404 "404 page not found" whatever `next` does |
| `Switch.DebugOn` | debug.go:9-13 | `Debug(true)` is transparent |
| `Reject.RejectRefuses` | reject.go:6-17 | a refused request gets `badStatus` with its status text, and `next` plays no part |
| `Reject.RejectAccepts` | reject.go:6-17 | an accepted request gets exactly `next`'s response |
| `MethodFilter.Listed` | method.go:13-18 | the scan finds a method exactly when some listed method equals it up to case |
| `MethodFilter.AllowMethodDecides` | method.go:10-23 | a listed method is forwarded to `next`; any other gets 405 |
| `MethodFilter.DisallowMethodDecides` | method.go:27-40 | a listed method gets 405; any other is forwarded |
| `MethodFilter.MethodFiltersComplementary` | method.go:10-40 | with one list, exactly one of the two filters forwards a given request |
| `MethodFilter.EmptyMethodList` | method.go:13-19 | an empty list makes `AllowMethod` refuse everything and `DisallowMethod` pass everything |
| `MethodFilter.MethodMatchIsWholeString` | method.go:14 | matching ignores case but compares whole strings ("get" matches "GET", "GETX" does not) |
| `HeaderFilter.LowerAll` | header.go:11-14 | the configured list is the values lower-cased, one for one |
| `HeaderFilter.ContainsAny` | header.go:18-23 | the scan succeeds exactly when the value contains some listed entry |
| `HeaderFilter.AllowHTTPHeader` | header.go:10-28 | forwards exactly the requests whose header contains a listed value, ignoring case; the others get `badStatus` |
| `HeaderFilter.DisallowHTTPHeader` | header.go:32-50 | answers `badStatus` exactly to the requests whose header contains a listed value; forwards the others |
| `HeaderFilter.MatchIgnoresCase` | header.go:13-17 | only the lower-cased header value and lower-cased entries matter |
| `HeaderFilter.MatchEdgeCases` | header.go:18-24 | no values match nothing; an empty value matches every header, even a missing one |
| `HeaderFilter.HeaderFiltersComplementary` | header.go:18-46 | with the same status, name and values, `AllowHTTPHeader` forwards and `DisallowHTTPHeader` refuses exactly the matching requests, and the reverse for the others |
| `HeaderFilter.AllowContentType` | contenttype.go:8-10 | the Content-Type allow filter, refusing with 415 |
| `HeaderFilter.DisallowContentType` | contenttype.go:15-17 | the Content-Type deny filter, refusing with 415 |
| `HeaderFilter.AllowAccept` | accept.go:8-10 | the Accept allow filter, refusing with 406 |
| `HeaderFilter.DisallowAccept` | accept.go:15-17 | the Accept deny filter, refusing with 406 |
| `HeaderFilter.AllowUserAgent` | useragent.go:12-14 | the User-Agent allow filter, refusing with 403 |
| `HeaderFilter.DisallowUserAgent` | useragent.go:18-20 | the User-Agent deny filter, refusing with 403 |
| `Hsts.EffectiveMaxAge` | hsts.go:17-19 | a negative max-age becomes 31536000 seconds; any other is kept |
| `Hsts.HstsValueRoundTrip` | hsts.go:16-23 | the value reads back as the effective max-age plus the option when it is "includeSubDomains" or "preload", and as the max-age alone otherwise |
| `Hsts.HstsValueWithOption` | hsts.go:20-23 | "max-age=N; opt" reads back as (N, opt) |
| `Hsts.HstsValueWithoutOption` | hsts.go:20 | "max-age=N" reads back as (N, no directive) |
| `Hsts.HSTSHeaderFuncSetsOnlyItsHeader` | hsts.go:24-26 | the header function sets Strict-Transport-Security to the value and keeps every other header |
| `CacheControl.NoOptionsNoHeader` | cachecontrol.go:21-23 | without options the header map is left exactly as it was |
| `CacheControl.CacheControlSetsOnlyItsHeader` | cachecontrol.go:24-27 | with options, Cache-Control is set to their join and every other header stays |
| `CacheControl.CacheControlValueSplits` | cachecontrol.go:24 | splitting the value on "," gives back the options, when none holds a comma |
| `CacheControl.NoCacheValueSplits` | cachecontrol.go:32-36 | the `NoCache` value splits back into its seven directives |
| `CacheControl.NoCacheValue` | cachecontrol.go:32-36 | the `NoCache` value is the seven directives in order, separated by single commas |
| `Clickjacking.FrameOption` | clickjacking.go:17-20 | the value is always "deny" or "sameorigin", and "sameorigin" exactly when the option lower-cases to it |
| `Clickjacking.FrameOptionIdempotent` | clickjacking.go:17-20 | normalising a normalised option changes nothing |
| `Clickjacking.FrameOptionExamples` | clickjacking.go:17-20 | "SameOrigin" gives "sameorigin"; "DENY", "" and "allow-from" give "deny" |
| `XssFiltering.XssValue` | xssfiltering.go:15-17 | the value is never empty: the default "1; mode=block" for an empty option, the option verbatim otherwise |
| `XssFiltering.XSSFilteringSetsOnlyItsHeader` | xssfiltering.go:18-20 | X-XSS-Protection is set to a non-empty value and every other header is kept |
| `ETag.Hex` | etag.go:18 | `%x` gives two lower-case hex digits per byte |
| `ETag.UnHexHex` | etag.go:18 | the hex form decodes back to the bytes |
| `ETag.ETagOf` | etag.go:18 | the tag is 34 characters: a quote, 32 lower-case hex digits, a quote |
| `ETag.ETagRoundTrip` | etag.go:18 | the tag reads back to the digest |
| `ETag.ETagInjective` | etag.go:18 | two digests give the same tag exactly when they are equal |
| `ETag.ServeETag` | etag.go:14-28 | the writer sends the ETag header with the downstream headers copied over it, then 304 with no body on a matching If-None-Match, else the downstream status and body; if the status was already sent, it stays and only that body is appended |
| `ETag.ETagConditional` | etag.go:23-28 | a matching If-None-Match gives 304 and an empty body; otherwise the downstream status and body are sent unchanged |
| `ETag.ETagHeaderSent` | etag.go:19-22 | the Etag header carries the digest unless the downstream handler set its own, which wins |
| `ETag.RevalidationGetsNotModified` | etag.go:15-26 | a client sending back the tag it received gets 304 while the body is unchanged |
| `Static.NormalizePattern` | static.go:30-32 | the returned pattern ends in '/'; it is the pattern itself when that already ends in '/', else the pattern plus "/" |
| `Static.NormalizePatternIdempotent` | static.go:29-34 | normalising twice is normalising once |
| `Static.NormalizePatternExtends` | static.go:30-32 | the pattern is kept exactly when it ends in '/', and is always a prefix of the result |
| `Static.StaticFSRegistrations` | static.go:15-21 | the file route is registered last on the normalised pattern; a 301 redirect from the written pattern comes first exactly when the two differ |
| `Static.StaticFSDistinctPatterns` | static.go:17-20 | no pattern is registered twice |
| `Static.IndexPath` | static.go:47 | the index path of a directory ends in "index.html" |
| `Static.Open` | static.go:41-53 | a name opens exactly when the underlying file system has it and, for a directory, also has its index.html; the node opened is the stored one |
| `Static.OpenFile` | static.go:42-45 | a regular file opens as the underlying file system opens it |
| `Static.IndexPathIgnoresTrailingSlash` | static.go:47 | a directory name with or without its trailing '/' is checked for the same index file |
| `Static.NoIndexNoDirectory` | static.go:46-51 | with no index.html anywhere, every directory is refused |
| `RealIp.PrivateSubnetV4` | realip.go:12-21 | an IPv4 address is in a listed block exactly when it is 127/8, 10/8, 172.16/12, 192.168/16 or 169.254/16 |
| `RealIp.Family` | realip.go:54 | the character deciding how an address literal is read is '.', ':', '%', or none |
| `RealIp.FormatParseIPv4` | realip.go:54 | a dotted-quad address parses back to its bytes |
| `RealIp.FormatParseIP` | realip.go:54 | `net.ParseIP` reads a dotted-quad address as that IPv4 address |
| `RealIp.QualifiedIsNotEmpty` | realip.go:53-58 | an accepted item is never empty once trimmed |
| `RealIp.ScanFromRight` | realip.go:52-59 | the scan returns the largest accepted index, or nothing when no item is accepted |
| `RealIp.ScanFindsLast` | realip.go:52-58 | the scan stops at the last accepted item |
| `RealIp.FromHeaderRightmost` | realip.go:50-59 | a header yields "" exactly when no item qualifies, and otherwise the trimmed last qualifying item |
| `RealIp.FromHeaderAt` | realip.go:51-58 | a header whose last qualifying item is at `j` yields that item trimmed |
| `RealIp.FirstFrom` | realip.go:50-61 | the headers are tried in order and the first that yields an address decides; "" when none does |
| `RealIp.WithRealIP` | realip.go:35-37 | RemoteAddr is overwritten by the found address and kept when none is found; nothing else changes |
| `RealIp.FirstFromPicksFirst` | realip.go:50-61 | the first header with an address wins whatever the later headers hold |
| `RealIp.ForwardedForFirst` | realip.go:45-60 | an address in X-Forwarded-For wins over X-Real-IP and X-ProxyUser-Ip |
| `RealIp.RealIpSecond` | realip.go:45-61 | when X-Forwarded-For yields nothing, X-Real-IP is used |
| `RealIpExamples.ForwardedListYields` | realip_test.go:22 | in "x, y, z, localhost" with only y public, the header yields y |
| `RealIpExamples.LocalhostIsNoAddress` | realip_test.go:22 | "localhost" is not an address literal, so it never qualifies |
| `RealIpExamples.PrivateListYieldsNothing` | realip_test.go:43 | "x, z, localhost" with no public address yields nothing |
| `RealIpExamples.SingleAddressYields` | realip_test.go:42 | a header holding one public address yields it |
| `RealIpExamples.RightmostPublicWins` | realip_test.go:21-22 | with that X-Forwarded-For list the address is y, whatever X-Real-IP holds |
| `RealIpExamples.FallBackToRealIp` | realip_test.go:42-43 | with a list of private addresses only, the public X-Real-IP is used |
| `RealIpExamples.TestAddresses` | realip_test.go:11-43 | 127.0.0.1 is not global unicast, 192.168.0.4 is private, 100.100.100.100 and 101.101.101.101 are public |
| `RealIpExamples.TestForwardedFor` | realip_test.go:11-22 | the first test's headers give 100.100.100.100 |
| `RealIpExamples.TestRealIpFallback` | realip_test.go:32-43 | the second test's headers give 101.101.101.101 |
| `RateLimit.Limiter.constructor` | ratelimit.go:13 | a limiter keeps the rate and burst it was made with |
| `RateLimit.WaitRateLimit` | ratelimit.go:41-48 | a granted wait gives `next`'s response; a failed one gives 500 with its status text |
| `RateLimit.FailedWaitSkipsNext` | ratelimit.go:42-46 | after a failed wait the response does not depend on `next` and is "Internal Server Error" with status 500 |
| `RateLimit.RateLimiter.constructor` | ratelimit.go:13 | one limiter with rate `rl` and burst 1 |
| `RateLimit.RateLimiter.ServeHTTP` | ratelimit.go:15-17 | every request waits on the one shared limiter |
| `RateLimit.PerIPRateLimiter.constructor` | ratelimit.go:24 | the registry starts empty |
| `RateLimit.PerIPRateLimiter.ServeHTTP` | ratelimit.go:26-36 | a known address waits on its own limiter and the registry is unchanged; an unseen one gets a fresh limiter (rate `rl`, burst 1) stored and passes to `next` without waiting |
| `RateLimit.PerIPRateLimiter.Admit` | ratelimit.go:28-35 | the registry step for one key: a known key waits on its own limiter with the registry unchanged; an unseen key gets a fresh limiter (rate `rl`, burst 1) stored and passes without waiting |
| `RateLimit.PerIPRateLimiter.ServeAll` | ratelimit.go:26-36 | over a run of requests, the registry ends holding its old keys plus the `realIP` of every request (`KeysAfter`); a request passes without waiting exactly when its address was neither known nor seen earlier in the run, and then gets `next`'s response, otherwise the answer of its wait; the number of such free passes is `FreePasses` |
| `RateLimit.AddressAt` | ratelimit.go:27 | the key of request `k` in a run is `realIP` of that request |
| `RateLimit.FirstSeenKnown` | ratelimit.go:28 | a request's address is absent from the registry exactly when it was not known before the run and no earlier request of the run had it |
| `RateLimit.KeysAfter` | ratelimit.go:28-34 | the key set `ServeAll` leaves: the keys known before plus every address of the run |
| `RateLimit.FreePassesAppend` | ratelimit.go:28-35 | one more request adds a free pass exactly when its address is not yet in the registry |
| `RateLimit.FreePassesCountAddresses` | ratelimit.go:28-35 | the free passes of a run, as counted by `ServeAll`, equal the number of addresses new to the registry |
| `Stampede.StampedeCache.constructor` | stampede.go:23 | the cache starts empty |
| `Stampede.StampedeCache.ServeHTTP` | stampede.go:26-61 | the cache becomes `NextCache` of the old one, and the writer sends the served entry's headers, status and body; if the status was already sent, it stays and only the body is appended |
| `Stampede.UncachedMethodBypasses` | stampede.go:28-31 | a method other than GET or HEAD leaves the cache alone and gets the handler's response |
| `Stampede.FreshEntryServed` | stampede.go:35-39 | an unexpired entry is served as stored, without calling `next` |
| `Stampede.StaleEntryRecomputed` | stampede.go:41-52 | a missing or expired entry is replaced by the recorded response with expiry store time plus TTL; other keys are untouched |
| `Stampede.SecondGetWithinTtlIsCached` | stampede.go:34-61 | a second GET of the same URL within the TTL is served from the cache with the first response |
| `Stampede.ZeroTtlAlwaysMisses` | stampede.go:37-47 | with a TTL of 0 and a clock that does not go back, the next lookup misses again |
| `MetricsModel.GoDiv` | metrics_recorder.go:115 | integer division truncating toward zero, as Go divides int64 |
| `MetricsModel.MaxRule` | metrics_recorder.go:72-74 | the result is the old value or the reading, and for non-negative values it is at least both |
| `MetricsModel.MinRule` | metrics_recorder.go:75-77 | an unset (0) minimum takes the reading; otherwise the result is the smaller of the two |
| `MetricsModel.Inc` | metrics_recorder.go:89-90 | `counts[k]++`: k rises by one from 0 when missing, every other key is kept, and the keys gain k |
| `MetricsModel.StatusClass` | metrics_recorder.go:91-107 | a class counter is chosen exactly for codes in [100, 600) |
| `MetricsModel.ObserveAll` | metrics_recorder.go:68 | after n requests the request count has risen by n |
| `MetricsModel.Metrics.Of` | metrics.go:46-67 | a struct literal holds exactly the given fields |
| `MetricsModel.Metrics.Clone` | metrics.go:45-77 | the clone is a new object equal to the original field by field and key by key |
| `MetricsModel.Metrics.Record` | metrics_recorder.go:62-142 | one request's update under the lock: the record becomes `Observe(old, o)` and the request count stays non-negative |
| `MetricsModel.Metrics.RecordCount` | metrics_recorder.go:64-68 | uptime readings stored, request count plus one |
| `MetricsModel.Metrics.RecordBytes` | metrics_recorder.go:71-86 | the four byte-count extremes follow the max and min rules |
| `MetricsModel.Metrics.RecordRequestBytes` | metrics_recorder.go:71-77 | the request-size maximum and minimum follow the max and min rules; nothing else changes |
| `MetricsModel.Metrics.RecordResponseBytes` | metrics_recorder.go:79-86 | the response-size maximum and minimum follow the max and min rules; nothing else changes |
| `MetricsModel.Metrics.RecordStatus` | metrics_recorder.go:89-107 | the method, status and class counters rise as `StatusStage` says |
| `MetricsModel.Metrics.RecordStatusClass` | metrics_recorder.go:91-107 | the counter of the code's class rises by one; a code outside [100, 600) changes nothing |
| `MetricsModel.Metrics.RecordNanoseconds` | metrics_recorder.go:110-121 | the nanosecond total grows by the reading, the average is the new total over the new count, truncated, and the extremes follow the rules |
| `MetricsModel.Metrics.RecordNanosecondExtremes` | metrics_recorder.go:116-121 | the nanosecond maximum and minimum follow the max and min rules |
| `MetricsModel.Metrics.RecordMilliseconds` | metrics_recorder.go:111-132 | the same for milliseconds, with the minimum rule applied twice as written |
| `MetricsModel.Metrics.RecordMillisecondExtremes` | metrics_recorder.go:124-132 | the millisecond maximum follows the max rule, the minimum the min rule twice |
| `MetricsModel.Metrics.RecordGoroutines` | metrics_recorder.go:134-142 | the same for the goroutine sample |
| `MetricsModel.Metrics.RecordGoroutineExtremes` | metrics_recorder.go:137-142 | the goroutine maximum and minimum follow the max and min rules |
| `MetricsModel.ZeroStatusCounts` | metrics.go:102-106 | the loop leaves a 0 entry for exactly the codes below 600 that have a status text |
| `MetricsModel.NewMetrics` | metrics.go:80-107 | a fresh record equal to `NewSnapshot`: the nine methods and five classes at 0, a 0 entry for every code below 600 with a status text, scalars 0 |
| `MetricsProperties.ObserveCounts` | metrics_recorder.go:68-90 | one request raises the request count by one and its method and status counters by one (a missing key starts at 1); every other key is unchanged |
| `MetricsProperties.StatusClassDigit` | metrics_recorder.go:91-107 | the class raised is named by the hundreds digit of the code |
| `MetricsProperties.ObserveStatusClass` | metrics_recorder.go:91-107 | for a code in [100, 600) exactly its class counter rises by one; for any other code no class counter changes |
| `MetricsProperties.ObserveMaxima` | metrics_recorder.go:72-139 | for non-negative readings every maximum becomes the larger of old value and reading |
| `MetricsProperties.ObserveMinima` | metrics_recorder.go:75-142 | every minimum takes the reading when it is 0 (unset) and the smaller value otherwise, so an observed 0 is overwritten next time |
| `MetricsProperties.MinRuleIdempotent` | metrics_recorder.go:127-132 | the repeated millisecond minimum update changes nothing |
| `MetricsProperties.ObserveAverages` | metrics_recorder.go:112-136 | totals grow by exactly the readings and each average is its total divided by the new count, truncated |
| `MetricsProperties.ObserveUptime` | metrics_recorder.go:64-66 | the uptime fields hold the latest reading |
| `MetricsProperties.SumInc` | metrics_recorder.go:89-90 | raising one counter raises the sum of a counter map by one |
| `MetricsProperties.ObserveBalanced` | metrics_recorder.go:68-90 | if the method and status counters each sum to the request count, they still do after one more request |
| `MetricsProperties.ObserveAllBalanced` | metrics_recorder.go:68-90 | the same after any sequence of requests |
| `MetricsProperties.NewSnapshotBalanced` | metrics.go:81-106 | the initial counters sum to the initial request count, 0 |
| `MetricsProperties.CountersAddUp` | metrics_recorder.go:68-90 | from `newMetrics`, after n requests the method counters and the status counters each add up to n |
| `MetricsProperties.NewSnapshotShape` | metrics.go:81-106 | the initial record has exactly the nine standard methods and five classes, each at 0, a 0 entry for exactly the codes below 600 with a status text, and zero scalars |
| `MetricsProperties.NewSnapshotCodes` | metrics.go:102-106 | 200 and 101 are listed initially; 0 and 600 are not |
| `MetricsProperties.GetRun` | metrics_recorder.go:68-107 | a run of GET requests adds to the request, GET, 200 and class counters request by request |
| `MetricsProperties.FiveClassesScenario` | metrics_test.go:44-105 | five GETs answered 500, 400, 300, 200 and 101 leave 5 requests, 5 GETs, one 200 and one request in each class |
| `MetricsRecorderModel.NilOptionsKeepHook` | metrics_recorder_option.go:8-13 | options carrying a nil function leave the hook as it was |
| `MetricsRecorderModel.LastHookWins` | metrics_recorder.go:30-32 | the last option with a non-nil function decides the hook |
| `MetricsRecorderModel.Milliseconds` | metrics_recorder.go:111 | `Duration.Milliseconds` truncates toward zero |
| `MetricsRecorderModel.HookAgreesWithRecord` | metrics_recorder.go:147-159 | the hook record carries the same method, status, sizes, durations and goroutine sample that were aggregated |
| `MetricsRecorderModel.MetricsRecorder.constructor` | metrics_recorder.go:24-34 | a fresh `newMetrics` record; the no-op hook, then each option applied in order |
| `MetricsRecorderModel.MetricsRecorder.Metrics` | metrics_recorder.go:37-39 | a fresh copy equal to the live record, so two copies with no request between them are equal |
| `MetricsRecorderModel.MetricsRecorder.ServeHTTP` | metrics_recorder.go:45-166 | a body read failure records nothing, calls no hook and serves `next` directly; otherwise the record takes in the observation, the hook receives the per-request record, and the recorded response is replayed; if the status was already sent, it stays and only the body is appended |
| `Http.ResponseWriter.Replay` | stampede.go:57-61 | the recorded headers copied over the writer's, then the status, then the body; on a writer whose status was already sent, only the body is appended |

## Left out

- IPv6 literal parsing (`net.ParseIP` for addresses with ':') is a parameter of the model (`Ipv6Parser`). The IPv4 dotted-quad parser and the IPv4-mapped rule are written out.
- `strings.ToLower` and `strings.EqualFold` are modelled on ASCII letters only. Unicode case folding is not modelled.
- int64 overflow of the metrics counters and totals is not modelled; integers are unbounded.
- Concurrency is not modelled: the read-write lock of the recorder, the `sync.Map`s, and `singleflight` in `Stampede`. Each request is one atomic step, so the guarantee that concurrent requests for one key share one handler run is not stated.
- The token bucket of `golang.org/x/time/rate` is not modelled. `Limiter.Wait` is an input (`WaitResult`), and only the limiter's settings are kept.
- `MetricsRecorder.Handler` (JSON output, `metrics_recorder.go:173-178`) is not modelled. It is JSON marshalling, and it reads the record without the lock.
- MD5 is a parameter (`Hash`); only the formatting of its digest into the tag is modelled.
- File serving itself (`http.FileServer`, `http.StripPrefix`, `http.Dir`, `Static`, `StaticHandler`) is not modelled. The file system is a map from name to file or directory.
- `Static.IndexPath` does not model the cleaning that `path.Join` performs. It is exact only for clean names.
- `ResponseHeader`, `AddHeaderFunc` and the `HeaderFunc` type are not part of this model. Each header function is modelled as setting its one header (`Http.Set`) on the header map.
- Downstream handlers and the hook are pure values. The Go middlewares mutate `r.RemoteAddr` and `r.Body` in place; here `next` receives a new request value with the same fields.
- A handler that `next` calls directly on the live writer (the failing-body path of the recorder, the non-GET path of `Stampede`) is modelled as writing its whole response: headers, then status, then body.
- Clocks (`time.Now`, `processStartTime`) and `runtime.NumGoroutine` are inputs to the methods.
- `CacheControl.NoCacheValue`: the exact value is stated as a concatenation of the seven directive literals with "," between them, not as one string literal.
- `Switch.SwitchRunsNext`: Go calls `f(r)` once per request; with pure predicates that cannot be stated, and the model evaluates `f(r)` as a value.
- `Http.StatusText` is written out from the `net/http` table; it is not part of the repository's source.
- Logging is not modelled: the `log.Printf` on a failed limiter wait (`ratelimit.go:43`) and the one on a failed request-body read (`metrics_recorder.go:48`) have no counterpart.
- Expires, timeouts, recovery, context values and content sniffing middlewares are outside the modelled core.
