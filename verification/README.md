# A verified model of the proxy gateway

This Dafny project models the parts of the gateway that decide something: which upstream proxy a
client gets, how a proxy's record evolves, what the wire parsers accept, where warm connections and
sticky sessions end up, and how many handlers run at once. `dafny verify dfyconfig.toml` checks all of it.

## How it is laid out

| file | models |
|---|---|
| `Proxies.dfy`, `Lifecycle.dfy` | one proxy: record, circuit breaker, score; whole runs of events |
| `Ordering.dfy`, `Selection.dfy`, `State.dfy` | the n best of a collection; eligibility, tiers and weights; the shared pool |
| `Membership.dfy` | who is in the pool and who is banned, over whole histories |
| `Recheck.dfy`, `HealthLoop.dfy` | one batch of the health loop; runs of it |
| `Geo.dfy`, `GeoHistory.dfy` | the country index and selection by country; the index over whole histories |
| `Persistence.dfy` | saving and loading the pool |
| `Utf8.dfy`, `Sniff.dfy`, `ClientHello.dfy` | valid UTF-8; the server name in a ClientHello, and an encoder of RFC 8446 and RFC 6066 messages |
| `Streams.dfy`, `Connect.dfy`, `Socks.dfy` | the HTTP CONNECT and SOCKS5 handshakes over a byte stream |
| `WarmPool.dfy`, `Sticky.dfy` | connections opened ahead of time; sticky sessions |
| `Handler.dfy` | one connection over the real components, alone |
| `Gateway.dfy`, `Interleaving.dfy` | all handlers interleaved: permits and counters; the same over all shared components |
| `TlsPolicy.dfy` | how far HTTPS keeps to TLS-clean proxies when everything runs at once |
| `Wrappers.dfy`, `Words.dfy` | optional values; machine integers |

Objects that change are classes whose methods are proved against functions on their value; the theorems
are about those functions, or about every run of them. Conventions:

- One clock, in nanoseconds, stands for both `Instant` and `Utc`; an operation reads it once.
- `f64` is `real`; a latency sample may also be a non-finite float. Scores are finite.
- A `DashMap` is a `map`; an iteration over it takes an arbitrary order of its keys as a parameter, and
  a random draw an arbitrary number.
- 32-bit and 64-bit counters wrap, as the release build's do.
- Network answers, liveness peeks, read sizes and waiting times are arbitrary.

## What the code does not keep

The model follows the code where comments or names suggest otherwise, and proves exactly how far each goes.

- 50 failures are called permanent, but from the 50th on the deadline of the 49th stays in place and
  expires an hour after it (`FiftyFailuresExpire`); a proxy loaded with 49 or more failures never gets
  a deadline at all (`LoadedWithFortyNineNeverOpens`).
- "Failed means at least 5 consecutive failures" holds until the 32-bit count wraps on a Failed proxy,
  and breaks exactly then (`FailureKeepsFiveExactly`, `CountWraps`).
- Bytes read together with the CONNECT header are dropped. No chunking loses any exactly when nothing
  follows the header within the first 1024 bytes (`TunnelBytesSafeExactly`).
- A proxy whose country changes stays listed under the old one, and one loaded with a country is not
  listed until a rebuild (`LocateKeeps`, `InsertKeeps`).
- The backup used on a first retry is not checked for TLS cleanliness (`BackupMayBeDirty`, `DirtyBackupIsUsed`;
  `HttpsPick` is the exact condition). If it has left the pool the attempt waits although other proxies
  may be there, and after a wait HTTPS too takes any best choice (`WokenMayBeDirty`, `WokenIsCleanExactly`).
- The two expiry tests of sticky sessions differ at the exact instant of expiry (`TestsDifferExactly`).
  Cleanups are invisible to clients that ask again before they go on (`CleanupsAreInvisible`), but one
  between a get and the success is not (`CleanupForgetsExactly`, `TouchRevivesExactly`).
- The size cap is passed exactly when the put of a fresh key meets a full pool (`CapKeptThroughoutExactly`):
  by additions and unbans, which do not look at it, and by an insertion that looked before the pool was
  full (`CapIsPassed`). A single inserter with no such call beside it keeps it (`InsertionsPassByConcurrency`).
- During a ban or an unban the proxy is in neither list (`NobodyIsLost`). A ban does not keep a proxy out
  (`BanDoesNotLast`), an unban overwrites, and so may an addition (`UnbanRestores`, `OverwritesExactly`).
- A proxy that is due is not always checked: better classes go first (`BatchExactly`), and enough healthy
  ones keep a Failed one out for good (`StarvationWithoutEnd`); `DueComesUp` says when that cannot happen.
- The TLS verdict of a sticky proxy may change between its check and its use (`StickyTurnsDirty`), and
  does so by exactly the operations of `StaysCleanExactly`.
- A cleanup keeps what ever succeeded, but a success count that has wrapped to 0 looks like none
  (`CleanupDropsExactly`, `WrappedCountIsDropped`).

## Model

| member | source | states |
|---|---|---|
| `Proxies.Proxy.constructor` | src/pool/proxy.rs:78-99 | a new proxy: pessimistic latency, nothing counted, Unchecked, breaker closed |
| `Proxies.Proxy.RecordSuccess` | src/pool/proxy.rs:107-130 | the whole record and runtime state after a success |
| `Proxies.Proxy.RecordFail` | src/pool/proxy.rs:133-157 | the whole record and runtime state after a failure, with the early return from 50 failures on |
| `Proxies.Proxy.MarkPresumedAlive` | src/pool/proxy.rs:202-206 | fresh chance: status, deadline and failure count reset, all else unchanged |
| `Proxies.KeyIdentifies` | src/pool/proxy.rs:102-104 | the key string determines host and port |
| `Proxies.ParsesAsU16Exactly` | src/api/web.rs:176 | a decimal number is a port exactly up to 65535, with a plus sign or without |
| `Lifecycle.RecordedLatency` | src/pool/proxy.rs:108-113 | in numbers: four fifths of the old latency and one fifth of the sample, which counts as itself within [0, 60000], as 0 below, as 60000 above, as 5000 if not finite |
| `Lifecycle.FailureOpensBreaker` | src/pool/proxy.rs:141-156 | in numbers: after the failure that makes the count k the proxy is available exactly one minute later for k of 5 to 9, five minutes for 10 to 19, one hour for 20 to 49 |
| `Lifecycle.FailureEffect` | src/pool/proxy.rs:133-157 | count, deadline and status after one failure |
| `Lifecycle.ScoreDifference` | src/pool/proxy.rs:168-175 | in numbers: a point per millisecond, 50 per counted failure, the boost off |
| `Lifecycle.RecentSuccessIsWorth100` | src/pool/proxy.rs:178-183 | a success less than 300 seconds ago is worth exactly 100 points, an older one nothing |
| `Lifecycle.PlainScoreIsLatency` | src/pool/proxy.rs:168-199 | without failures, boost, recent success or long uptime the score is the latency |
| `Lifecycle.UptimeBonusExactly` | src/pool/proxy.rs:185-196 | in numbers: nothing up to 300 seconds, then 50 and 450 more spread evenly up to 3600, 500 beyond |
| `Lifecycle.StreakBegins` | src/pool/proxy.rs:115-126 | a success lets the uptime streak run on exactly if it is running and no failure is counted |
| `Lifecycle.StreakIsStored` | src/pool/proxy.rs:118-126 | a success stores the running streak's whole seconds if they are more than were stored |
| `Lifecycle.ReachableKeepsInv` | src/pool/proxy.rs:107-157 | in every reachable state a deadline implies Failed and lies within an hour of the last check, a live status implies at most 4 failures, and latency lies in [0, 60000] |
| `Lifecycle.ReachableStep` | src/pool/proxy.rs:107-206 | every event, restarts included, leads from a reachable state to a reachable state |
| `Lifecycle.OnlyFailedIsEverUnavailable` | src/pool/proxy.rs:160-165 | only Failed proxies can be unavailable; Verified, PresumedAlive and Unchecked have no deadline |
| `Lifecycle.FailureKeepsFiveExactly` | src/pool/proxy.rs:133-157 | one failure keeps Failed-means-five if and only if the count does not wrap on a Failed proxy |
| `Lifecycle.FailedMeansFiveInRuns` | src/pool/proxy.rs:140-157 | in every run of fewer than 2^32 events Failed means at least 5 consecutive failures |
| `Lifecycle.CountWraps` | src/pool/proxy.rs:135 | 2^32 failures in a row leave a Failed proxy with no failure counted |
| `Lifecycle.StreakEffect` | src/pool/proxy.rs:140-157 | the failure count and the deadline after any streak of failures on a closed breaker, in closed form |
| `Lifecycle.FiftyFailuresExpire` | src/pool/proxy.rs:146-149 | after 50 or more failures the proxy is available exactly from an hour after the 49th |
| `Lifecycle.LoadedWithFortyNineNeverOpens` | src/pool/proxy.rs:141-150 | a closed breaker with 49 or more failures counted stays available through any streak |
| `Lifecycle.DeadlineNeverEarlier` | src/pool/proxy.rs:140-156 | across a failure streak that does not wrap the count the deadline never moves earlier |
| `Lifecycle.ScoreBounds` | src/pool/proxy.rs:168-199 | a reachable Verified or PresumedAlive proxy scores within [-600, 60200] |
| `Lifecycle.SmoothedClosedForm` | src/pool/proxy.rs:107-113 | the latency average is the 0.8-decayed start plus the weighted sum of the cleaned samples |
| `Lifecycle.SmoothedBetween` | src/pool/proxy.rs:107-113 | the average stays between any bounds of the start and the cleaned samples |
| `Lifecycle.SmoothedMonotone` | src/pool/proxy.rs:107-113 | the average is monotone in each sample |
| `Lifecycle.SmoothedConverges` | src/pool/proxy.rs:107-113 | under constant latency the distance shrinks by exactly 0.8 per sample |
| `Lifecycle.ConstantLatencyConverges` | src/pool/proxy.rs:107-113 | the same for one measurement within range repeated |
| `Lifecycle.SmoothedMeasurements` | src/pool/proxy.rs:107-113 | for measurements within range the closed form is over the measurements themselves |
| `Lifecycle.LatencyIsSmoothedSuccesses` | src/pool/proxy.rs:107-113 | over any run with failures and restarts the stored average is that of the successes alone |
| `Lifecycle.RecordIsItsHistory` | src/pool/proxy.rs:107-157 | counts, time stamps, classification and uptime streak are functions of the events so far; a running streak means no counted failure |
| `Lifecycle.NewIsReachable` | src/pool/proxy.rs:78-99 | new proxies are where every run starts |
| `Lifecycle.NewProxyExactly` | src/pool/proxy.rs:78-99 | every field of a new proxy, and its score of 5000 |
| `Lifecycle.UptimeBonusShape` | src/pool/proxy.rs:185-196 | no bonus up to five minutes, more than 50 beyond, 500 exactly from an hour on |
| `Lifecycle.ScoreIsMonotone` | src/pool/proxy.rs:167-199 | no worse in every respect never scores worse, and each counted failure costs at least 50 |
| `Lifecycle.StabilityIsWorth500` | src/pool/proxy.rs:185-196 | an hour of uptime outweighs exactly 500 ms of latency |
| `Ordering.StableSortCorrect` | src/pool/state.rs:462 | the reference sort orders, permutes and keeps ties in order of appearance |
| `Ordering.TopNIsSortThenTake` | src/pool/state.rs:432-464 | any way of keeping the n best shows the scores of sort-then-take, place by place |
| `Ordering.SortThenTakeIsTopN` | src/pool/state.rs:311-316 | sort-then-take keeps the n best, so the two descriptions coincide |
| `Ordering.KeptRank` | src/pool/state.rs:231-264 | a kept element's score is one of the n lowest |
| `Selection.EligibleInAnyOrder` | src/pool/state.rs:236-240 | what passes a filter does not depend on the iteration order |
| `State.SharedState.Scan` | src/pool/state.rs:432-460 | the one-pass scan keeps min(n, eligible) entries and nothing left out scores lower than anything kept, for every order and every n |
| `State.SharedState.CollectTopN` | src/pool/state.rs:231-264 | the 10 best eligible proxies, 10 of them if there are as many |
| `State.SharedState.CollectTopNSized` | src/pool/state.rs:432-464 | the n best, distinct, best first, with the scores of sort-then-take |
| `State.SharedState.TopStableProxies` | src/pool/state.rs:412-429 | keys of distinct Verified entries with the n lowest scores in order |
| `State.ScanIgnoresOrder` | src/pool/state.rs:236-261 | two iteration orders keep the same scores |
| `State.SharedState.WeightedRandomSelect` | src/pool/state.rs:268-290 | the drawn candidate; the sampler's error branch is never taken |
| `State.SharedState.SelectBest` | src/pool/state.rs:185-228 | one of the 10 best of the first nonempty tier, else the first untested entry met, else nothing; never Failed, unavailable or of an excluded country |
| `State.SharedState.SelectBestForTls` | src/pool/state.rs:369-406 | likewise among TLS-clean entries first, falling back to the plain choice |
| `State.TlsChoiceIsClean` | src/pool/state.rs:367-406 | while a TLS-clean scored candidate exists the choice is TLS-clean, and Verified if one such is |
| `State.ChoiceIsAllowed` | src/pool/state.rs:185-228 | whatever is chosen, for TLS or not, is not Failed, has no open breaker, and its country, if known, is not excluded |
| `State.ChoiceTiers` | src/pool/state.rs:185-228 | a Verified proxy is chosen while one may be, else one presumed alive, else an untested one |
| `State.AmongBestExactly` | src/pool/state.rs:231-264 | one of the 10 best: fewer than 10 eligible entries score strictly lower |
| `State.FiltersExactly` | src/pool/state.rs:194-227 | each tier's filter in terms of the record's fields |
| `State.NoChoiceExactly` | src/pool/state.rs:185-228 | nothing is chosen if and only if every entry is unavailable, excluded or Failed |
| `State.AvailabilityTestIsRedundant` | src/pool/state.rs:194-227 | on reachable pools the breaker test changes no tier's eligible list |
| `Selection.WeightsAreSamplable` | src/pool/state.rs:273-289 | every weight is at least 1, so the sampler can be built |
| `Selection.WeightsFollowScores` | src/pool/state.rs:266-281 | a score is no higher exactly when its weight is no lower |
| `Selection.WeightsExactly` | src/pool/state.rs:273-281 | weights differ by exactly the score difference, and the worst candidate's is 1 |
| `Selection.WeightBounds` | src/pool/state.rs:268-290 | for at most 10 reachable candidates weights lie in [1, 60801] and each is drawn with probability at least 1/547210 |
| `State.SharedState.RecordSuccess` | src/pool/state.rs:346-350 | the entry of the key, if present, sees a success; nothing else changes |
| `State.SharedState.RecordFail` | src/pool/state.rs:353-358 | the entry of the key, if present, sees a failure; the rotation counter advances either way |
| `State.SharedState.SetTlsClean` | src/pool/state.rs:361-365 | the TLS verdict of the key's entry, if present |
| `State.SharedState.InsertIfAbsent` | src/pool/state.rs:506-519 | inserts exactly when the key is absent and the cap leaves room |
| `State.InsertRespectsCap` | src/pool/state.rs:504-519 | insert_if_absent never overwrites, and never takes a capped pool past its cap |
| `Membership.CapKeptExactly` | src/pool/state.rs:506-519 | one map operation keeps a pool within its cap if and only if it does not put a fresh key into a full pool |
| `Membership.CapKeptThroughoutExactly` | src/pool/state.rs:506-519 | over any interleaving of the calls' single map operations the pool never passes its cap if and only if no put of a fresh key meets a full pool |
| `Membership.PastCapByForced` | src/pool/state.rs:506-519 | the pool is never past its cap by more than the number of such puts |
| `Membership.InsertionsPassByConcurrency` | src/pool/state.rs:506-519 | k insertions and bans at once pass the cap by at most k - 1, so a single inserter keeps it |
| `Membership.CapIsPassed` | src/api/web.rs:155-207 | the cap is passed by an addition, by a ban, an insertion and an unban, and by an addition between an insertion's length test and its put |
| `Membership.NobodyIsLost` | src/api/web.rs:185-207 | but for cleanups every proxy in the pool, banned, or on its way between the two is in one of the three at every instant |
| `Membership.NobodyIsLostInTheEnd` | src/api/web.rs:185-207 | and in one of the two lists once no call is under way |
| `Membership.InsertionInARow` | src/pool/state.rs:506-519 | with nothing in between, the length test and the put are insert_if_absent |
| `Membership.AdditionInARow` | src/api/web.rs:148-155 | likewise the test for the key and the put of an addition |
| `Membership.BanInARow` | src/api/web.rs:185-186 | likewise the two halves of a ban |
| `Membership.UnbanInARow` | src/api/web.rs:205-207 | likewise the two halves of an unban |
| `Membership.OverwritesExactly` | src/api/web.rs:155-207 | a put changes a present entry if and only if it is an addition's or an unban's with another record for its key |
| `Membership.UnbanRestores` | src/api/web.rs:185-207 | an unban brings back the record of the ban whatever happened in between, and overwrites |
| `Membership.BanDoesNotLast` | src/pool/state.rs:506-519 | a banned key enters the pool again by the next insertion, if the cap leaves room |
| `Membership.HistoryKeepsSound` | src/pool/state.rs:346-533 | over any interleaving both lists, and what is on its way, stay reachable and keyed |
| `State.CleanupDropsExactly` | src/pool/state.rs:522-533 | a proxy with a given history is dropped if and only if its success count is a multiple of 2^64 and its last check was a day ago or earlier |
| `State.WrappedCountIsDropped` | src/pool/state.rs:522-533 | 2^64 successes and a day without a check drop a proxy |
| `State.OnceGoodStays` | src/pool/state.rs:522-533 | in fewer than 2^64 events a proxy that ever succeeded is never dropped |
| `State.CleanupKeeps` | src/pool/state.rs:522-533 | what a cleanup leaves is unchanged, reachable and under its own key |
| `State.SharedState.AddProxy` | src/api/web.rs:136-163 | a new proxy enters exactly when its key is not in the pool, whatever the cap |
| `State.SharedState.BanProxy` | src/api/web.rs:166-198 | a proxy moves from the pool to the banned list; the answers for malformed and unknown keys |
| `State.SharedState.UnbanProxy` | src/api/web.rs:201-220 | a banned proxy moves back under its own key, over whatever is there |
| `Proxies.BannableExactly` | src/api/web.rs:170-183 | a proxy can be banned if and only if its host has no colon |
| `State.UpdateKeepsReachable` | src/pool/state.rs:346-365 | recording an event keeps the whole pool reachable |
| `State.SharedState.ProxiesNeedingCheck` | src/pool/state.rs:541-572 | the batch, and that a due entry is in it if and only if its rank by class and order of iteration is below the limit |
| `Recheck.NoProxyForgotten` | src/pool/state.rs:541-558 | every reachable entry becomes due within an hour of its last check, a Verified one exactly from 61 s on, others at once |
| `Recheck.BatchExactly` | src/pool/state.rs:562-571 | a candidate is in the batch if and only if the candidates of better class and those of its own met earlier number fewer than the limit |
| `Recheck.RoomForAll` | src/pool/state.rs:562-571 | nobody is left out while all candidates fit |
| `HealthLoop.DueComesUp` | src/pool/health_checker.rs:411-425 | in a run of the loop a due proxy comes up within a minute if that minute's batches have room for the whole pool, every check makes its proxy rest, and nothing else checks it |
| `HealthLoop.RestsExactly` | src/pool/state.rs:541-558 | a check keeps a proxy from being due for a minute if and only if it leaves it Verified or with its breaker open that long |
| `HealthLoop.CheckRests` | src/pool/proxy.rs:107-157 | a success does, so do failures 5 to 49, and of the first four exactly those of a Verified proxy |
| `HealthLoop.FailedNeverComesUp` | src/pool/health_checker.rs:411-425 | no Failed proxy is checked in any run in which healthy Verified ones last checked 61 s before suffice to fill every batch |
| `HealthLoop.FourteenBatchesStarve` | src/pool/health_checker.rs:411-418 | at a round every five seconds fourteen batches of healthy Verified proxies suffice |
| `HealthLoop.StarvationWithoutEnd` | src/pool/health_checker.rs:411-418 | such runs of any length exist |
| `Recheck.FailedWaits` | src/pool/health_checker.rs:411-425 | while enough Verified entries were last checked 61 s ago or earlier no Failed entry is checked |
| `Ordering.SortedPlace` | src/pool/state.rs:563-568 | the stable sort puts every element at its rank: all smaller ones and the earlier equal ones come first |
| `Recheck.BatchIsFair` | src/pool/state.rs:562-571 | a batch holds candidates only, in class order, and omits one only when it is full of candidates of equal or better class |
| `Recheck.BatchIsFirstComeFirstServed` | src/pool/state.rs:563-571 | within a class the batch takes the candidates met first |
| `Recheck.BatchPriorities` | src/pool/state.rs:562-568 | no candidate is left out of a batch for one of a worse class |
| `Geo.RebuildRestoresAll` | src/pool/state.rs:59-66 | a rebuild makes the index complete, without stale listings and without repeats |
| `Geo.GeoIndex.Insert` | src/pool/state.rs:35-40 | lists the key under the country unless it is there |
| `Geo.GeoIndex.Remove` | src/pool/state.rs:44-48 | takes the key out of the country's list |
| `Geo.GeoIndex.GetKeys` | src/pool/state.rs:51-56 | the country's list, empty if there is none |
| `Geo.GeoIndex.Rebuild` | src/pool/state.rs:59-66 | the index built from the pool in iteration order |
| `Geo.RebuiltIsExact` | src/pool/state.rs:59-66 | after a rebuild a country lists exactly the pool keys of that country, once each |
| `Geo.SelectBestByCountry` | src/pool/state.rs:295-318 | the drawn one of the 10 best available Verified proxies among the listed keys still in the pool |
| `Geo.CountryChoiceIsFullScan` | src/pool/state.rs:292-318 | with an index in order, selection by country equals a full scan of the pool |
| `Geo.LocateKeeps` | src/pool/health_checker.rs:392-397 | a country assignment keeps the index complete, and free of stale listings exactly when the proxy had no other country |
| `Geo.InsertKeeps` | src/pool/state.rs:506-519 | putting a proxy into the pool keeps the index complete exactly when it has no country or is listed already, and free of stale listings exactly when no other country lists its key |
| `Geo.RemovalKeeps` | src/api/web.rs:185 | taking any entries out of the pool keeps the index complete and free of stale listings |
| `Geo.CleanupKeepsIndex` | src/pool/state.rs:522-533 | so does a cleanup |
| `Geo.EventsKeep` | src/pool/state.rs:346-365 | recorded events leave the index in order |
| `GeoHistory.StepKeepsPlacedExactly` | src/pool/health_checker.rs:392-397 | one operation keeps every located proxy listed, or about to be, if and only if it brings in no unlisted located one |
| `GeoHistory.PlacedThroughoutExactly` | src/pool/health_checker.rs:392-397 | over any history every located proxy, in the pool, banned or on its way, is listed or about to be if and only if no unlisted located one is brought in |
| `GeoHistory.CompleteOverHistories` | src/pool/state.rs:35-66 | after a rebuild, while only proxies without a country come in, the index is complete whenever no answer is about to be listed |
| `Geo.RemoveUndoesInsert` | src/pool/state.rs:35-48 | removal takes out the inserted key and nothing else |
| `Persistence.LoadState` | src/pool/persistence.rs:13-66 | the pool after loading, the number of records read and of those presumed alive; nothing for a missing file |
| `Persistence.SaveState` | src/pool/persistence.rs:69-76 | the file holds exactly the records of the checked entries |
| `Persistence.LoadedExactly` | src/pool/persistence.rs:26-40 | loading into an empty pool under a cap m brings in the first record of a key if and only if fewer than m distinct keys come before it in the file, and nothing else |
| `Persistence.LoadKeepsFirstRecords` | src/pool/persistence.rs:26-40 | the loaded pool consists of the first records of the keys, under a cap m the first m of them |
| `Persistence.FirstsInFileOrder` | src/pool/persistence.rs:26-40 | the first records keep the file's order: each stands behind as many as there are distinct keys before it |
| `Persistence.FirstsAreFirst` | src/pool/state.rs:511-518 | a record is among the first ones if and only if no earlier record has its key |
| `Persistence.SaveThenLoad` | src/pool/persistence.rs:19-76 | save then load under any cap brings back checked proxies only, as loaded: all if and only if there is room, else exactly the first cap many |
| `Persistence.LoadedRecord` | src/pool/persistence.rs:27-36 | loading changes no persisted field but the failure count, and it only after a success within the hour |
| `Persistence.ReloadIsIdempotent` | src/pool/persistence.rs:19-76 | a second restart at any later time changes no persisted field |
| `Persistence.SecondRestartLosesNothing` | src/pool/persistence.rs:19-76 | and loses no proxy, under any cap |
| `Persistence.ReloadIsReachable` | src/pool/persistence.rs:19-54 | a restart keeps the pool reachable and keyed, whatever the cap |
| `Sniff.ParseTlsSni` | src/proxy/sniff.rs:21-109 | the cursor walk yields the name read off the nested fields, with every index in range |
| `Sniff.SniExactly` | src/proxy/sniff.rs:21-109 | the parser yields a name if and only if the buffer is a framed ClientHello prefix with that name in it |
| `Sniff.ValidUtf8Exactly` | src/proxy/sniff.rs:98 | the bytes taken for a name are exactly the UTF-8 encodings of texts |
| `Sniff.SniIsPrefixStable` | src/proxy/sniff.rs:32-35 | once a name is found more bytes never change it |
| `Sniff.TruncatedPeek` | src/proxy/sniff.rs:32-35 | a truncated peek yields the name of the whole data or none |
| `ClientHello.SniRoundTrip` | src/proxy/sniff.rs:12-109 | for every well-formed ClientHello and whatever follows, the parser yields the name of the first server_name extension, none if there is none |
| `ClientHello.HostRoundTrip` | src/proxy/sniff.rs:12-109 | an ASCII host name in the first server_name extension is read back, and from any truncation it or nothing |
| `Connect.HttpConnectHandshake` | src/proxy/upstream.rs:56-104 | the outcome is the decision on the reply, whatever the read sizes; what is taken off the stream and what is sent |
| `Connect.AcceptedExactly` | src/proxy/upstream.rs:64-104 | the tunnel is opened if and only if the header ends within 1024 bytes and the second word of its first line reads 200; the outcome without an end |
| `Connect.ReplyIsJudged` | src/proxy/upstream.rs:79-101 | a reply with an ordinary status line is accepted if and only if its code is 200, and otherwise rejected with the code |
| `Connect.NoCodeIsZero` | src/proxy/upstream.rs:84-88 | a status line without a second word is rejected with code 0 |
| `Connect.NoNumberIsZero` | src/proxy/upstream.rs:84-88 | so is one whose second word is no number |
| `Connect.NumberIsRead` | src/proxy/upstream.rs:87 | numbers are read up to 65535, with a plus sign or without |
| `Connect.SpaceSizeExactly` | src/proxy/upstream.rs:85 | words are separated by exactly the characters with Unicode's White_Space property |
| `Connect.RequestReadBack` | src/proxy/upstream.rs:58-62 | a proxy reads back method, target, Host field, and from the target host and port; the header ends where the request does |
| `Connect.HeaderEndExactly` | src/proxy/upstream.rs:107-109 | the header end is the first CRLFCRLF |
| `Connect.DecidedByHeader` | src/proxy/upstream.rs:79-101 | the outcome depends on the bytes up to the first CRLFCRLF alone |
| `Connect.TunnelBytesSafeExactly` | src/proxy/upstream.rs:90-94 | no chunking loses tunnel bytes if and only if the first 1024 bytes end with the header |
| `Connect.OneByteAtATime` | src/proxy/upstream.rs:72-79 | reading byte by byte stops right at the header end |
| `Connect.StatusLineRead` | src/proxy/upstream.rs:80-88 | a status line is read as its three-digit code, with or without a reason after it |
| `Socks.Socks5Handshake` | src/proxy/upstream.rs:117-214 | the outcome, the bytes left unread and the bytes sent, on every branch, either write failing included |
| `Socks.RequestRoundTrip` | src/proxy/upstream.rs:139-153 | a server reads back exactly host and port, whatever follows |
| `Socks.RequestUnique` | src/proxy/upstream.rs:139-153 | no request is the beginning of another |
| `Socks.SucceedsExactly` | src/proxy/upstream.rs:122-214 | success if and only if both writes succeed and the stream is a method choice, a success reply with any address type and tunnel data, which is left unread |
| `Socks.RefusalsExactly` | src/proxy/upstream.rs:126-145 | the outcomes for a wrong version, no acceptable method and a host too long, and what they leave unread |
| `Socks.ReplyRefusalsExactly` | src/proxy/upstream.rs:160-206 | the outcomes for a wrong reply version, a refusal code and an unknown address type |
| `Socks.RequestSentExactly` | src/proxy/upstream.rs:126-153 | the request is written exactly after an acceptable method choice, for a host that fits |
| `Socks.GreetingOffersNoAuthentication` | src/proxy/upstream.rs:120 | the greeting offers exactly the method without authentication |
| `Socks.OutcomeIsPrefixStable` | src/proxy/upstream.rs:122-214 | further server bytes change neither a settled outcome nor what was consumed |
| `WarmPool.Pool.Take` | src/pool/warm_pool.rs:65-88 | the queue, the hand-outs, the drops and the counters after a take; what is handed out is alive and younger than the maximal age, what is dropped is dead or that old |
| `WarmPool.AgeExactly` | src/pool/warm_pool.rs:76 | a connection is young exactly while less than the maximal age has passed |
| `WarmPool.TakeCutsQueue` | src/pool/warm_pool.rs:75-84 | a take hands out the first young live connection and drops exactly the stale or dead ones before it |
| `WarmPool.StaleIsPrefix` | src/pool/warm_pool.rs:113-114 | stale connections form a prefix of every queue |
| `WarmPool.TakeKeepsBalance` | src/pool/warm_pool.rs:65-88 | every connection stays in exactly one place, no socket twice, queues by age and within size |
| `WarmPool.RetainKeepsBalance` | src/pool/warm_pool.rs:98-100 | likewise when keys leave the top set |
| `WarmPool.ExpiryKeepsBalance` | src/pool/warm_pool.rs:113-114 | likewise when stale connections are dropped |
| `WarmPool.ConnectKeepsBalance` | src/pool/warm_pool.rs:127-131 | likewise when a connection is added |
| `WarmPool.HistoryKeepsBalance` | src/pool/warm_pool.rs:65-137 | over any history of takes and refreshes every connection is in exactly one place, and hand-outs and drops are final |
| `WarmPool.DroppedWithCause` | src/pool/warm_pool.rs:75-114 | whatever is dropped is dropped by one move of the history, for the reason that held at that move |
| `WarmPool.Pool.RefreshOne` | src/pool/warm_pool.rs:103-136 | one expiry, then connections only; the young ones stay in front and only new ones are added; the queue is full unless a connection was refused |
| `WarmPool.Pool.Refresh` | src/pool/warm_pool.rs:94-137 | a refresh is a history of one retain and, for exactly the first keys, expiries and connections; a drop is of a key outside the top set or stale when its queue was expired; without a refusal the first queues are full |
| `Sticky.Manager.Get` | src/pool/sticky_sessions.rs:50-62 | the session's proxy unless expired, and removal of an expired session |
| `Sticky.Manager.SetOrTouch` | src/pool/sticky_sessions.rs:84-115 | the session after a success: touched, demoted to backup, or new |
| `Sticky.Manager.Set` | src/pool/sticky_sessions.rs:65-78 | a fresh session, whatever was there |
| `Sticky.BackupIsAnotherProxy` | src/pool/sticky_sessions.rs:84-122 | after any trace of operations the backup answered is not the proxy get answers |
| `Sticky.Manager.Touch` | src/pool/sticky_sessions.rs:125-129 | only the last access of one session changes |
| `Sticky.Manager.Cleanup` | src/pool/sticky_sessions.rs:137-145 | exactly the sessions within their effective TTL remain, unchanged |
| `Sticky.TtlBounds` | src/pool/sticky_sessions.rs:52-55 | the effective TTL is the base below ten successes, a minute more per ten, up to three times the base |
| `Sticky.ExpiryInNanoseconds` | src/pool/sticky_sessions.rs:50-145 | get answers up to the end of the effective TTL, a cleanup keeps until just before it |
| `Sticky.SessionIsItsHistory` | src/pool/sticky_sessions.rs:84-115 | proxy, success count, backup and times as a function of the success history |
| `Sticky.BackupDiffers` | src/pool/sticky_sessions.rs:92-98 | the backup is never the current proxy |
| `Sticky.TestsDifferExactly` | src/pool/sticky_sessions.rs:55-56 | the tests of get and cleanup agree except at the exact instant of expiry |
| `Sticky.CleanupsAreInvisible` | src/pool/sticky_sessions.rs:50-145 | in traces of all operations cleanups change no answer and no session left at the end, if gets come strictly later and each success, touch or backup follows such a get of its client with no cleanup between |
| `Sticky.CleanupForgetsExactly` | src/pool/sticky_sessions.rs:100-145 | a success after a cleanup leaves the same session as without it if and only if there was none, the cleanup kept it, or it was already as new |
| `Sticky.TouchRevivesExactly` | src/pool/sticky_sessions.rs:125-145 | a touch after a cleanup leaves the same answer as without it if and only if the cleanup kept the session or it is over again |
| `Handler.Pick` | src/proxy/transparent.rs:129-145 | what attempt i picks: sticky, backup or a fresh choice |
| `Handler.MillisecondsExactly` | src/proxy/transparent.rs:187 | the latency recorded is the number of whole milliseconds |
| `Handler.HandleConnection` | src/proxy/transparent.rs:92-250 | at most 3 attempts by the rules, every outcome recorded on pool, session and counters, active count restored on every path, whatever the iteration orders and liveness answers of each attempt |
| `Handler.UsedIsInPool` | src/proxy/transparent.rs:130-170 | every proxy an attempt uses is an entry of the pool it was chosen from |
| `Handler.TraceKeepsPool` | src/proxy/transparent.rs:123-239 | a whole connection keeps the pool reachable and keyed |
| `Handler.HttpsTlsPolicy` | src/proxy/transparent.rs:101-145 | which HTTPS attempts are TLS-clean: unless the backup of a first retry is gone, exactly those not bound to an unclean backup |
| `Handler.DirtyBackupIsUsed` | src/proxy/transparent.rs:132-135 | after a failed first attempt an unclean backup is used |
| `Gateway.StepKeepsInv` | src/proxy/transparent.rs:92-286 | every step of the accept loop or any handler keeps the permit, counter and attempt accounts |
| `Gateway.Accounting` | src/proxy/transparent.rs:92-286 | for every interleaving: permits plus live handlers is the limit, active_connections counts the handlers between increment and decrement, at most 3 attempts and one success each |
| `Gateway.QuietMeansFree` | src/proxy/transparent.rs:221-285 | when all handlers are done every permit is back and nothing counts as active |
| `Gateway.NeverStuck` | src/proxy/transparent.rs:51-250 | a handler that is not done can always move |
| `Gateway.MovesExactly` | src/proxy/transparent.rs:123-250 | what a handler may do next: an attempt while it has made fewer than three, giving up after three |
| `Gateway.RejectedExactlyAtLimit` | src/proxy/transparent.rs:267-286 | a connection is rejected if and only if as many handlers as the limit are live |
| `Gateway.StepsAreBounded` | src/proxy/transparent.rs:51-286 | in any run a handler takes no more steps than it has left, at most eight in all |
| `Gateway.RemainingIsMet` | src/proxy/transparent.rs:51-286 | the bound on the remaining steps is met by some step in every state |
| `Interleaving.StepKeepsInv` | src/proxy/transparent.rs:92-286 | every single operation of any handler, health check, REST call, cleanup or refresh keeps all accounts of pool, sessions, warm connections, permits and counters |
| `Interleaving.EveryInterleaving` | src/proxy/transparent.rs:92-286 | for every interleaving both lists stay reachable and keyed, every warm connection is in one place, no socket is held by two handlers, the warm pool is asked once per attempt, and permits and active count add up |
| `Interleaving.RefinesGateway` | src/proxy/transparent.rs:92-286 | forgetting the shared components, every run is a run of the permit and counter protocol |
| `Interleaving.OutcomeIsRecorded` | src/proxy/transparent.rs:174-239 | the end of an attempt is recorded on the proxy it went through, with the time since it was picked |
| `Interleaving.SessionAskedInARow` | src/pool/sticky_sessions.rs:50-62 | with nothing in between, the test and the removal are the manager's get |
| `Interleaving.SuccessRememberedInARow` | src/pool/sticky_sessions.rs:84-115 | likewise the two halves of set_or_touch |
| `Interleaving.NeverStuck` | src/proxy/transparent.rs:92-250 | a handler that is not done can always move, whatever the others did to the pool |
| `Interleaving.StepsAreBounded` | src/proxy/transparent.rs:92-286 | a handler takes at most twenty-four steps, however the others interleave |
| `TlsPolicy.HttpsPick` | src/proxy/transparent.rs:101-145 | while a clean candidate exists an HTTPS pick is clean if and only if it is bound to no key or that key's entry is in the pool and clean at that moment |
| `TlsPolicy.BackupMayBeDirty` | src/proxy/transparent.rs:132-135 | an HTTPS retry may pick an unclean backup |
| `TlsPolicy.WokenIsCleanExactly` | src/proxy/transparent.rs:155 | after a wait an HTTPS attempt is sure of a clean proxy if and only if the 10 best Verified ones are all clean |
| `TlsPolicy.WokenMayBeDirty` | src/proxy/transparent.rs:132-155 | a retry whose backup is gone waits, and may then be given an unclean proxy |
| `TlsPolicy.StaysCleanExactly` | src/pool/state.rs:346-533 | a clean entry stays one if and only if the operation is no ban of it, no unclean put over it, no cleanup that drops it and no verdict against it |
| `TlsPolicy.StaysCleanThroughoutExactly` | src/proxy/transparent.rs:107-131 | over any run it stays clean throughout if and only if no step is one of those |
| `TlsPolicy.StickyPick` | src/proxy/transparent.rs:107-131 | if none of the steps between the sticky proxy's check and the pick is one of those, the pick is clean, whatever the others do |
| `TlsPolicy.StickyTurnsDirty` | src/proxy/transparent.rs:107-131 | a verdict between the check of the sticky proxy and the pick goes unnoticed |
| `TlsPolicy.ChecksInARow` | src/proxy/transparent.rs:107-121 | the two looks of that check are the one of a handler alone when nothing comes between |

## Left out

- Handler.HandleConnection: nothing else changes the pool, the sessions or the warm connections while one connection is handled; module Interleaving drops that restriction.
- Interleaving.EveryInterleaving: one pass over a whole map is one step, that is a scan for a choice, a cleanup of the pool or of the sessions, the retain of a refresh and the length of the pool; so is all that happens under the lock of one warm queue. The maps' own locking is not modelled.
- State.InsertRespectsCap: the call as a whole, with nothing between its length test and its put; module Membership takes them apart, and likewise the other calls that are whole in State.
- Sticky.CleanupsAreInvisible: each operation of the manager is one step; module Interleaving takes get and set_or_touch apart.
- HealthLoop.DueComesUp: events between rounds are a list in order; the probes of a batch run at once, so the list is any order of theirs.
- WarmPool.Pool.Refresh: a queue removed from the map while another task holds its lock is not modelled.
- Gateway.Accounting: a panic is not a step, since the release profile aborts on one.
- State.SharedState.WeightedRandomSelect: the sampler's distribution is not modelled, the draw is an arbitrary number; WeightBounds is about the weights.
- Sniff.ParseTlsSni: the name is its UTF-8 bytes, not a decoded string.
- Sticky.EffectiveTtl: a base TTL is a natural number; one too large for `i64` seconds is not modelled.
- Sockets, timeouts, keepalive, `SO_ORIGINAL_DST`, TLS handshakes and GeoIP lookups: foreign or I/O; their results are arbitrary inputs.
- f64 rounding and NaN scores; JSON text, temporary files and renames.
- `parse_http_host` and the fallback order in `sniff`: case analysis on text with little to prove beyond its body.
- `first_ready`: a waiter may miss a notification and then times out, so a wake-up is an arbitrary answer.
- `add_verified` and `connection_pool.rs`: no production caller, and a weaker copy of the warm pool.
- The other REST handlers, metrics, configuration, source lists and the UDP relay: plumbing, or facts of one branch.
- `services/net-manager` and the shell scripts: system configuration.
