# Verified models of admission control, retention and text codecs

This project models, in Dafny, the parts of the service whose correctness is hard to
see from one function at a time, and proves what they promise over every input, every
run and every interleaving.

**Admission control and the key cache.** `TouchCounter`, `GrantLimiter`,
`IdentityLimiter`, `RateLimiter` and `JwksCache` are classes with the source's maps and
timestamps; each method is one region held under the mutex and is proved equal to a
function of the old state. The `*Runs` modules then take whole runs of those functions:
a clock that never goes back, requests in any order, and in `TouchRuns` and `JwksRuns`
requests that overlap in any way. Go's zero time is `None`, from which any duration has
passed. `JwksCache`, `TouchReservations`, `Handlers` and `Onboarding` also carry the
interleaving into the code itself: wherever the lock is free a method such as
`Unlocked` or `Others` lets other requests run, promising only what every lock region is
proved to keep for the others.

**Handlers.** `TouchReservations` ties the shared counter to a legal run of the system
in `TouchRuns`, each reservation owned by the request that made it, and `Handlers`
takes the search and get-profile handlers through every way out: an error, a denial, a
panic. So the touch bound holds of the handlers as written, not of requests assumed to
behave.

**The retention sweep.** `Retention` says what one DeleteExpired call may do to the
tables, with LIMIT a free choice of rows; `Repositories` proves the Postgres statement
and SQLite's loop over text timestamps against it, wherever the connection is lost, and
ties SQLite's texts to the times they were written from; `Sweep` takes batches, classes
and the full run. What others write before each batch, and on Postgres between finding
rows and deleting them, is a parameter of the sweep: any functions of the tables. The
sweep keeps a ghost trace of its batches, and every row a batch logs is proved truly
expired in the tables of that moment. `SweepStore` is the run table on both backends,
and `SweepRun` the full run over all of it: three classes, their metrics, their rows of
the run table, its pruning, and what the table then answers.

**Text codecs.** `Text`, `Like`, `Timestamps`, `Base64`, `Cursor`, `Phc`,
`ProfileSearch` and `Pagination` cover LIKE escaping against a LIKE matcher, the
fixed-width timestamp layout against time order, time itself against the civil calendar,
Go's reading of such texts in any zone, cursors with the pagination walk, and PHC
strings.

**Onboarding.** `Onboarding` is the cached client-credentials token and the two-attempt
identity check over it.

Limits, intervals and sizes are named constants in the code and appear as numbers in the
theorems about it, and the main run theorems tell what a call answers from the run's
history alone.

Where the code does less than its comments or its other half suggest, the model follows
the code and says exactly when the promise holds:

- Settle (internal/api/touchcounter.go:187-206) looks the window up by caller only, so
  a reservation of an expired window settles into its successor:
  `TouchRuns.StraddlerHarmless`, `TouchRuns.StraddlerExceedsCap`, and the carried term
  of `TouchRuns.TouchCap`.
- The guard on the shifted delay (internal/api/grantlimiter.go:170) catches a wrap only
  if base and maximum have the shape `Backoff.AllDelaysExact` gives;
  `Backoff.WrapPastTheGuard` is a base that slips past it. Every deployed pair has it.
- The cap on tracked identities does not bound the wrapped limiter's own maps
  (internal/connector/identitylimiter.go:216-224), as
  `IdentityRuns.WrappedTablesOutgrowCap` shows: no cap but zero does
  (`IdentityRuns.CapHoldsExactly`). They hold exactly the identities with a live streak
  (`IdentityRuns.WrappedTablesExactly`), and no more than were routed within an entry's
  lifetime (`IdentityRuns.WrappedTablesBounded`).
- A cold key cache answers with the unreachable error exactly when the call's decision
  found the retry floor passed, and with a plain one inside it
  (internal/api/jwks.go:245-262): `JwksRuns.ColdRefusals`,
  `JwksRuns.ColdCallsPart`, `JwksCache.JWKSCache.KeyForKid`.
- The DELETE's re-check (internal/dao/postgres/composite.go:102-121) closes the race for
  a row refreshed meanwhile, and leaves it open for one that gains a credential:
  `Retention.RecheckedRow`, `Retention.OrphanGoesDespiteCredential`.
- The overshoot of one request that the touch cap is meant to allow
  (internal/api/touchcounter.go:18-24), cap + page - 1 in all, holds of every run only
  under settings that leave nothing to touch (`TouchRuns.PlainBoundExactly`); without
  straddlers it always holds (`TouchRuns.TouchCapWithoutStraddlers`).
- A next cursor can point past the offset limit of the query it leads to
  (internal/api/handlers.go:234-236, internal/dao/validate_query.go:20-22):
  `Pagination.WalkDeliversAll` gives the exact condition, `Pagination.WalkCutShort` a
  listing that meets the refusal.
- The `p` parameter of a PHC string is read as 32 bits and cut to 8
  (internal/api/clientstore.go:158), so 260 threads look like 4: `Phc.RoundTrip`,
  `Phc.RehashWhenCostsDiffer`.
- LatestSnapshots returns only classes that have a run
  (internal/sweepstore/sweepstore.go:376-379), not all three:
  `SweepStore.Store.LatestSnapshots`.

## Model

| member | source | states |
|---|---|---|
| TouchCounter.InProcessTouchCounter.SweepLocked | internal/api/touchcounter.go:104-114 | at most once a window, exactly the windows two window lengths old or older go, and every other stays as it was |
| TouchCounter.InProcessTouchCounter.CurrentWindow | internal/api/touchcounter.go:90-97 | the caller's window if it is younger than one window length, a new empty one otherwise, and the table holds it |
| TouchCounter.InProcessTouchCounter.Reserve | internal/api/touchcounter.go:116-127 | admitted exactly while the records touched and reserved in the caller's live window, none if it has no live one, are fewer than the cap; the size is then reserved there, and no other window changes but by the sweep |
| TouchCounter.InProcessTouchCounter.Settle | internal/api/touchcounter.go:184-207 | whichever window the caller has now gains the ids and loses the reservation, never below zero; with no window nothing happens |
| TouchRuns.EvictionInvisible | internal/api/touchcounter.go:104-127 | over every run with a clock that never goes back, a counter that sweeps and one that never does answer every Reserve alike |
| TouchRuns.SweepSimulates | internal/api/touchcounter.go:104-114 | a sweep keeps the simulation: what it drops had already expired |
| TouchRuns.NextIsTheCounters | internal/api/touchcounter.go:116-207 | the steps of the system below change the counter exactly as Reserve and Settle do |
| TouchRuns.RunKeeps | internal/api/touchcounter.go:90-207 | every step of every interleaving keeps the accounting of touched, reserved, outstanding and carried records |
| TouchRuns.RunMore | internal/api/touchcounter.go:116-207 | a legal run followed by an enabled step is a legal run that ends in that step |
| TouchRuns.ReservedIsOwed | internal/api/touchcounter.go:116-207 | along every run a window reserves no more than its own unsettled reservations add up to, whatever straddles it |
| TouchRuns.TouchCap | internal/api/touchcounter.go:116-207 | however requests overlap, records touched plus reservations outstanding in the current window never exceed cap + page - 1 plus the older-window reservations settled into it |
| TouchRuns.TouchCapWithoutStraddlers | internal/api/touchcounter.go:116-207 | with no request outliving its window the bound is cap + page - 1 |
| TouchRuns.TouchedExactly | internal/api/touchcounter.go:184-207 | a window's touched records are exactly the ids settled for the caller since the window opened: none is lost, none invented |
| TouchRuns.AdmittedExactly | internal/api/touchcounter.go:116-127 | after every run, straddlers included, an arrival books its size if and only if the ids settled for the caller since its window opened and the budget still reserved there, both told from the events, number fewer than the cap |
| TouchRuns.AdmittedWithoutStraddlers | internal/api/touchcounter.go:116-127 | with no request outliving its window, that test is the ids settled since the window opened plus the sizes of its requests in flight, against the cap |
| TouchRuns.StaleWindowsGo | internal/api/touchcounter.go:104-114 | after any arrival no window three lengths old is kept, so the table follows the callers seen lately |
| TouchRuns.ReservationsConserved | internal/api/touchcounter.go:116-207 | with no straddler the reserved count is at all times the sum of the unsettled reservations: none leaks, none is released twice |
| TouchRuns.StraddlerHarmless | internal/api/touchcounter.go:187-206 | settling after the window was replaced leaves the counter alone if and only if there is no window, or it adds no new id and releases nothing |
| TouchRuns.StraddlerExceedsCap | internal/api/touchcounter.go:187-206 | three concrete steps in which one late settlement carries the new window past cap + page - 1 |
| TouchRuns.PlainBoundExactly | internal/api/touchcounter.go:116-207 | cap + page - 1 bounds every run of a configuration if and only if the cap or the page leaves nothing to touch |
| TouchReservations.SharedCounter.Reserve | internal/api/touchcounter.go:116-127 | granted exactly while the caller's live window has fewer records touched and reserved than the cap as it is asked; a request's reservation extends the run by one legal step, and disturbs no other request's holdings or history |
| TouchReservations.SharedCounter.Settle | internal/api/touchcounter.go:184-207 | settling takes exactly the settling request's reservation away, as one legal step, and the ids are touched in the caller's window, if it has one |
| TouchReservations.TouchReservation.Settle | internal/api/touchcounter.go:176-182 | the first settlement goes to the counter with the ids, which are then touched in the caller's window if it has one; any later one does nothing |
| TouchReservations.TouchReservation.Release | internal/api/touchcounter.go:166-172 | an unsettled reservation is released with no ids; after a settlement the release does nothing |
| TouchReservations.HeldRemove | internal/api/touchcounter.go:136-182 | taking one reservation out takes it from its holder and from nobody else |
| TouchReservations.AskedOnce | internal/api/touchcounter.go:116-127 | a request that asks the counter once is told one thing, so what the handlers say of its answer settles it |
| TouchReservations.SharedCap | internal/api/touchcounter.go:116-207 | at any moment of any interleaving of handler runs the touch bound holds for every caller |
| TouchReservations.NothingLeaks | internal/api/touchcounter.go:129-182 | once no request holds a reservation no budget is left reserved, in every interleaving, straddlers or not |
| Handlers.ReserveTouches | internal/api/touchcounter.go:146-152 | a reservation object that holds exactly the granted size, or null exactly when the cap test refuses the request |
| Handlers.ReadSearch | internal/api/handlers.go:94-154 | a search passes exactly when it has the search scope, a filter, a readable cursor and a page of at most 50, and is otherwise refused and logged by the first of these it fails; nothing else is asked before |
| Handlers.AnswerSearch | internal/api/handlers.go:194-237 | a page, the one the table gives, exactly when the policy allows, the query is answered and the offset is in range; each way out with its own audit event |
| Handlers.SettleAndRelease | internal/api/handlers.go:190-230 | whatever other requests do meanwhile, a reservation ends in exactly one settlement, with the ids found, touched from then on in the caller's window if it has one, or with none |
| Handlers.SearchCounted | internal/api/handlers.go:181-237 | turned away for the cap exactly when the cap is met as it asks, booking nothing; otherwise one reservation of a page settled once, with exactly the ids of the page's records if there is a page and none if not, and those are then touched in the caller's window |
| Handlers.SearchHandler | internal/api/handlers.go:94-239 | whatever fails, refuses or panics and whatever other requests do meanwhile: nothing stays reserved; a request that passed every check is turned away for the cap exactly when the cap is met as it asks, and otherwise makes one reservation of the page size, 20 by default, and one settlement; a page, the one the table gives, is settled with exactly the ids of its records, all touched in the caller's window as the request ends, and any other answer with none; malformed exactly without a filter, with an unreadable cursor or past 50 records; the first gate failed decides the answer, logged with its caller, kind and ids; and a panic while the answer is logged or written withholds it and takes nothing back |
| Handlers.Ended | internal/api/handlers.go:229-238 | a panic while the audit event is logged or the answer written takes the answer's place; the event stays logged in the second case only |
| Handlers.ReadChecks | internal/api/handlers.go:252-288 | a read passes exactly with a read scope, an id that is not blank and, for any record, one of the closed reason codes; otherwise it is refused and logged by the first of these it fails |
| Handlers.WellAskedMeans | internal/api/handlers.go:266-288 | a read is malformed exactly with an id of white space alone, or without one of the four reasons to read any record |
| Handlers.ReadCounted | internal/api/handlers.go:300-358 | the same for a read of any record, with one id: the cap exactly when it is met, exactly one settlement otherwise, with the id of the profile found or none |
| Handlers.GetProfileHandler | internal/api/handlers.go:252-358 | reads of one's own referrals never touch the budget; any other read is turned away for the cap exactly when the cap is met as it asks, and otherwise reserves one record and settles it exactly once on every way out, a panic after the settlement included: a profile found with its own id, touched in the caller's window as the request ends, anything else with none; the first gate failed decides the answer, logged with its caller, the id asked for or found, and the reason of a read of any record |
| JwksCache.JWKSCache.Decide | internal/api/jwks.go:245-248 | the two decisions KeyForKid makes under the lock, from two clock readings: a refresh is due exactly when no set is committed or the last is a TTL old, and free to start exactly when no fetch has started for five seconds |
| JwksCache.JWKSCache.EvictUnknownKids | internal/api/jwks.go:323-327 | each kid whose 30 seconds were over at its own clock reading goes, every other stays |
| JwksCache.JWKSCache.ReserveUnknownKidRetry | internal/api/jwks.go:309-337 | granted only if the kid had none in the last 30 seconds and fewer than 64 others are live, refused only if it had one or 64 kids had; the new table is given up to the clock readings |
| JwksCache.JWKSCache.Refresh | internal/api/jwks.go:369-402 | one fetch is started; one that succeeds is committed and clears the call; otherwise the call passes only on a key set vouched for by its own staleness check, and is refused only for a reason the cache's state gives, never as not populated |
| JwksCache.JWKSCache.EnforceStaleness | internal/api/jwks.go:448-468 | refused exactly with no key set, or one older than three TTLs |
| JwksCache.JWKSCache.LookupOutOfBand | internal/api/jwks.go:277-282 | a kid the cache does not know is refetched for unless it or 64 kids had a refetch in the last 30 seconds; a key then found is one of the cached set, and one not found is missing from a set committed since that fetch began, if it succeeded |
| JwksCache.JWKSCache.KeyForKid | internal/api/jwks.go:244-285 | whatever other goroutines do whenever the lock is free: the call fetches on schedule if and only if the set it found is a TTL old, or there is none, and no fetch has started for five seconds, and starts no fetch but that and one out of band; a returned key belongs to a fetched set committed at most three TTLs before a check that this call passed; a set fresh enough, or fetched now, is never refused; a cold refusal is the unreachable one exactly when those five seconds had passed; and a kid is unknown only if a set committed since the call's own successful fetch lacks it, and only after a refetch or with refetches used up |
| JwksRuns.StepKeepsCall | internal/api/jwks.go:244-402 | every lock region of every call keeps every other call's vouched-for key set in place |
| JwksRuns.FetchesWhenDue | internal/api/jwks.go:245-262 | in every interleaving, a deciding call fetches if and only if no set was ever committed or the last was a TTL ago, and no fetch has started in the last five seconds; it goes straight to the keys if and only if the last set is younger than a TTL |
| JwksRuns.FailureExactly | internal/api/jwks.go:375-402 | a scheduled fetch that fails fails its call at once if and only if no set was ever committed; an out-of-band one never does |
| JwksRuns.CeilingExactly | internal/api/jwks.go:448-468 | a scheduled staleness check fails the call if and only if no set was ever committed or the last is more than three TTLs old |
| JwksRuns.FoundExactly | internal/api/jwks.go:287-292 | a lookup finds a key if and only if the set committed last has it, and then it is that set's |
| JwksRuns.KeysNeverTooStale | internal/api/jwks.go:244-292 | the staleness bound over every interleaving of any number of calls |
| JwksRuns.StepKeepsFloor | internal/api/jwks.go:245-262 | no step of any call changes what another call's decision found of the retry floor |
| JwksRuns.ColdRefusals | internal/api/jwks.go:245-262 | in every interleaving a call refused for want of a key set gets the unreachable error if and only if its decision found the retry floor passed, and the plain one otherwise |
| JwksRuns.ColdCallsPart | internal/api/jwks.go:245-262 | both errors occur: a run in which a first call whose fetch fails gets the unreachable error and a second inside the retry floor the plain one |
| JwksRuns.ReserveKeepsBudget | internal/api/jwks.go:309-337 | a granted reservation keeps the table an account of every grant of the last 30 seconds |
| JwksRuns.UnknownKidBudget | internal/api/jwks.go:309-337 | at every time of every interleaving at most 64 reservations fell in the last 30 seconds, and at most one per kid |
| JwksRuns.RefusedForCause | internal/api/jwks.go:309-337 | an out-of-band refetch is refused only if the kid had one granted in the last 30 seconds, or 64 kids had |
| JwksRuns.SerialFetchBudget | internal/api/jwks.go:244-285 | with calls one at a time, at most 70 fetches of any kind start in any 30 seconds |
| JwksRuns.OverlapHasNoBudget | internal/api/jwks.go:244-262 | calls that overlap have no such budget: for every n a run in which n fetches start at one moment |
| SlidingWindow.MarkWithin | internal/api/jwks.go:309-337 | adding a mark keeps the number of distinct keys in every window within a bound, if the keys live at that moment are |
| SlidingWindow.SpacedMarks | internal/api/jwks.go:309-337 | marks of one key that are a window apart are as many as their distinct keys in any window |
| Backoff.ShiftIsWrappedProduct | internal/api/grantlimiter.go:169 | shifting left in 64 bits is the exact product wrapped once |
| Backoff.DelayExact | internal/api/grantlimiter.go:169-172 | one delay equals min(base * 2^(n-1), max) over the unbounded integers if and only if its shift does not land in a gap of base |
| Backoff.AllDelaysExact | internal/api/grantlimiter.go:169-172 | every delay is exact if and only if base has no gap: a clear bit j above a positive low part that, moved up, stays under max |
| Backoff.SmallOddPart | internal/api/grantlimiter.go:169-172 | it is enough that the odd part of base times max stays below 2^63 |
| Backoff.DeployedDelaysExact | internal/app/issuer_router.go:26-30 | every base and maximum the program is built with gives exact delays for every failure count |
| Backoff.DeployedSchedule | internal/connector/identitylimiter.go:20-36 | 1, 2, 4, ... 256 seconds and then five minutes; for the overflow 5, 10, ... 320 seconds and then ten minutes |
| Backoff.WrapPastTheGuard | internal/api/grantlimiter.go:169-172 | base 2^32 + 1 shifted by 32 passes the guard with a wrapped value below the maximum |
| Backoff.CappedGrows | internal/api/grantlimiter.go:162-175 | the intended delay starts from base, doubles with each failure and stays at the maximum, so never shrinks |
| GrantLimiter.SweepMap | internal/api/grantlimiter.go:131-137 | exactly the entries whose block ended an hour ago or more are dropped |
| GrantLimiter.InProcessGrantLimiter.Allow | internal/api/grantlimiter.go:110-116 | the answer and the swept tables |
| GrantLimiter.InProcessGrantLimiter.Advance | internal/api/grantlimiter.go:162-175 | one more failure and the block end it earns, for one key of one table |
| GrantLimiter.InProcessGrantLimiter.RecordFailure | internal/api/grantlimiter.go:143-157 | both tables advance; an alert is raised once, when a client reaches the threshold unalerted |
| GrantLimiter.InProcessGrantLimiter.RecordSuccess | internal/api/grantlimiter.go:177-182 | both keys are forgotten |
| GrantRuns.RunKeeps | internal/api/grantlimiter.go:110-182 | under any settings and over every run, each table tells for every key the streak, block end and alert of the history of failures, successes and sweeps due, and holds nothing else |
| GrantRuns.AllowMeaning | internal/api/grantlimiter.go:110-141 | under any settings, Allow refuses exactly while client or source has a failure since its last success whose block has not ended; no sweep ever shows in it |
| GrantRuns.EntriesAreStreaks | internal/api/grantlimiter.go:110-182 | after any run each table holds exactly the keys with a failure since their last success that no sweep has forgotten |
| GrantRuns.AlertMeaning | internal/api/grantlimiter.go:143-157 | under any settings, the alerts raised over a run are one per client streak that reaches the threshold, in order |
| GrantRuns.BlockIsIntended | internal/api/grantlimiter.go:162-175 | a block is what the key's last failure earned, and under exact delays that is min(base * 2^(n-1), max) for the n-th of its streak |
| GrantRuns.BlockOnlyExtends | internal/api/grantlimiter.go:162-175 | another failure never moves a block's end earlier, even for a key the limiter had forgotten |
| GrantRuns.DeployedPrecise | internal/app/issuer_router.go:26-30 | the deployed settings give exact delays |
| IdentityLimiter.IdentityRateLimiter.TrackOrCheck | internal/connector/identitylimiter.go:182-206 | tracked exactly if already tracked, or admitted with room below the cap; the whole new table is given |
| IdentityLimiter.IdentityRateLimiter.Allow | internal/connector/identitylimiter.go:208-214 | a tracked key asks its own bucket, any other the shared overflow bucket, and the other limiter is left alone |
| IdentityLimiter.IdentityRateLimiter.RecordFailure | internal/connector/identitylimiter.go:225-232 | the failure goes to the bucket the key is routed to now, never admitting a new key |
| IdentityLimiter.IdentityRateLimiter.RecordSuccess | internal/connector/identitylimiter.go:234-241 | likewise for a success |
| IdentityRuns.RunKeeps | internal/connector/identitylimiter.go:182-253 | every key routed to its own bucket in the last hour is still tracked, over every interleaving |
| IdentityRuns.OwnBucketsBounded | internal/connector/identitylimiter.go:182-206 | in any hour of any run at most the cap of distinct identities had a bucket of their own |
| IdentityRuns.RoutingSticks | internal/connector/identitylimiter.go:182-241 | a key routed to its own bucket is routed there by every check in the next hour, whatever came between |
| IdentityRuns.OverflowOnlyWhenFull | internal/connector/identitylimiter.go:182-206 | while fewer than the cap of identities were routed in the last hour and a minute, a new identity gets its own bucket |
| IdentityRuns.OnlyAllowAdmits | internal/connector/identitylimiter.go:182-241 | recording a result admits nobody: an identity not routed in the last hour and a minute is sent to the overflow bucket |
| IdentityRuns.WrappedTablesBounded | internal/connector/identitylimiter.go:216-224 | over every interleaving both wrapped tables are of one size, and hold at most the distinct identities routed to their own bucket from an entry's lifetime before the last Allow up to now; hence at most the cap whenever that count is, and at most twice the cap while that window is at most two hours |
| IdentityRuns.TablesAgree | internal/connector/identitylimiter.go:208-241 | with one identity in both slots the two wrapped tables never part: the same keys, counts and block ends along every run |
| IdentityRuns.WrappedTablesExactly | internal/connector/identitylimiter.go:216-224 | what both tables hold, exactly: the identities with a live failure streak; so they keep to the cap if and only if those do |
| IdentityRuns.SerialTablesBounded | internal/connector/identitylimiter.go:208-241 | with operations one at a time both tables are bounded at every moment, by the identities routed within an entry's lifetime before the last Allow |
| IdentityRuns.WrappedTablesOutgrowCap | internal/connector/identitylimiter.go:216-224 | the cap alone is no bound: at any cap and any delays, a run of operations one at a time that leaves cap + 1 entries |
| IdentityRuns.CapHoldsExactly | internal/connector/identitylimiter.go:216-224 | under any delays every run of operations keeps both tables within the cap if and only if the cap is zero |
| IdentityRuns.OneTableSuffices | internal/connector/identitylimiter.go:208-241 | used with one key in both slots, the wrapped limiter answers every run as a one-table limiter would |
| RateLimiter.InProcessRateLimiter.Allow | internal/api/ratelimit.go:46-62 | admitted exactly while fewer than the limit were counted in the key's bucket, which counts for nothing a minute after its start, when the request starts the next; only that bucket changes |
| RateLimiter.KeysDoNotCollide | internal/api/ratelimit.go:50 | a bucket key determines both caller and scope, as scopes hold no bar |
| RateLimiter.ScopesHaveNoBar | internal/api/auth.go:22-50 | no scope the program knows contains a bar |
| RateLimiter.RateBound | internal/api/ratelimit.go:46-62 | over any run with a constant limit each window admits at most the limit and any minute at all at most twice the limit |
| RateLimiter.RefusalMeaning | internal/api/ratelimit.go:46-62 | over any run a request is refused if and only if the limit was already admitted at or after the request that opened its window, where windows are told from the key's request times alone: the first opens one, and so does each a minute or more after the last opener, refused or not |
| RateLimiter.TwoWindows | internal/api/ratelimit.go:46-62 | the admissions of any minute come from at most two windows |
| Retention.ClassesPartition | internal/dao/postgres/composite.go:75-86 | every profile is in exactly one retention class |
| Retention.ExpiredMeans | internal/dao/postgres/composite.go:75-86 | a direct profile, or a cached one that a credential names, is expired when last updated before the cutoff; a cached one that none names when created before it |
| Retention.DeletionTakes | internal/dao/postgres/composite.go:106-128 | deleted profiles are gone with every credential that names them, the rest stay as they were, and the log gains one row for each |
| Retention.DeletedTwice | internal/dao/postgres/composite.go:106-128 | deleting in two batches is deleting once, in tables and log |
| Retention.SurvivorsKeepClass | internal/dao/postgres/composite.go:75-86 | deleting profiles, credentials cascading, moves no other profile to another class |
| Retention.OtherClassUntouched | internal/dao/postgres/composite.go:106-128 | sweeping one class leaves every other class's expired rows alone |
| Retention.DrainedMeansNoneExpired | internal/dao/postgres/composite.go:150-155 | a batch that reports itself drained left no expired row of its class, and an oldest survivor not older than the cutoff |
| Retention.FewerDeleted | internal/dao/postgres/composite.go:106-155 | a call never deletes more rows than it examined, whatever others do meanwhile |
| Retention.RecheckedRow | internal/dao/postgres/composite.go:113-121 | a row the re-check lets go is past the cutoff as it then is, and still of its class exactly if no credential of it came or went within the statement, or the class asks for none |
| Retention.OrphanGoesDespiteCredential | internal/dao/postgres/composite.go:113-121 | a concrete batch in which an orphan that gains a credential within the statement is deleted, and the credential with it |
| Repositories.Limit | internal/dao/postgres/composite.go:111 | LIMIT without an order: any rows, each once, as many as there are up to the limit |
| Repositories.PostgresRepository.DeleteExpired | internal/dao/postgres/composite.go:91-162 | a successful call finds rows as they are at its start and deletes and logs those that pass the re-check: each row as other transactions have made it since, the credentials as at the start; a call that fails, before, during or after its deletions, leaves only what the others did |
| Repositories.PostgresRepository.Recheck | internal/dao/postgres/composite.go:117-122 | of the rows found, exactly those that meet the condition as re-read, each once |
| Repositories.SqliteRepository.DeleteExpired | internal/dao/sqlite/composite.go:91-183 | the select-then-delete loop over text timestamps deletes and logs exactly the rows selected; a failure before, between or after the deletions, or on a malformed survivor, rolls every one of them back |
| Repositories.SqliteBatch | internal/dao/sqlite/composite.go:91-183 | over the moments the texts stand for, that is one batch of the specification, with the cutoff cut to its second |
| Repositories.SqliteDeletesTruly | internal/dao/sqlite/composite.go:91-183 | every row deleted was truly of the class and truly older than the cutoff, and a short batch leaves only rows that share the cutoff's second |
| Repositories.SqliteRepository.DeleteEach | internal/dao/sqlite/composite.go:125-157 | every selected id still qualifies when its turn comes, so unless the connection is lost on the way the loop deletes and logs them all |
| Repositories.SqliteRepository.DeleteIfSelected | internal/dao/sqlite/composite.go:139 | a row goes only while it still meets the condition, its credentials with it |
| Repositories.SqliteRepository.Oldest | internal/dao/sqlite/composite.go:159-169 | the least clock text, read back, is the earliest clock of the class |
| Repositories.SecondTextOrder | internal/dao/sqlite/profiles.go:21 | comparing stored texts compares the moments they stand for |
| Repositories.StillSelected | internal/dao/sqlite/composite.go:125-157 | deleting some rows takes nothing from another's condition |
| Repositories.NeverDeletedEarly | internal/dao/sqlite/composite.go:106-110 | SQLite's selection is exactly the rows of the class whose true time is older than the cutoff and does not share its second |
| Sweep.DeleteExpired | internal/sweep/sweep.go:77-80 | either backend as one batch amid other writers; one that fails leaves only their work |
| Sweep.BatchAdds | internal/sweep/sweep.go:224-262 | one more batch adds its rows to those deleted so far, and a drained one completes them |
| Sweep.NextTurn | internal/sweep/sweep.go:217-262 | one turn of the loop: trouble ends it, a short batch drains the class, a full one goes on, with fewer expired rows left once no one else is about |
| Sweep.Drain | internal/sweep/sweep.go:217-262 | the batch loop ends for every choice of rows, every batch size and any writers at work on its first batches; it stops early only because trouble met the next batch; nothing but those writers and its own batches touched the tables; and its counts are the sums over those batches |
| Sweep.TraceIsTrue | internal/sweep/sweep.go:217-262 | whatever others write before and within its batches, every row a batch logs was in the tables at that moment, truly past the cutoff, of its class by that row and the credentials its statement saw, and is gone after it |
| Sweep.LoggedInClass | internal/sweep/sweep.go:217-262 | and of its class by every credential there then was, unless one of its own came or went within the statement |
| Sweep.QuietSweep | internal/sweep/sweep.go:217-262 | with no one else about, a drained sweep deleted exactly the expired rows in floor(n / size) + 1 batches, and a stopped one took only full batches |
| SweepRun.RunClass | internal/sweep/sweep.go:196-263 | counts are those of the batches even when it fails midway; every row logged was truly expired; a metric is published exactly from a drained result, with its oldest survivor; and the run table gains at most the class's own row, begun, and finished exactly from a drained result whose writes went through |
| SweepRun.BeginRun | internal/sweep/sweep.go:202-214 | the first write: an unfinished row under a fresh id, or no row and no harm |
| SweepRun.EndRun | internal/sweep/sweep.go:237-257 | the second: the row of a drained class completed with its counts and survivor, or left alone |
| SweepRun.FullSweepProfiles | internal/sweep/sweep.go:180-194 | three class sweeps leave exactly the profiles not past their time, unchanged: a direct or referenced one by its last update, an orphan by its creation |
| SweepRun.FullSweepEntries | internal/sweep/sweep.go:180-194 | every removed profile has a log row under its own class, and every log row is of one |
| SweepRun.FullSweepCredentials | internal/sweep/sweep.go:180-194 | a credential stays exactly if the profile it names does |
| SweepRun.EntriesDistinct | internal/sweep/sweep.go:180-194 | no profile is logged twice |
| SweepRun.FullSweepCount | internal/sweep/sweep.go:180-194 | the rows deleted add up to the profiles removed |
| SweepRun.PartSweepSpares | internal/sweep/sweep.go:180-194 | a sweep cut short anywhere has spared every profile not past its own class's cutoff |
| SweepRun.Prune | internal/sweep/sweep.go:186-193 | the rows of the run table that started 30 days ago or more are gone, exactly those of the ones there before, unless the pruning is lost; the answers for the classes just swept stay |
| Sweep.QuietProgress | internal/sweep/sweep.go:217-262 | with no one else about, n full batches have deleted n times the batch size of the rows expired at the start, each once |
| SweepRun.QuietRun | internal/sweep/sweep.go:180-194 | with no one else about, a run spares every profile not past its own class's cutoff, takes floor(n / size) + 1 batches for each class it drains, and if it drains all leaves exactly the unexpired profiles with one log row for each of the others |
| SweepRun.Run | internal/sweep/sweep.go:180-194 | whatever others write meanwhile and whatever befalls the other classes: each class that meets no trouble is swept, every row logged was truly past its cutoff when deleted, counts and metrics are those of each class's own batches and end; with no one else about, exactly the profiles not past their time remain, with their credentials; the run table loses exactly its rows of 30 days ago and more, unless the pruning is lost; and it then answers for every drained class whose writes went through, and whose run is its newest, with exactly that sweep's counts, finish and survivor |
| SweepRun.BooksKeptMore | internal/sweep/sweep.go:180-194 | sweeping one more class keeps every earlier one's row the newest of its class, and no other row of the table |
| Timestamps.EncodeOrder | internal/sweepstore/sweepstore.go:61 | text order of the fixed-width layout is time order, for all times in years 0000 to 9999 |
| Timestamps.NextSecondIsASecond | internal/sweepstore/sweepstore.go:168-175 | the civil clock one second on, carrying through minute, hour, day, month and year by the Gregorian calendar, is 1,000,000,000 nanoseconds on |
| Timestamps.NextDayIsADay | internal/sweepstore/sweepstore.go:168-175 | the same time of the next civil day is 24 hours on, at every month's end and in every leap year |
| Timestamps.InstantCounts | internal/sweepstore/sweepstore.go:168-175 | every moment is told by counting: a clock started at 0000-01-01T00:00:00, which is 0, shows it after exactly that many seconds |
| Timestamps.DaysBeforeYearExact | internal/sweepstore/sweepstore.go:168-175 | the days before a year are 365 for each and one more for each leap year, in closed form |
| Timestamps.EncodeSecondOrder | internal/dao/sqlite/profiles.go:21 | text order of the whole-second layout is the order of whole seconds |
| Timestamps.TruncationNeverEarly | internal/dao/sqlite/composite.go:106 | cutting times to seconds makes none look older than a cutoff it has not passed |
| Timestamps.ParseEncode | internal/sweepstore/sweepstore.go:137-142 | a written time reads back as its moment, to the nanosecond |
| Timestamps.ZonesAreRead | internal/sweepstore/sweepstore.go:137-142 | a local time written in any zone the reader takes reads as the moment it stands for |
| Timestamps.ZoneRead | internal/sweepstore/sweepstore.go:137-142 | every offset of up to 24 hours and 60 minutes, east or west, is read as that distance from UTC |
| Timestamps.ParseEncodeSecond | internal/dao/sqlite/profiles.go:21 | a whole-second text reads back as the moment without its fraction |
| SweepStore.KeptOrder | internal/sweepstore/sweepstore.go:137-142 | what a column keeps of a time never moves it later or swaps two times |
| SweepStore.OrderByStart | internal/sweepstore/sweepstore.go:287-290 | every row once, latest start first, on either backend |
| SweepStore.StartsBeforeIsEarlier | internal/sweepstore/sweepstore.go:287-290 | the engine's comparison of starts, by value or by text, is time order |
| SweepStore.Take | internal/sweepstore/sweepstore.go:334-370 | one row taken into its class: the latest-run fields if it is the first of its class, the survivor if it is the first drained one |
| SweepStore.Fold | internal/sweepstore/sweepstore.go:296-381 | the single pass fails if and only if some row it has to read is no time to Go's reader, and otherwise holds for each class its first row's fields and first drained row's survivor |
| SweepStore.FoldedDescribes | internal/sweepstore/sweepstore.go:286-381 | what the pass holds is the declarative answer: the fields of the run that started last, the survivor of the drained run that started last |
| SweepStore.Store.LatestSnapshots | internal/sweepstore/sweepstore.go:286-381 | one snapshot for exactly the classes that have a run, each the declarative answer; a table the store wrote never fails to parse |
| SweepStore.Store.LastFinishedAt | internal/sweepstore/sweepstore.go:227-244 | the greatest finish time of the class, none if no run of it finished |
| SweepStore.MissedMeaning | internal/sweepstore/sweepstore.go:168-175 | m runs were missed exactly when the gap spans m + 1 whole intervals and no more; under two intervals, none |
| SweepStore.DailySlots | internal/sweepstore/sweepstore.go:168-175 | a daily sweep last finished k days ago on the calendar, at the same time to the nanosecond, has missed k - 1 slots: after one day none |
| SweepStore.Sub | internal/sweepstore/sweepstore.go:169 | Go's difference of two times: exact where 64 bits hold it, the nearest they hold otherwise |
| SweepStore.Store.StartRun | internal/sweepstore/sweepstore.go:162-186 | a new unfinished row that says nothing yet but its class, its start as the backend keeps it and the slots missed: none if the class never finished, the schedule is unknown or under two intervals have passed, and m if the gap since its last finish spans m + 1 whole intervals; it fails only for a lost connection, a taken id or an unknown class, and then changes nothing; the table's own check stays met |
| SweepStore.Store.FinishRun | internal/sweepstore/sweepstore.go:194-212 | the row of the run, if there is one, is completed with the finish and survivor as the backend keeps them and the counts given; a survivor without drained is refused; the table's own check stays met |
| SweepStore.Store.PruneOlderThan | internal/sweepstore/sweepstore.go:219-225 | exactly the rows that started before the cutoff, as the backend keeps both, are gone; the table's own check stays met |
| SweepStore.NeverPrunedEarly | internal/sweepstore/sweepstore.go:219-225 | no row started at or after the cutoff is pruned, and one a microsecond or more before it is |
| SweepStore.NewestRunShows | internal/sweepstore/sweepstore.go:162-212 | a run that starts after all others of its class takes over the latest fields, finished or not; the survivor follows it only if it drained |
| SweepStore.NewestDrainedShows | internal/sweepstore/sweepstore.go:286-381 | a class whose newest run drained is answered with that run's fields and survivor |
| SweepStore.PruneKeepsSnapshot | internal/sweepstore/sweepstore.go:219-225 | pruning leaves a class's snapshot alone while a drained run of it is young enough to stay |
| Like.EscapedPrefix | internal/dao/sqlite/like.go:9-12 | an escaped literal matches itself and hands the rest of the text to the rest of the pattern |
| Like.ContainsMeansOccurs | internal/dao/postgres/like.go:9-12 | a text matches the pattern built from s if and only if s occurs in it, for all strings |
| Like.LowerEscape | internal/dao/sqlite/profiles.go:67-70 | ASCII case folding commutes with escaping |
| Like.NameFilter | internal/dao/sqlite/profiles.go:67-70 | the name condition is substring search up to ASCII case |
| Like.ContainsNeverDangling | internal/dao/postgres/like.go:9-12 | no pattern sent ends in a lone escape |
| ProfileSearch.BuildWhere | internal/dao/sqlite/profiles.go:65-86 | the conjuncts built select exactly the profiles the filters ask for |
| ProfileSearch.OrderedSorts | internal/dao/sqlite/profiles.go:95-96 | the listing is sorted by folded name then id, each selected row once and nothing else |
| ProfileSearch.OrderIndependent | internal/dao/sqlite/profiles.go:95-96 | the listing does not depend on the order the rows are stored in |
| ProfileSearch.Search | internal/dao/sqlite/profiles.go:60-117 | the page at the offset of the ordered listing and the total, or a refusal of an invalid query |
| ProfileSearch.Page | internal/dao/sqlite/profiles.go:93-96 | LIMIT and OFFSET over the ordered rows |
| Text.PaddedOrder | internal/sweepstore/sweepstore.go:61 | equal-width decimals compare as their numbers |
| Text.BeforeMeaning | internal/dao/sqlite/profiles.go:95-96 | the text order is the lexicographic one: a proper prefix, or the smaller character where two texts first differ |
| Text.SplitJoin | internal/api/clientstore.go:108-112 | splitting at a separator undoes joining parts that do not contain it |
| Text.DecimalValue | internal/api/cursor.go:23-25 | a number's decimal text reads back as the number |
| Base64.DecodeEncode | internal/api/cursor.go:23-36 | unpadded base64 inverts, in both alphabets, for every byte string |
| Base64.KnownTexts | internal/api/cursor.go:23-25 | the vectors of RFC 4648, section 10, without padding, and the symbols the two alphabets differ in |
| Base64.EncodePlain | internal/api/clientstore.go:83-89 | the alphabet holds none of the separators of the texts built from it |
| Cursor.CursorRoundTrip | internal/api/cursor.go:23-49 | a cursor leads back to its offset if and only if the offset fits Go's int |
| Cursor.SecondPage | internal/api/cursor.go:23-25 | the cursor to offset 20 is the text djE6MjA |
| Pagination.NextAdvances | internal/api/handlers.go:234-236 | every next cursor leads strictly further into the listing, so following cursors ends |
| Pagination.PageAnswers | internal/api/handlers.go:130-220 | a search answers exactly when a filter is given and none is malformed, its cursor decodes to an offset within 10,000 and its page is at most 50 |
| Pagination.PageHolds | internal/api/handlers.go:206-237 | a page is the records ranked from its offset on, as many as asked for, 20 by default, with the number of all of them and a cursor to the next offset if there are more |
| Pagination.FiltersRefused | internal/dao/validate_query.go:11-27 | a filter of white space alone is malformed, and so is a country of other than two characters |
| Pagination.WalkFrom | internal/api/handlers.go:206-236 | the walk from any page boundary delivers the rest of the listing, or the refusal of a later offset |
| Pagination.LastOffsetIs | internal/api/handlers.go:234-236 | the last page starts at the greatest multiple of the page size below the total |
| Pagination.WalkDeliversAll | internal/api/handlers.go:206-236 | from the empty cursor the walk delivers exactly the rows every filter given picks out, by name whatever the case and then by id and each once, if and only if its last page of the size asked for, 20 by default, starts within 10,000; otherwise it ends in a refusal of a cursor the handler issued |
| Pagination.WalkCutShort | internal/api/handlers.go:206-236 | the refusal occurs: with more matching rows than the offset limit and a page, 10,100 in pages of 50 for one, the walk ends in it |
| Phc.FieldsBack | internal/api/clientstore.go:83-112 | the six fields of a written hash come back from splitting it |
| Phc.ParamBack | internal/api/clientstore.go:169-188 | a written parameter reads back exactly when it fits 32 bits without a sign |
| Phc.ParseEncodePHC | internal/api/clientstore.go:108-167 | what reading back a written hash gives, for any costs, salt and hash |
| Phc.RoundTrip | internal/api/clientstore.go:83-167 | all five values come back if and only if memory and time fit 32 bits and threads fits 8 |
| Phc.RehashWhenCostsDiffer | internal/api/clientstore.go:214-220 | a written hash is due for rehashing exactly when its costs, threads modulo 256, are not the current ones |
| Onboarding.TokenSource.Token | internal/onboarding/token.go:154-178 | a token from the cache has over 30 seconds left, any other was asked for in this call; none was stored before a moment the cache held nothing older than; what is returned is what is cached, with its expiry; and with no other request about, the cached token is used exactly while it has over 30 seconds left and the issuer's reply is cached otherwise |
| Onboarding.TokenSource.Invalidate | internal/onboarding/token.go:182-186 | the cache holds nothing older than now |
| Onboarding.Service.CallAuth | internal/onboarding/onboarding.go:143-172 | calls with one own token until one gets through, three have broken, or the deadline ends the back-offs, and no fewer than that; the last reply decides |
| Onboarding.Service.CallIdentity | internal/onboarding/onboarding.go:174-198 | likewise, always with the vendor token it was given |
| Onboarding.Service.AttemptVerifyIdentity | internal/onboarding/onboarding.go:127-141 | one attempt: own token, then Auth, then Identity with the vendor token that Auth returned |
| Onboarding.Service.VerifyIdentity | internal/onboarding/onboarding.go:109-125 | one attempt, and after a rejection one more whose own token was stored after the rejection whatever other requests do, and asked for after it when there are none |
| Onboarding.VerificationBudget | internal/onboarding/onboarding.go:88-125 | at most two token acquisitions, six Auth and six Identity calls, whatever the connector answers |
| Onboarding.SuccessUsesItsOwnVendorToken | internal/onboarding/onboarding.go:127-141 | a verified identity answers a call made with the vendor token the same attempt's Auth gave for the same own token |
| Onboarding.RejectedMeansTwice | internal/onboarding/onboarding.go:109-141 | rejected is reported exactly when two attempts were made and the last call of each came back with a 401, and there is a second attempt exactly when the first ended so |

## Left out

- SerialFetchBudget: 70 fetches in 30 seconds is proved for calls run one at a time; calls that overlap can each decide to refresh before any marks its attempt, and no such bound holds of them (`JwksRuns.OverlapHasNoBudget`).
- RateBound: assumes the limit passed for a key does not change during the run, as in the handlers.
- BlockOnlyExtends: assumes settings whose delays are exact (`Backoff.AllDelaysExact`), which the deployed ones are; a delay that wraps can be shorter than the one before.
- Drain: other writers are at work on any finite number of its first batches, which is every sweep that ends; writers that add expired rows for ever keep the source's loop going for ever.
- SweepRun.Run: other writers, like the repository, store times of the years 0000 to 9999, on SQLite in its layout; no one else writes to the run table during a sweep; a malformed oldest survivor, on which the repository fails and rolls back, is covered by `Repositories.SqliteRepository.DeleteExpired`.
- PostgresRepository.DeleteExpired: the isolation is Postgres's READ COMMITTED as documented, a re-check reading the row anew and its EXISTS from the statement's snapshot; CockroachDB's retry of serialization failures is not modelled, and the statement's failure is one failure.
- SharedCounter: the TouchCounter interface may fail, the in-process counter never does, and only the latter is modelled.
- StartRun: the run id is a parameter, refused if it is taken; times are those of years 0000 to 9999.
- The handlers' calls to the rate limiter, the policy and the database: what these answer is a parameter.
- Calendar arithmetic of the cutoffs (cutoffFor): they are given.
- Map entries the source shares by reference are values here, so aliasing of one entry under two keys cannot be expressed; the source never does it.
- Durations and time differences are unbounded integers, except where wrap or saturation matters: the shifted delays, Lifetime, and the differences in the run table.
- Strings are sequences of characters: case folding is ASCII, and a length is a number of characters.
- hashIdentity is taken as the key itself, and fetched key sets as opaque maps from kid to key.
- HMAC, RSA, Argon2id, JWT, HTTP, JSON, logging, Prometheus output, configuration and migrations: library code and glue.
- Timeouts, back-off sleeps, jitter and the wait of the retry loop: a call simply may fail, and a retry loop may stop early.
- SQL engines and drivers: tables are maps, foreign keys cascade as declared, and the translation of driver errors is one failure.
- The other repository operations (create, update, upsert, delete by id, credentials, methods), the client store's database access and the HTTP connector client: they would add only easy members.
- The timestamp of an audit event, and the logging behind it.
