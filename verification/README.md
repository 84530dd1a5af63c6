# Verified models of AllureDeck's state machines and folds

AllureDeck is a server that stores Allure test reports. Its API process keeps a good deal of
state in memory, shared by concurrent requests, and folds flat database rows into reports. This
Dafny project models those parts and proves what they promise, over every input, every run and
every interleaving:

* the auth-path cache of `is_active` flags with its inline singleflight (`CacheKeys`,
  `CacheEntries`, `CacheProtocol`, `UserActiveCache`, `CacheSteps`, `CacheStaleness`,
  `CacheLingering`, `CacheInvalidation`, `CacheStaleReads`, `CacheTransparency`);
* the three limiters: token bucket per IP (`IPRateLimit`, `IPRateCleanup`, `IPRateShortTtl`), failure
  throttle per account and the logins under it (`AccountThrottle`, `ThrottleHistory`,
  `LoginThrottle`), LRU of buckets per identity (`LruLimiters`);
* the aggregation of CI pipeline runs and the counting of failure origins (`PipelineRuns`,
  `PipelineLaws`, `PipelineFields`, `RunOrigins`);
* the in-process job manager (`JobManager`, `JobOutcomes`) and refresh-token rotation (`RefreshRotation`,
  `RefreshRaces`);
* the failing-step search (`FailedSteps`), the summary cache and its key (`SummaryService`,
  `InputKey`, `EvidenceCollisions`), and the storage orphan sweep (`OrphanSweep`,
  `OrphanReports`).

`Options`, `Windows`, `Decimal` and `Grouping` hold shared vocabulary. `dafny verify
dfyconfig.toml` checks everything.

## How the model is built

Objects that the program updates in place are classes whose methods are proved against
specification functions; loops keep their loops. Where a method of the program is several
critical sections, the class has one method per critical section, and a step system interleaves
these steps freely with clock ticks, store updates and failures; the methods of `UserActiveCache`
and `MemJobManager` are proved to do to the object what the steps do to the shared state. A run is a
list of steps, and theorems quantify over runs. The clock, the stores' answers, the language
model's replies, new token identifiers and all failures are inputs. Time and bucket levels are
`real` or unbounded integers; pass rates are integer tenths of a percent, as the program computes
them before it divides by ten.

## What turned out different from what one might expect

* **Staleness.** Every answer of the cache is what an uncached lookup said at some step of the run,
  and a hit is younger than the TTL plus the load's read-to-publish delay. For a lookup that joins
  a flight this can fail: the leader publishes, signals its waiters and deletes its flight in
  three separate steps (user_active_cache.go:298, 262 and 264-266), and a caller that arrives in
  between, once the entry is gone, gets the old result however long the leader is descheduled.
  `StaleJoinIffLingering` shows that the bound fails exactly for flights that were published more
  than the TTL before they are joined; `CacheLingering` has a run of any delay for each of the two gaps.
* **Throttle.** The tight bound on admitted failures per window is 2L-3 for a threshold L of at least 2,
  one less than two windows' worth of L-1; `WindowBoundAttained` gives a run that reaches it.
* **Account lock.** A login probes the throttler, sleeps up to a minute, compares passwords and only then
  records its outcome (auth.go:111-223), with nothing held in between. So a lock set meanwhile does not
  always last: an attempt let through before it lifts it by succeeding, or by failing after the
  window is over. `LockSurvivesIff` shows that nothing else does, `ProductionLockIsLifted` that the
  server's own policy and delays allow it.
* **Rate limiter cleanup** is invisible exactly when rate * ttl >= burst; below that a sweep hands out
  a full burst too early, and a denied call, which keeps its bucket from being dropped, can be seen.
* **Shared summaries.** Concurrent requests for one build and history share a generation even when their
  evidence differs, so a request may be served a summary made for other evidence; `OwnHashIff`
  says exactly when it is its own.
* **Jobs.** A job cancelled while it is queued is still run (`CancelledWhilePendingStillRuns`), although
  Cancel reported success. `TerminalLeftOnlyByStart` shows that this is the only way out of a
  terminal status.
* **Invalidation.** Invalidate is not always final: a load that read before it and is still in progress can
  hand the old value to callers that come later. `OldAnswerPossibleIff` shows that this is possible
  exactly when there is such a load.
* **Late refresh.** A refresh decides on the family row it read, and its rotation does not look at the
  status again (refresh_token_families.go:106-112). So a request that overlaps a logout, or the detection
  of token theft, still mints a token; `LateMintIff` says exactly when. That token cannot be refreshed.
* **Token reuse.** A replayed refresh token closes its family if and only if the store can record the
  compromise; a failing `MarkCompromised` is only logged and leaves the session usable.
* **Key material.** The NUL-terminated fields given to `inputHash` determine them when no field holds a NUL, and
  *any* fields that do hold one share their bytes with different fields. Of what the service
  assembles only attachment bytes can hold a NUL; `CollidesIff` says exactly which such evidence
  shares its key with other evidence the service could assemble.
* The comment on `UserActiveCache` says ID and email lookups share one entry keyed by the user ID.
  The code keys OIDC tokens by email and a numeric sub by its text, which may be a non-canonical
  spelling of the ID ("007"); the model follows the code.

## Model

| member | source | states |
|---|---|---|
| CacheKeys.RenderInjective | api/internal/middleware/user_active_cache.go:135-141 | Numeric, `oidc:` and `env:` keys never share a text: equal map keys mean the same namespace and the same subject |
| CacheKeys.MadeKeysWellFormed | api/internal/middleware/user_active_cache.go:135-141 | Keys built by oidcKey, envUserKey and FormatInt are in their namespace |
| CacheKeys.KeyTexts | api/internal/middleware/user_active_cache.go:135-141 | Entries are stored under the decimal ID, "env:" and the name, and "oidc:" and the email in small letters |
| CacheKeys.EmailsIgnoreCase | api/internal/middleware/user_active_cache.go:135-137 | Two emails are one exactly when, character by character, they are equal or the two cases of one ASCII letter |
| CacheKeys.SmallLettersAreKept | api/internal/middleware/user_active_cache.go:135-137 | The form kept is the one in small letters |
| Decimal.ParseFormat | api/internal/middleware/user_active_cache.go:198-198 | The text under which a resolved API key stores its entry reads back as the user's ID, for every 64-bit ID |
| Decimal.ParseOneMoreDigit | api/internal/middleware/user_active_cache.go:115-115 | Reading one more digit counts ten times what came before, after either sign, as long as 64 bits hold it |
| Decimal.ParseDigit | api/internal/middleware/user_active_cache.go:115-115 | A digit reads as itself, alone or after a sign |
| Decimal.TextOfNumber | api/internal/middleware/user_active_cache.go:198-198 | A number is written digit by digit, the last one last, after a minus if negative |
| UserActiveCache.UserActiveCache.constructor | api/internal/middleware/user_active_cache.go:81-103 | Non-positive TTL and cap fall back to 2 s and 10,000, empty env-user names are dropped, and the object starts where every run of the protocol starts |
| UserActiveCache.UserActiveCache.Cached | api/internal/middleware/user_active_cache.go:272-281 | A flag is returned exactly when an entry exists and has not expired at the sampled instant; the call then answers with it, as the protocol's Check step does, or goes on to load |
| UserActiveCache.UserActiveCache.StoreEntry | api/internal/middleware/user_active_cache.go:304-330 | Inserts or replaces; past the cap removes one entry of smallest expiry, possibly the new one; the cap is kept |
| UserActiveCache.UserActiveCache.Publish | api/internal/middleware/user_active_cache.go:298-330 | Storing what a load came to takes the object to the state after the protocol's Publish step, with the victim the scan found |
| UserActiveCache.UserActiveCache.Load | api/internal/middleware/user_active_cache.go:289-300 | A found user, an unknown one (cached as inactive) and an error (nothing stored) give the leader the answer of the table it read, and the protocol's Publish step |
| UserActiveCache.UserActiveCache.FinishResolve | api/internal/middleware/user_active_cache.go:186-199 | A row is cached under its ID, an env user without one under its name, an unknown owner or an error not at all; the identity returned is the uncached one of the table read |
| UserActiveCache.UserActiveCache.ScanOldest | api/internal/middleware/user_active_cache.go:316-327 | The scan finds an entry no other entry expires before, whatever the map's iteration order |
| CacheEntries.StoredKeepsCap | api/internal/middleware/user_active_cache.go:313-329 | One eviction per insertion is enough: a map within the cap stays within it |
| CacheEntries.StoringKeeps | api/internal/middleware/user_active_cache.go:304-330 | Storing changes no other entry, gives up at most one and only past the cap, and nothing that stays expires before it |
| CacheEntries.OldestExists | api/internal/middleware/user_active_cache.go:316-328 | A non-empty map always has a victim, so publishing never blocks |
| UserActiveCache.UserActiveCache.Invalidate | api/internal/middleware/user_active_cache.go:214-231 | Takes the object to the state after the protocol's Invalidate step |
| UserActiveCache.UserActiveCache.JoinOrLead | api/internal/middleware/user_active_cache.go:246-255 | Under one lock the caller becomes the leader of a new flight, with a record that is not done, or a waiter of the registered leader, exactly as the protocol's Join step says |
| UserActiveCache.UserActiveCache.Signal | api/internal/middleware/user_active_cache.go:261-262 | With the load's value or error in the record, the object is in the state after the protocol's Signal step: the flight has landed with that answer |
| UserActiveCache.UserActiveCache.Await | api/internal/middleware/user_active_cache.go:249-250 | What a released waiter reads from the record is the answer the protocol's Wake step gives it |
| UserActiveCache.UserActiveCache.DropFlight | api/internal/middleware/user_active_cache.go:264-268 | Takes the object to the state after the protocol's Drop step |
| UserActiveCache.OtherStepsShow | api/internal/middleware/user_active_cache.go:239-300 | The steps that are no method of the object (a request begins, the store is read or changes, time passes) leave it in step with the protocol |
| CacheProtocol.RunInv | api/internal/middleware/user_active_cache.go:174-330 | In every interleaving: flights and loads in progress correspond one to one, entries say what their load read, answers are right at their origin, the cap holds |
| CacheProtocol.OneLoadPerKey | api/internal/middleware/user_active_cache.go:245-266 | At most one lookup load per key is between registering and dropping its flight |
| CacheProtocol.WaiterAnswersLikeLeader | api/internal/middleware/user_active_cache.go:247-251 | Every waiter returns exactly its leader's value, or its leader's error |
| CacheProtocol.FailedLoadStoresNothing | api/internal/middleware/user_active_cache.go:289-300 | A failed load neither creates, changes nor evicts an entry |
| CacheProtocol.PublishKeepsEntries | api/internal/middleware/user_active_cache.go:186-200 | What either load path publishes agrees with the table it read, for all three key namespaces, also across an eviction |
| CacheProtocol.SharesStep | api/internal/middleware/user_active_cache.go:246-268 | Who waits shares the flight of its own key, whatever step comes next |
| CacheStaleness.OriginsReal | api/internal/middleware/user_active_cache.go:239-300 | Every value in flight, cached or returned was read from the store at a step of the run |
| CacheStaleness.AnswersReal | api/internal/middleware/user_active_cache.go:239-330 | Each answer is what an uncached lookup would have said at some earlier step of the run |
| CacheStaleness.BoundedStaleness | api/internal/middleware/user_active_cache.go:239-330 | A hit is younger than TTL plus its load's read-to-publish delay; a joiner's answer is no older than that if and only if the flight it found was not lingering |
| CacheStaleness.StaleJoinIffLingering | api/internal/middleware/user_active_cache.go:246-268 | A joiner's answer exceeds TTL plus read-to-publish exactly when, in the state in which it joined, the leader had published more than TTL before and had not yet signalled or not yet dropped the flight |
| CacheStaleness.PublishedSince | api/internal/middleware/user_active_cache.go:261-266 | A flight's publication instant never changes, and one still to come is no earlier than now |
| CacheStaleness.JoinsRecorded | api/internal/middleware/user_active_cache.go:246-251 | A waiter joined the flight that was registered for its key at that step and instant |
| CacheStaleness.HitIffFresh | api/internal/middleware/user_active_cache.go:271-281 | In every run a check answers at once exactly when an entry is there that was published less than TTL before the instant sampled, and then says what the table said at its read |
| CacheStaleness.EntryLost | api/internal/middleware/user_active_cache.go:214-330 | An entry goes only when its key is invalidated or another is stored into a full cache, and then none that stays was published before it |
| CacheLingering.UnsignalledFlightIsUnbounded | api/internal/middleware/user_active_cache.go:247-262 | For every delay, a run in which a lookup begun after an update and its Invalidate answers with a value that old, through a leader that had published but not signalled |
| CacheLingering.UndroppedFlightIsUnbounded | api/internal/middleware/user_active_cache.go:247-266 | The same through a leader that had signalled but not dropped its flight |
| CacheInvalidation.OldAnswersOnlyFromLoadsInProgress | api/internal/middleware/user_active_cache.go:210-231 | After Invalidate, a call begun later returns an older read only from a load of that very key, or an API-key resolution about to store under it, that read before and was still in progress at the Invalidate |
| CacheInvalidation.QuietInvalidateIsImmediate | api/internal/middleware/user_active_cache.go:210-231 | With no load that could store the key in progress, every later call answers from a table no older than the Invalidate |
| CacheStaleReads.OldAnswerPossibleIff | api/internal/middleware/user_active_cache.go:174-330 | From every reachable state, a call begun after Invalidate can still answer from an earlier read if and only if some load of the key is in progress at the Invalidate |
| CacheStaleReads.OldAnswerNeedsLoad | api/internal/middleware/user_active_cache.go:210-231 | Without such a load no continuation has an old answer |
| CacheStaleReads.JoinAfterInvalidate | api/internal/middleware/user_active_cache.go:245-268 | A lookup that has read and not yet dropped its flight hands its value to the next caller, whether it has published, signalled or neither |
| CacheStaleReads.HitAfterInvalidate | api/internal/middleware/user_active_cache.go:186-200 | An API-key resolution that has read publishes after the Invalidate, and the next call hits that entry |
| CacheStaleReads.OtherVictim | api/internal/middleware/user_active_cache.go:313-329 | A new entry need not be the one evicted: no entry expires later |
| CacheInvalidation.EntrySurvives | api/internal/middleware/user_active_cache.go:214-218 | An entry present after an Invalidate of its key was published after it |
| CacheInvalidation.WaitersHeld | api/internal/middleware/user_active_cache.go:246-251 | A waiter's value, if read before it joined, came from a load in progress when it joined |
| CacheInvalidation.HeldSince | api/internal/middleware/user_active_cache.go:257-268 | A load in progress has been in progress at every step since its read |
| CacheInvalidation.OwnReadsAreLater | api/internal/middleware/user_active_cache.go:257-261 | A call's own load reads the store after the call began |
| CacheTransparency.PlansUseWellFormedKeys | api/internal/middleware/user_active_cache.go:114-184 | Every request looks up a key of the right namespace, and only env users use env keys |
| CacheTransparency.TextsStandForKeys | api/internal/middleware/user_active_cache.go:44-47 | In every run, whatever is asked for, stored or in flight under one text is one key, so maps keyed by text behave like maps keyed by the structured key |
| CacheTransparency.CacheIsTransparent | api/internal/middleware/user_active_cache.go:174-330 | Against a store that neither changes nor fails every answer is the uncached one, and the map never exceeds its cap |
| CacheTransparency.RequestsAreUncached | api/internal/middleware/user_active_cache.go:114-200 | IsActive, IsActiveForToken and ResolveAPIKeyUsername through the cache equal the direct lookup, env users and unknown owners included |
| CacheTransparency.TokenFindsRow | api/internal/middleware/user_active_cache.go:128-137 | An OIDC token's user is active exactly when the row stored under the email in small letters is, however the token spells it |
| CacheTransparency.AnswersIgnoreCase | api/internal/middleware/user_active_cache.go:114-200 | Names that differ in case only get equal answers, for tokens and, unless one names an env user, for API keys |
| CacheTransparency.CacheIgnoresCase | api/internal/middleware/user_active_cache.go:114-330 | The same through the cache, in every run against a steady store |
| IPRateLimit.IPRateLimiter.constructor | api/internal/middleware/ratelimit.go:29-37 | Starts with no buckets |
| IPRateLimit.IPRateLimiter.Allow | api/internal/middleware/ratelimit.go:41-69 | Refill, cap and spend: admits iff the bucket is new or holds a token after refilling; only this IP's bucket changes |
| IPRateLimit.IPRateLimiter.Cleanup | api/internal/middleware/ratelimit.go:72-82 | Removes exactly the buckets not seen within the TTL |
| IPRateLimit.RunTracks | api/internal/middleware/ratelimit.go:41-69 | Along every run a bucket's level is the smallest slack over all windows that start at an earlier admission |
| IPRateLimit.ExactAdmission | api/internal/middleware/ratelimit.go:41-69 | A call at t is admitted iff for every earlier admission s the admissions in [s,t], this one included, are at most burst + rate*(t-s) |
| IPRateLimit.AdmissionsPairwiseLegal | api/internal/middleware/ratelimit.go:41-69 | Any two admissions and all between them fit the budget of the time between them |
| IPRateLimit.IntervalBound | api/internal/middleware/ratelimit.go:41-69 | Every closed interval [a,b] of every run admits at most burst + rate*(b-a) |
| IPRateCleanup.LevelAfterAllow | api/internal/middleware/ratelimit.go:55-68 | What a later request finds after a call depends only on what this call found, so a new bucket and a full one are the same |
| IPRateCleanup.SameLevelsSameAnswers | api/internal/middleware/ratelimit.go:41-69 | Limiter states with equal levels give equal answers for ever |
| IPRateCleanup.DeniedCallsAreInvisible | api/internal/middleware/ratelimit.go:55-65 | Striking a denied call from a run changes no other answer, as long as no Cleanup follows (a denied call still refreshes lastSeen) |
| IPRateCleanup.DeniedCallsAreInvisibleUnderSweeps | api/internal/middleware/ratelimit.go:41-82 | With rate*ttl >= burst the same holds with Cleanup anywhere before and after |
| IPRateCleanup.CleanupUnobservable | api/internal/middleware/ratelimit.go:71-82 | With rate*ttl >= burst >= 1, Cleanup calls anywhere in a run change no answer |
| IPRateCleanup.LimitsHoldUnderSweeps | api/internal/middleware/ratelimit.go:41-82 | Under the same condition the exact admission law and the interval bound hold with Cleanup freely interleaved |
| IPRateShortTtl.CleanupObservableBelow | api/internal/middleware/ratelimit.go:71-82 | For every non-negative configuration below that condition some run has an answer that Cleanup changes |
| IPRateShortTtl.DeniedCallObservableBelow | api/internal/middleware/ratelimit.go:41-82 | For every such configuration some run has a denied call whose removal changes a later answer, because it kept its bucket through a Cleanup |
| IPRateShortTtl.BurstAnswers | api/internal/middleware/ratelimit.go:55-68 | n calls at one instant are all admitted iff the bucket holds n tokens |
| AccountThrottle.AccountThrottler.constructor | api/internal/middleware/account_throttle.go:65-75 | Starts with no entries |
| AccountThrottle.AccountThrottler.Check | api/internal/middleware/account_throttle.go:96-132 | Changes nothing; refuses exactly while a lock is in the future, reports a clean state once the window is over |
| AccountThrottle.AccountThrottler.RecordFailure | api/internal/middleware/account_throttle.go:138-177 | Counts within the anchored window or starts afresh, locks at the threshold; empty usernames are ignored |
| AccountThrottle.AccountThrottler.RecordSuccess | api/internal/middleware/account_throttle.go:181-189 | Forgets the account's entry and no other |
| AccountThrottle.AccountThrottler.Cleanup | api/internal/middleware/account_throttle.go:193-208 | Removes exactly the entries whose lock is over and whose last failure is older than the window |
| AccountThrottle.BackoffMonotone | api/internal/middleware/account_throttle.go:227-242 | The delay grows with the failure count and never exceeds the cap |
| AccountThrottle.BackoffDoubles | api/internal/middleware/account_throttle.go:227-242 | No failure costs nothing, the first a second, each further one the double, up to the cap and up to the 31st |
| ThrottleHistory.FailureFollowsHistory | api/internal/middleware/account_throttle.go:138-177 | Over every run, sweeps included, the n-th failure of a streak is allowed with exactly the n-th delay while n is below the threshold, and locks for the lockout duration from there on |
| ThrottleHistory.CheckFollowsHistory | api/internal/middleware/account_throttle.go:96-132 | Over every run Check refuses until the lock of the streak ends, is clear without a streak or once its window is over, and otherwise returns the streak's delay and count |
| ThrottleHistory.CleanupFollowsHistory | api/internal/middleware/account_throttle.go:191-208 | A sweep keeps exactly the accounts whose lock is running or whose last failure is no older than the window, unchanged |
| ThrottleHistory.NobodyIsIgnored | api/internal/middleware/account_throttle.go:96-100 | The empty username is never counted or refused |
| ThrottleHistory.StreakCounts | api/internal/middleware/account_throttle.go:147-160 | n failures in a row from a clean state are a streak of n |
| AccountThrottle.CleanupUnobservable | api/internal/middleware/account_throttle.go:191-208 | For every policy, Cleanup calls anywhere in a run change no Check or RecordFailure result |
| AccountThrottle.AdmitsIsAllowed | api/internal/middleware/account_throttle.go:162-176 | The admission test of the window bound is RecordFailure's Allowed flag |
| AccountThrottle.RunChains | api/internal/middleware/account_throttle.go:147-170 | Along every run without success the admitted failures count up within a window or open a new one strictly after the old window is over |
| AccountThrottle.Spread | api/internal/middleware/account_throttle.go:147-170 | 2L-2 consecutive admitted failures never fit in one window length |
| AccountThrottle.WindowBound | api/internal/middleware/account_throttle.go:138-208 | Every closed interval of one window length holds at most 2L-3 admitted failures (L-1 for a window of no length, none for L <= 1), with Check and Cleanup freely interleaved |
| AccountThrottle.WindowBoundAttained | api/internal/middleware/account_throttle.go:138-177 | For every policy with L >= 2 and a window that is not negative, a run without success reaches that bound |
| LoginThrottle.RunFits | api/internal/middleware/account_throttle.go:162-170 | In every interleaving of logins a lock runs from the last recorded failure |
| LoginThrottle.LoginsAreCalls | api/internal/handlers/auth.go:110-224 | A run of logins is a run of Check, RecordFailure, RecordSuccess and Cleanup calls, so all laws of the throttler hold of it |
| LoginThrottle.ProbeFollowsCheck | api/internal/handlers/auth.go:110-136 | An attempt is let through exactly when Check allows it, to record no earlier than the delay Check returned |
| LoginThrottle.RefusesIffLocked | api/internal/middleware/account_throttle.go:111-119 | All probes before an instant are refused iff the entry is locked until then |
| LoginThrottle.LockedStep | api/internal/handlers/auth.go:110-224 | Under a lock, a step of any attempt or sweep lifts it exactly when an attempt let through before records a success, or a failure after the window with a threshold above 1 |
| LoginThrottle.LockSurvivesIff | api/internal/handlers/auth.go:110-224 | Over every interleaving of attempts (probe, delay, later record) and sweeps, a lock refuses all probes until its end iff no attempt let through before it records such an outcome meanwhile |
| LoginThrottle.PendingFailureLiftsLock | api/internal/handlers/auth.go:130-195 | For every policy with a threshold above 1, a run in which a failed login let through before the lock lifts it, the lock being active and its window over |
| LoginThrottle.PendingSuccessLiftsLock | api/internal/handlers/auth.go:130-224 | For every policy, a run in which a successful login let through before the lock lifts it |
| LoginThrottle.ProductionLockIsLifted | api/cmd/api/main.go:206-212 | With the server's policy and the delays it imposes, a lock due to last until 1785 s is gone at 941 s |
| AccountThrottle.FailureUnlocksIff | api/internal/middleware/account_throttle.go:147-170 | RecordFailure on a locked account lifts the lock iff the window is over and the threshold exceeds 1 |
| LruLimiters.RateLimiter.constructor | api/internal/mcp/ratelimit.go:78-90 | Starts with an empty map and list |
| LruLimiters.RateLimiter.GetLimiter | api/internal/mcp/ratelimit.go:160-184 | After each call the list is the recency list of all calls so far cut to the capacity, in bijection with the map; a held key gets its own bucket, another a new one |
| LruLimiters.AfterIsCutRecency | api/internal/mcp/ratelimit.go:160-184 | After any call sequence the list is the distinct keys by most recent use cut to the capacity, in bijection with the map |
| LruLimiters.RecentDistinct | api/internal/mcp/ratelimit.go:160-184 | The recency list holds every key ever used, once |
| LruLimiters.RecentByLastUse | api/internal/mcp/ratelimit.go:164-182 | Its order is that of the last use, latest first |
| LruLimiters.Position | api/internal/mcp/ratelimit.go:164-182 | A key stands behind exactly the distinct keys used since |
| LruLimiters.HeldIff | api/internal/mcp/ratelimit.go:169-177 | A key is still held iff fewer than capacity distinct other keys were used since |
| LruLimiters.HeldUnchanged | api/internal/mcp/ratelimit.go:164-182 | A key still held has the bucket it was given |
| LruLimiters.SameBucketIff | api/internal/mcp/ratelimit.go:160-184 | A key gets its earlier bucket back iff fewer than capacity distinct other keys were used in between, otherwise a newer one |
| LruLimiters.CostOf | api/internal/mcp/ratelimit.go:99-112 | An unnamed, unpriced or non-positively priced request costs 1, a price above a positive burst costs the burst, any other is charged as configured |
| PipelineRuns.RunKeyExact | api/internal/handlers/pipeline_handler.go:615-624 | Rows get one key exactly when they share the group and: their pipelines agree if both name one, their commits if neither does, the commit of one is the pipeline of the other if only one does |
| PipelineRuns.NewestIsHighest | api/internal/handlers/pipeline_handler.go:664-669 | A suite's BuildID and BuildNumber are those of the first row with the highest build number |
| PipelineRuns.AddToSuite | api/internal/handlers/pipeline_handler.go:651-669 | One more row turns the aggregate of a project's rows into that of one row more |
| PipelineRuns.AddToSuites | api/internal/handlers/pipeline_handler.go:651-656 | Suites stay in first-seen order, one per project, each the aggregate of exactly that project's rows |
| PipelineRuns.AddToRun | api/internal/handlers/pipeline_handler.go:626-669 | The run keeps its first row's names, the first non-empty CI URL and the latest time |
| PipelineRuns.AddRow | api/internal/handlers/pipeline_handler.go:612-670 | One more row reaches exactly the accumulator of its key |
| PipelineRuns.Accumulate | api/internal/handlers/pipeline_handler.go:609-670 | After the pass there is one accumulator per key, in first-seen order, holding the aggregate of exactly that key's rows |
| PipelineRuns.SortBuilds | api/internal/handlers/pipeline_handler.go:686-690 | Builds come out sorted by number, each as often as it went in |
| PipelineRuns.FinishSuite | api/internal/handlers/pipeline_handler.go:683-729 | A suite of the response is the naive aggregate of its rows with floored rate, status and sorted builds |
| PipelineRuns.TallySuite | api/internal/handlers/pipeline_handler.go:731-739 | The run's running totals are the sums over the suites so far |
| PipelineRuns.FinishRun | api/internal/handlers/pipeline_handler.go:673-751 | A run of the response is the aggregate of exactly its rows |
| PipelineRuns.GroupPipelineRuns | api/internal/handlers/pipeline_handler.go:597-755 | The one-pass result is one run per key in first-seen order, each equal to the naive aggregate of the rows with that key |
| PipelineFields.RunsPartition | api/internal/handlers/pipeline_handler.go:612-670 | Each run of the response is the aggregate of exactly the rows that belong with its first row by these fields; no two runs belong together; every row is in one |
| PipelineFields.PipelinesDecide | api/internal/handlers/pipeline_handler.go:615-624 | Rows with pipelines share a run iff group and pipeline agree, whatever their commits; without pipelines iff group and commit agree |
| PipelineFields.RunsInOrder | api/internal/handlers/pipeline_handler.go:638-642 | Runs are listed in the order in which their first rows occur |
| PipelineFields.SuitesPartition | api/internal/handlers/pipeline_handler.go:651-656 | A run has exactly one suite per project of its rows |
| PipelineFields.SuiteOnFields | api/internal/handlers/pipeline_handler.go:651-669 | A suite's counters are the sums of the columns of its project's rows, missing values adding nothing and broken counting as failed; its link is the first row with the highest build number |
| PipelineFields.SuiteShows | api/internal/handlers/pipeline_handler.go:686-713 | Rate, status and sorted builds of a suite follow from those counters and from whether some row has stats |
| PipelineFields.StatusExactly | api/internal/handlers/pipeline_handler.go:700-713 | The four statuses by exact inequalities on the counts |
| PipelineFields.RateIsFloor | api/internal/handlers/pipeline_handler.go:692-698 | The rate is the exact one rounded down to a tenth of a percent, 0 when nothing ran |
| PipelineFields.HeaderOnFields | api/internal/handlers/pipeline_handler.go:626-649 | A run's names are its first row's, its CI URL the first there is, its time the latest |
| PipelineFields.AggregateOnFields | api/internal/handlers/pipeline_handler.go:731-750 | The aggregate sums the columns of all rows of the run, counts its suites and the passed ones, and rates passed against total minus skipped |
| Grouping.ItemsConserved | api/internal/handlers/pipeline_handler.go:612-670 | Grouping by any key puts every row in exactly one group, as often as it occurs |
| PipelineLaws.RunConserves | api/internal/handlers/pipeline_handler.go:731-750 | A run's total, passed, skipped, failed and duration equal the sums over its rows, and its suites list each build as often as its rows do |
| PipelineLaws.ResponseConserves | api/internal/handlers/pipeline_handler.go:597-755 | The same over the whole response: no counter or build is lost or counted twice |
| PipelineLaws.SumsWellFormed | api/internal/handlers/pipeline_handler.go:658-663 | Merged shards of well-formed stats are well-formed |
| PipelineLaws.Floor | api/internal/handlers/pipeline_handler.go:692-698 | A floored rate reaches a line exactly when the exact ratio does |
| PipelineLaws.FullRateIffPassed | api/internal/handlers/pipeline_handler.go:692-713 | A suite shows 100.0 iff it is "passed", and never more |
| PipelineLaws.DegradedExactly | api/internal/handlers/pipeline_handler.go:704-713 | A suite is "degraded" iff 7*denom <= 10*passed < 10*denom, for any counts |
| PipelineLaws.RunRateBetween | api/internal/handlers/pipeline_handler.go:742-749 | A run's rate lies between the smallest and the largest rate of its suites where tests ran |
| RunOrigins.AddRow | api/internal/handlers/pipeline_handler.go:152-162 | Merging keeps, per test, the strongest origin of its copies and whether any copy is environment |
| RunOrigins.CountTests | api/internal/handlers/pipeline_handler.go:163-176 | Every merged test is counted in the counters of its class, whatever the map order |
| RunOrigins.CountRunOrigins | api/internal/handlers/pipeline_handler.go:134-178 | The counts are the sizes of the classes of distinct tests |
| RunOrigins.ClassOfMerged | api/internal/handlers/pipeline_handler.go:165-174 | The switch over a merged test finds its class |
| RunOrigins.CountsPartition | api/internal/handlers/pipeline_handler.go:127-178 | New + inherited + unknown is the number of distinct tests, and environment is part of inherited |
| RunOrigins.CountsIgnoreOrderAndCopies | api/internal/handlers/pipeline_handler.go:127-178 | Permuting rows or repeating any of them changes no count |
| RunOrigins.KeysTellTests | api/internal/handlers/pipeline_handler.go:155-155 | Rows are copies of one test iff project and full name agree, the test name standing in where the full name is empty |
| RunOrigins.ClassOnFields | api/internal/handlers/pipeline_handler.go:143-174 | A test is environment if any copy is, else inherited if any copy is, else new if any copy is, else unknown |
| JobManager.MemJobManager.constructor | api/internal/runner/mem_job_manager.go:26-34 | The object starts where every run of the protocol starts |
| JobManager.MemJobManager.Submit | api/internal/runner/mem_job_manager.go:57-70 | Registering a pending job takes the object to the state after the protocol's SubmitRegister step |
| JobManager.MemJobManager.Enqueue | api/internal/runner/mem_job_manager.go:72-73 | The channel send takes it to the state after SubmitEnqueue |
| JobManager.MemJobManager.AbortSubmit | api/internal/runner/mem_job_manager.go:74-79 | A submission whose context ends marks its job failed, as the SubmitAbort step does |
| JobManager.MemJobManager.SubmitCompleted | api/internal/runner/mem_job_manager.go:88-143 | The staged and Playwright submissions record a completed job, as the SubmitCompleted step does |
| JobManager.MemJobManager.SnapshotStatus | api/internal/runner/mem_job_manager.go:159-171 | Cancel's first section finds a listed job's status; the caller goes on to mark it exactly when that is not terminal |
| JobManager.MemJobManager.MarkCancelled | api/internal/runner/mem_job_manager.go:177-179 | Cancel's second section overwrites whatever status the job has by then, as the CancelWrite step does |
| JobManager.MemJobManager.Delete | api/internal/runner/mem_job_manager.go:198-211 | Removes a job iff it is listed and terminal, as the DeleteJob step does |
| JobManager.MemJobManager.Get | api/internal/runner/mem_job_manager.go:215-223 | Returns the record of a listed job |
| JobManager.MemJobManager.Receive | api/internal/runner/mem_job_manager.go:245-249 | A worker receives the oldest queued job and holds it, as the Take step does |
| JobManager.MemJobManager.BeginRun | api/internal/runner/mem_job_manager.go:256-262 | Registers the cancel function and sets the job running, unconditionally, as the StartRun step does |
| JobManager.MemJobManager.Report | api/internal/runner/mem_job_manager.go:266-275 | Progress touches the phase only, never the status, as the ReportProgress step does |
| JobManager.MemJobManager.EndRun | api/internal/runner/mem_job_manager.go:290-305 | A cancelled job stays cancelled, another becomes failed or completed, and the cancel function is dropped, as the FinishRun step does |
| JobManager.RunInv | api/internal/runner/mem_job_manager.go:57-306 | In every interleaving each job is in one place at a time, history and `cancels` agree, statuses fit the history |
| JobManager.RunAtMostOnce | api/internal/runner/mem_job_manager.go:245-306 | Each job is run at most once, and `cancels` holds it exactly between the beginning and the end of that run |
| JobManager.CancelsAreExecuting | api/internal/runner/mem_job_manager.go:256-304 | `cancels` holds a job exactly while some worker executes it |
| JobManager.EndedStaysTerminal | api/internal/runner/mem_job_manager.go:290-306 | A job whose run has ended is terminal in all later states |
| JobManager.MarkedStaysCancelled | api/internal/runner/mem_job_manager.go:177-306 | A job marked cancelled after its run began is shown as cancelled ever after |
| JobManager.TerminalLeftOnlyByStart | api/internal/runner/mem_job_manager.go:252-262 | A terminal status is left exactly when the worker holding the job begins its run |
| JobManager.CancelledWhilePendingStillRuns | api/internal/runner/mem_job_manager.go:158-262 | A run in which a job cancelled while queued is run all the same |
| JobOutcomes.OutcomeIsShown | api/internal/runner/mem_job_manager.go:290-305 | Once its generator has returned, a job is shown ever after as cancelled exactly if marked so after its run began, otherwise as completed with its report or failed with its error, and as ended at that instant |
| JobOutcomes.MarkedIff | api/internal/runner/mem_job_manager.go:177-179 | The history marks exactly the jobs a Cancel wrote to after their run began |
| JobOutcomes.ExecutingShows | api/internal/runner/mem_job_manager.go:256-262 | While a job executes it is shown as running since the instant its run began, or as cancelled if marked meanwhile |
| JobOutcomes.StartIsKept | api/internal/runner/mem_job_manager.go:258-261 | The start shown is that of the job's run, in every later state |
| JobOutcomes.PhaseIsShown | api/internal/runner/mem_job_manager.go:259-275 | While a job executes it shows the phase last reported |
| JobOutcomes.WaitingShows | api/internal/runner/mem_job_manager.go:57-73 | A job being submitted, queued or received but not begun is shown as pending or cancelled, neither begun nor ended |
| JobOutcomes.AbortedNeverRuns | api/internal/runner/mem_job_manager.go:74-79 | A job whose submission was aborted never runs and keeps its error, as failed or cancelled |
| JobOutcomes.CompletedSubmissionStays | api/internal/runner/mem_job_manager.go:88-143 | A job recorded as completed at once never runs and is never shown as anything else |
| JobOutcomes.FirstInFirstOut | api/internal/runner/mem_job_manager.go:72-73 | Workers receive jobs in the order they were sent, and at most 100 wait |
| JobOutcomes.CancelTakesActive | api/internal/runner/mem_job_manager.go:159-171 | Cancel goes on to mark a job exactly when it finds it pending or running |
| JobOutcomes.DeleteTakesFinished | api/internal/runner/mem_job_manager.go:198-211 | Delete removes a job exactly when it is completed, failed or cancelled, and no other |
| JobOutcomes.ListedUntilDeleted | api/internal/runner/mem_job_manager.go:68-211 | Every submitted job is listed until it is deleted |
| RefreshRotation.AuthHandler.Refresh | api/internal/handlers/auth.go:441-541 | A pair is issued exactly when the family is active, the JTI acceptable, the user active and the stores work, and the JTI issued is then the family's current one; 401 exactly for an unknown or closed session, an unacceptable JTI or an inactive user, a server error otherwise; the row changes as the protocol's step says |
| RefreshRotation.RowsMatch | api/internal/handlers/auth.go:515-532 | Over every run the family row holds exactly the last two JTIs minted and the grace of the last rotation |
| RefreshRotation.AcceptedTokens | api/internal/handlers/auth.go:456-462 | The JTIs accepted are exactly the newest one, and the one it displaced within 30 s |
| RefreshRotation.StaleTokenRejected | api/internal/handlers/auth.go:456-464 | A JTI displaced twice, or once and past its grace, is never accepted again |
| RefreshRotation.ReuseClosesIff | api/internal/handlers/auth.go:464-491 | Any other JTI shown to an active family mints nothing, and closes the family iff the store can record the compromise |
| RefreshRotation.ClosedForever | api/internal/handlers/auth.go:447-454 | Once a family has left the active state nothing is ever minted for it |
| RefreshRotation.ReplayEndsSession | api/internal/handlers/auth.go:456-491 | Replaying a displaced token past its grace ends the session for every holder, whatever follows |
| RefreshRotation.RowAfter | api/internal/handlers/auth.go:447-532 | The row after a refresh, case by case on the fields of the row, the token and the answers |
| RefreshRotation.OthersUnchanged | api/internal/handlers/auth.go:441-532 | No step touches another family's row |
| RefreshRotation.LoginOpens | api/internal/handlers/auth.go:252-260 | A login's family starts active with its JTI and none displaced |
| RefreshRotation.RevokeCloses | api/internal/store/pg/refresh_token_families.go:131-153 | Revoking a family, or removing its row, closes it whatever its status was |
| RefreshRotation.LogoutEndsSession | api/internal/handlers/auth.go:341-341 | After a logout nothing is ever minted for the family |
| RefreshRotation.InactiveUserCloses | api/internal/handlers/auth.go:493-509 | A refresh for an inactive user mints nothing and ends the session exactly when the store can record it |
| RefreshRaces.RefreshAlone | api/internal/handlers/auth.go:441-532 | A read and a write with nothing in between are the atomic request |
| RefreshRaces.RowsMatch | api/internal/store/pg/refresh_token_families.go:102-122 | However reads and writes of requests interleave, the row holds the last two JTIs minted, in the order of the rotations |
| RefreshRaces.AcceptedAtRead | api/internal/handlers/auth.go:441-464 | A request is let through exactly when the family is active as it reads and its JTI is the newest one then, or the one that displaced, within 30 s |
| RefreshRaces.LateMintIff | api/internal/handlers/auth.go:447-532 | After a family has left the active state nothing is minted for it iff no request let through before writes its rotation while the row is still there |
| RefreshRaces.LateMintPossibleIff | api/internal/handlers/auth.go:447-532 | A token can still be minted for such a family exactly when such a request is pending |
| RefreshRaces.ClosedRefuses | api/internal/handlers/auth.go:447-454 | No later request gets through for it, not even with a token minted late |
| RefreshRaces.ClosingSteps | api/internal/store/pg/refresh_token_families.go:124-153 | Logout, removal of the row and a recorded compromise close a family in every interleaving |
| RefreshRaces.OtherRowsUnchanged | api/internal/handlers/auth.go:441-532 | No step touches the row of another family than its own |
| RefreshRaces.CreateOpens | api/internal/handlers/auth.go:252-260 | A login's family starts active with its JTI and none displaced |
| RefreshRaces.MintAfterRevoke | api/internal/handlers/auth.go:441-532 | A run in which a request reads, the family is revoked, and the request mints |
| RefreshRaces.MintAfterCompromise | api/internal/handlers/auth.go:441-532 | A run in which a request reads, token theft is detected, and the request mints all the same |
| FailedSteps.WalkFailedStep | api/internal/parser/allure.go:170-192 | On any step forest the recursion returns the left-to-right deepest match of the preorder list, though it looks at children first |
| FailedSteps.OneMoreStep | api/internal/parser/allure.go:174-189 | Looking at children before the step gives the answer of document order |
| FailedSteps.DeepestConcat | api/internal/parser/allure.go:174-189 | The deepest match of a list is that of its parts, the earlier part winning ties |
| FailedSteps.DeepestAnswers | api/internal/parser/allure.go:166-169 | That match is the first arg-max: maximal depth, first in document order, its details or else its name; depth -1 iff there is none |
| FailedSteps.PreorderFollowsPaths | api/internal/parser/allure.go:174-189 | The list visits the steps of the tree along paths, each at its depth |
| FailedSteps.PathsAreAll | api/internal/parser/allure.go:174-189 | Every step of the tree is visited |
| FailedSteps.PathsInOrder | api/internal/parser/allure.go:166-169 | The paths are listed in document order, each once |
| FailedSteps.SearchOnTree | api/internal/parser/allure.go:166-192 | The answer is that of a step of the tree with the status such that none lies deeper and none as deep comes earlier in the document; its message is its own, or its name |
| FailedSteps.AnswersUnique | api/internal/parser/allure.go:166-169 | The list determines the answer |
| FailedSteps.DeriveStatusFromSteps | api/internal/parser/allure.go:145-164 | A failed step at any depth wins over every broken one; the message is that of the first deepest such step |
| InputKey.WriteFields | api/internal/failure/service.go:343-358 | The bytes hashed are the NUL-terminated fields in order |
| InputKey.TerminatedInjective | api/internal/failure/service.go:345-348 | NUL-free fields can be read back from their terminated form |
| InputKey.KeyMaterialInjective | api/internal/failure/service.go:340-358 | For NUL-free fields equal bytes mean equal message, step path of any length, attachment text, last-good build, model and prompt version |
| InputKey.CutEvidence | api/internal/failure/service.go:345-352 | Cutting a field at an inner NUL yields different evidence with the same bytes |
| InputKey.NulCollides | api/internal/failure/service.go:343-358 | Any argument of inputHash with a NUL in a field shares its bytes with a different argument |
| EvidenceCollisions.CollidesIff | api/internal/failure/service.go:238-358 | Evidence the service can assemble (NUL-free text columns, at most 20 step entries, attachment text empty or titled) shares its key with other such evidence iff a NUL in the attachment text is followed by nothing or by a further title with room for the text before it in the step path, or some step entry reads as an attachment title |
| EvidenceCollisions.SameKey | api/internal/failure/service.go:343-358 | For such evidence equal keys mean that the shorter step path begins the longer one, whose other entries open the attachment text of the former |
| EvidenceCollisions.CutCollides | api/internal/failure/service.go:297-358 | Where the attachment text can be cut, the text before the cut taken for step entries gives the other evidence |
| EvidenceCollisions.TitledCollides | api/internal/failure/service.go:297-358 | A titled step entry and all that follow, taken for attachment text, give the other evidence |
| SummaryService.FlightKeyExact | api/internal/failure/service.go:150-150 | Requests share a flight iff they name the same build and history |
| SummaryService.BlankExactly | api/internal/failure/service.go:185-185 | Blank means nothing but ASCII white space |
| SummaryService.Service.Generate | api/internal/failure/service.go:162-211 | A matching row is served without a model call; a failed or blank reply stores nothing; a stored row has a non-blank hypothesis under the request's hash |
| SummaryService.Service.SummaryFor | api/internal/failure/service.go:122-155 | Disabled, a build that does not load, no evidence and a failing cache read each give their own answer and change nothing; a matching row makes no model call, a missing one makes one; only the request's own row can change, to what the model said for this evidence |
| SummaryService.RunSafe | api/internal/failure/service.go:122-211 | In every interleaving generations of one (build, history) never overlap, and every stored row has a non-blank hypothesis the model gave for the evidence whose hash it carries |
| SummaryService.OnlyUpsertStores | api/internal/failure/service.go:178-209 | Only a successful upsert changes the cache; failed and blank generations do not |
| SummaryService.AloneReads | api/internal/failure/service.go:142-147 | A request on its own errors if its cache read fails, is served a matching row, and misses otherwise |
| SummaryService.AloneGenerates | api/internal/failure/service.go:162-211 | A miss on its own ends as the model's reply says: model error, blank hypothesis, or a summary under the request's hash, stored if the store takes it |
| SummaryService.ModelAskedOnlyOnMiss | api/internal/failure/service.go:142-178 | While the model is asked no matching row is stored, provided the second cache read worked |
| SummaryService.GeneratedAtMostOnce | api/internal/failure/service.go:149-211 | While the stores work and a key's evidence stays the same, one model answer is accepted for it, however requests interleave |
| SummaryService.AllServedByLeader | api/internal/failure/service.go:149-154 | In every interleaving a request gets what was made for the evidence of whoever led its flight |
| SummaryService.OwnHashIff | api/internal/failure/service.go:149-154 | A served summary carries the hash of the request's own evidence iff the request joined no flight, or one whose leader has evidence with that hash |
| SummaryService.ForeignSummaryServed | api/internal/failure/service.go:149-154 | For any two pieces of evidence with different hashes, a run in which one request is served the summary of the other |
| OrphanSweep.FindOrphans | api/cmd/gcstorage/main.go:201-211 | The orphans are the stored dirs without a build row, in order |
| OrphanSweep.DataStore.PruneReportDirs | api/cmd/gcstorage/main.go:225-230 | A prune removes what it was asked to, or, failing, any part of it |
| OrphanSweep.VisitPrefix | api/cmd/gcstorage/main.go:165-231 | One prefix: unknown and out-of-scope prefixes are skipped, failures counted, orphans counted and, when applying, requested |
| OrphanSweep.DisposeOrphans | api/cmd/gcstorage/main.go:212-231 | Orphans are counted, a dry run stops there, a failed prune counts as a failure and deletes nothing from the tally |
| OrphanSweep.SweepStorageOrphans | api/cmd/gcstorage/main.go:143-240 | The whole run is the fold of the visits over the listed prefixes up to an interruption; a failed listing touches nothing |
| OrphanSweep.SweepLocal | api/cmd/gcstorage/main.go:159-237 | Prefixes not visited keep their dirs |
| OrphanSweep.SweepDeletesOnlyOrphans | api/cmd/gcstorage/main.go:137-240 | Under any failures every prune request names exactly the orphans of the owning project, nothing else disappears, and dry runs and unknown prefixes lose nothing |
| OrphanSweep.SweepAccounts | api/cmd/gcstorage/main.go:215-231 | orphanDirs minus dirsDeleted is exactly the orphans of dry-run or failed-prune prefixes |
| OrphanSweep.PrunedIsClean | api/cmd/gcstorage/main.go:194-231 | Where the sweep succeeded a later look, in any scope, finds no orphan |
| OrphanSweep.SecondSweepFindsNothing | api/cmd/gcstorage/main.go:137-240 | An immediate second sweep over prefixes where the first succeeded requests, deletes and counts nothing, whatever fails then |
| OrphanReports.OwnerExactly | api/cmd/gcstorage/main.go:147-150 | A prefix belongs to the last project with that storage key |
| OrphanReports.ScopeExactly | api/cmd/gcstorage/main.go:165-180 | A prefix takes part iff a project owns it and the run is for all projects or for that one |
| OrphanReports.OrphansExactly | api/cmd/gcstorage/main.go:201-211 | The orphans are the stored dirs without a build row of the owning project |
| OrphanReports.WithoutInOrder | api/cmd/gcstorage/main.go:206-211 | They are picked out in listing order |
| OrphanReports.SweepIsComplete | api/cmd/gcstorage/main.go:159-231 | Every selected prefix that could be listed and has an orphan is asked to lose exactly its orphans, and does if the prune succeeds |
| OrphanReports.OnlySelected | api/cmd/gcstorage/main.go:165-180 | Prefixes no project owns, and in a run for one project those of all others, are never asked for and lose nothing |
| OrphanReports.SweepListsUnowned | api/cmd/gcstorage/main.go:166-177 | The unknown prefixes reported are exactly those no project owns, none in a run for one project |
| OrphanReports.SweepReports | api/cmd/gcstorage/main.go:181-229 | Projects scanned and failures are counted exactly |
| OrphanReports.SweepCounts | api/cmd/gcstorage/main.go:215-231 | Every orphan is counted once, and every removed one |

## Left out

- Float rounding, 64-bit overflow of counters and durations, and time formatting: token levels are reals, counters unbounded integers, times plain numbers.
- Username normalisation: an account is a username after trimming and lower-casing. Unused in the source and so absent here: `softThreshold`.
- CacheKeys.EmailsIgnoreCase: emails are lower-cased for ASCII letters only, not for the rest of Unicode.
- UserActiveCache.UserActiveCache.Signal: the shared record is an entry of a table named after the call that leads, not a heap object; filling it in and releasing the waiters are one step.
- LoginThrottle.LockSurvivesIff: password comparison and the token store are left out; an attempt records at any instant after its delay, or never.
- Cancellation and the 5 s timeout of a load: they appear only as a load that fails. A panicking load is not modelled.
- LruLimiters.RateLimiter.GetLimiter: the linked list is a sequence of keys and a bucket is the number of its creation; what `rate.Limiter` does with a bucket, and `ParseToolCosts`, are not part of this model.
- PipelineRuns.SortBuilds: the library sort is replaced by an insertion sort; only sortedness and contents are promised, not the order of equal build numbers.
- PipelineRuns.GroupPipelineRuns: an empty input gives an empty list where the program returns nil; accumulators are values put back into their maps, not shared objects.
- Awaiting-suite marking, pagination and the HTTP handlers around the two folds.
- JobManager.MemJobManager.Submit: job records are entries of a table keyed by fresh identifiers, so colliding random identifiers are excluded; parameters, progress counters, ListJobs, Retry, Shutdown and context propagation are not modelled.
- RefreshRotation.AuthHandler.Refresh: each request is one atomic step with one clock (RefreshRaces splits it into its read and its write); token signatures, cookies, CSRF and auditing are not modelled. The store's Rotate, Revoke and MarkCompromised follow their SQL statements.
- EvidenceCollisions.CollidesIff: the limits on the bytes of attachments and on the length of their names are left out; that text columns hold no NUL is a property of PostgreSQL.
- RefreshRotation.StaleTokenRejected: assumes that minted JTIs and family identifiers are unique.
- SHA-256: summary keys are compared by an arbitrary hash function of the evidence; InputKey speaks of the bytes hashed.
- SummaryService.Service.SummaryFor: assembling evidence, prompts, diffs and the remaining fields of a row are left out; blankness is that of ASCII white space.
- OrphanSweep.DataStore.PruneReportDirs: storage is a map of listed directories per prefix; S3 and the file system are not part of this model.
- Allure parsing other than the failing-step search: JSON decoding, step conversion and attachment resolution, on which no property above depends.
- Regex fingerprinting, the Playwright parser, SQL stores, MCP server, configuration and the UI are not part of this model.
