# Protocol models of the full-stack template

This project models the stateful protocols of the template (Rust backend, Python sidecar, browser
client) and proves what they keep over whole runs. `dafny verify dfyconfig.toml` checks all of it.

The models share one picture of Redis (`RedisKeys` in `Basics.dfy`): a key holds a value and an
optional expiry in server milliseconds, a Lua script or a single command is one atomic step, and
time never goes back. Clients interleave between steps. Every operation that changes state in
place is a class method whose contract gives its reply and its whole new state through a function;
the run theorems are lemmas about that function. Clocks, random values, network outcomes and
cryptographic functions are parameters.

| File | Protocol | Main results |
|---|---|---|
| `SlidingWindow.dfy` | rate limiter, `rate_limit.rs` | window bound under clock skew, and that it is sharp; exactly when the pruned, expiring set answers as a limiter that never forgets; when a retry succeeds |
| `LoginBackoff.dfy` | failure counter, `rate_limit.rs` | exactly when failures plus logins in flight stay within 4 + C, a bound that is reached; blocked until the deadline |
| `Sessions.dfy`, `SessionRuns.dfy`, `BulkDestroyOrder.dfy`, `SessionCache.dfy` | session store and in-process cache, `session.rs` | index completeness and exactness of the bulk destroy under interleaving; for which overlaps of bulk destroys it still clears everything; what a cached read can return, and from when on a dead session is answered nowhere |
| `CacheStore.dfy`, `RefreshChains.dfy` | one-shot keys and refresh rotation, `cache.rs`, `routes.rs` | each login has at most one live token or rotation, and a live token always starts the next; when a logout ends a login for good |
| `Blacklist.dfy` | logged-out access tokens, `middleware.rs` | who gets in and who is forbidden, case by case; a logged-out token stays out exactly when the logout came late enough |
| `Bytes.dfy`, `CursorCodec.dfy`, `Pagination.dfy` | keyset pagination, `notes.rs` | exactly once under concurrent inserts and deletes; base64url and cursor round trips |
| `Envelope.dfy`, `NonceReplay.dfy` | signed requests to the sidecar, `middleware.rs`, `main.py` | both languages sign the same bytes exactly for ASCII without DEL; a nonce is accepted once exactly within a timing budget and without outages failing open |
| `SidecarRetry.dfy`, `HttpFraming.dfy` | sidecar client, `py-sidecar/src/lib.rs` | retry loop, total sleep, the request read back field by field, exactly which responses parse and to what status |
| `LiveAdmission.dfy` | WebSocket admission, `live.rs` | who gets in; conservation of permits, counter and user counts |
| `HealthCache.dfy` | health caches, `health.rs` | single flight, probe rate, age of every answer |
| `Reconnect.dfy` | browser reconnect, `live.ts` | socket or timer and never stuck, ten attempts after every open, offline once, closed for good |

Where the code differs from its documentation or from what one would expect, the model follows the
code, and a lemma says exactly what holds:

- The increment script arms the cooldown one tier above the documented one for 5 to 19 failures
  (`backend/cache/src/rate_limit.rs:137-139` against `:210-229`): `LoginBackoff.ArmedTierIsNeverLower`.
- A limit of zero makes the limiter script fail instead of denying: `SlidingWindow.ErrorExactlyAtZeroLimit`.
  `reset_at` is late by 60 s less the window's sub-second part: `SlidingWindow.RetryAfterDenial`.
- The bulk destroy returns before clearing the cache when RENAME fails
  (`backend/cache/src/session.rs:128-131`). What a get can then still answer, and until when, is
  `SessionCache.BulkDestroyWithoutIndex`; that it happens is `SessionCache.StaleHitAfterBulkDestroy`.
- The session cache's documentation says entries are invalidated when sessions are destroyed
  (`backend/cache/src/session.rs:15-16`). That reaches the destroying process only, and only what is
  cached already: `SessionCache.SilentExactlyWhenSettled` says from when on a dead session is answered
  nowhere, `HitAfterLogoutElsewhere` and `LatePutAfterLogout` are runs in which it still is.
- The login backoff relies on a TTL reply above 0 for as long as its key lives. Redis rounds to the
  nearest second, so a check in the last half second passes: `LoginBackoff.BlockedExactly`,
  `LoginBackoff.BoundedExactlyWhenRoundedUp`.
- The nonce of a sidecar request is not covered by its signature: `NonceReplay.SignatureIsReusable`.
- The temporary key of a bulk destroy is shared by all bulk destroys of the user
  (`backend/cache/src/session.rs:124`), so the operation is free of races, as its documentation
  (`:118-120`) says, for exactly the command orders of `BulkDestroyOrder.ClearsExactlyWhenCaught`. That no other job
  touches the key between a job's RENAME and its SMEMBERS is enough (`UndisturbedClears`) and not
  necessary (`HarmlessOverlaps`).
- A blacklist entry lives `jwt_expiry`, the validator adds a leeway: a token logged out within the
  leeway of its issue comes back, `Blacklist.LoggedOutStaysOut`. Cookie users all carry the empty
  token id (`backend/auth/src/middleware.rs:321`): `Blacklist.CookieLogoutBlocksEveryCookieUser`. The in-process
  blacklist (`backend/auth/src/middleware.rs:20`) is read and never created, so every lookup in it misses.
- `docs/AUTH.md:99` lists a payload without the timestamp; both implementations sign it.
- The sidecar's JSON escapes DEL and everything above, the backend's does not: `Envelope.PayloadsAgree`.
- A WebSocket upgrade that fails after validation gives its permit back and keeps the user's count
  (`backend/api/src/live.rs:204`, the guard exists only from `:341` on): `LiveAdmission.FailedUpgradesLockOut`.

## Model

| member | source | states |
|---|---|---|
| SlidingWindow.RateLimiter.RateLimitCheck | backend/cache/src/rate_limit.rs:45-97 | one check, command by command, gives the reply and the key of the atomic script, and touches no other key |
| SlidingWindow.RateLimiter.CountPrune | backend/cache/src/rate_limit.rs:110-118 | the first command of a count leaves exactly the members in the window |
| SlidingWindow.RateLimiter.RateLimitCount | backend/cache/src/rate_limit.rs:105-127 | both commands in a row, at two server times |
| SlidingWindow.CountsNeverExceedMax | backend/cache/src/rate_limit.rs:120-126 | whatever runs between the two commands, a count never reports more than max |
| SlidingWindow.CountReportsWindow | backend/cache/src/rate_limit.rs:105-127 | on non-decreasing clocks within that spread, a count is the number of requests admitted in the last window, and a check in its place is admitted if and only if that is below max |
| SlidingWindow.StepRetains | backend/cache/src/rate_limit.rs:62-76 | no step, expiry included, loses an admitted member before it is a full window old on the server's clock |
| SlidingWindow.WindowNeverOverfull | backend/cache/src/rate_limit.rs:51-97 | with client clocks at most a behind and b ahead of the server, no interval of length window − (a + b) ever holds more than max admitted timestamps, in every interleaving of checks and counts and across key expiry |
| SlidingWindow.WindowBoundIsSharp | backend/cache/src/rate_limit.rs:105-127 | one millisecond more is too much: for every limit some run admits max + 1 requests within window − (a + b) + 1, helped by a count |
| SlidingWindow.SameWindow | backend/cache/src/rate_limit.rs:63-64 | earlier pruning and key expiry removed nothing this check would still have counted |
| SlidingWindow.PrunedLimiterRefinesFullHistory | backend/cache/src/rate_limit.rs:62-76 | on non-decreasing clocks whose spread around the server's is no more than the key's TTL leaves over the window (59 s at least), every reply (decision, remaining, reset_at) equals that of a limiter with the full history; counts change nothing |
| SlidingWindow.RefinesExactlyWhen | backend/cache/src/rate_limit.rs:62-90 | it does so in every run if and only if the clocks stay within that spread, or window or limit is zero |
| SlidingWindow.DenialMeansFullWindow | backend/cache/src/rate_limit.rs:70-73 | a denial means exactly max requests in the window, and its reset_at is the oldest of them plus the window plus 60 s, rounded down to window seconds |
| SlidingWindow.AdmitsAgainWhenOldestLeaves | backend/cache/src/rate_limit.rs:63-69 | from a full window the history admits again exactly once its oldest member is a window old |
| SlidingWindow.RetryAfterDenial | backend/cache/src/rate_limit.rs:66-90 | on clocks within that spread, after a denial and any number of further denials and counts, the next check is admitted if and only if it comes at oldest + window or later |
| SlidingWindow.ErrorExactlyAtZeroLimit | backend/cache/src/rate_limit.rs:70-73 | a reply of a run is a script error if and only if max = 0 |
| LoginBackoff.BackoffClient.BackoffCheck | backend/cache/src/rate_limit.rs:145-193 | blocked exactly on a live counter of 5 or more whose TTL reply is not 0, with that reply and the label, for any rounding of the reply; a counter without a TTL is deleted |
| LoginBackoff.CheckKeepsCounter | backend/cache/src/rate_limit.rs:150-158 | a check never changes what any later command sees of a counter with a TTL, and drops one without |
| LoginBackoff.BlockedExactly | backend/cache/src/rate_limit.rs:150-193 | with r ms added before a TTL is cut to seconds, a counter of 5 or more blocks exactly while at least 1000 − r ms of its life remain, and the block reports the count, its label and those seconds |
| LoginBackoff.BackoffClient.BackoffIncrement | backend/cache/src/rate_limit.rs:204-246 | the counter grows by one, or starts at one, and is re-armed for its new value |
| LoginBackoff.IncrementCountsOne | backend/cache/src/rate_limit.rs:204-246 | one failure more than the living counter, or one, armed for 60 s below 5, 300 s below 10 and 1800 s from 10 on |
| LoginBackoff.Tiers | backend/cache/src/rate_limit.rs:250-260 | documented tiers 60 s "tracking", 60 s "60s", 300 s "5min", 1800 s "30min" from 0, 5, 10 and 20 failures, and the armed cooldowns beside them |
| LoginBackoff.CountsExactlyFailures | backend/auth/src/routes.rs:318-390 | over every run the counter never shows more than the recorded failures, and all of them during the first minute, whatever checks and successes come in between |
| LoginBackoff.BeginsExactly | backend/auth/src/routes.rs:318-345 | a login goes on to the password check if and only if it is neither rate-limited nor blocked by a living counter of 5 or more |
| LoginBackoff.ArmedTierIsNeverLower | backend/cache/src/rate_limit.rs:210-229 | the armed cooldown is never below the documented one, equal exactly below 5 and from 20 on, and never shrinks as failures add up |
| LoginBackoff.BoundedExactlyWhenRoundedUp | backend/auth/src/routes.rs:318-390 | with at most C logins of an address in flight, recorded failures plus logins in flight never exceed 4 + C, one at a time never more than 5, if and only if TTL replies are rounded up |
| LoginBackoff.LastMomentPasses | backend/auth/src/routes.rs:318-390 | for every other rounding, a run with 5 + C recorded failures |
| LoginBackoff.AlwaysArmed | backend/cache/src/rate_limit.rs:204-246 | in every run the counter has a TTL, no longer than the one its value arms |
| LoginBackoff.BoundIsReached | backend/auth/src/routes.rs:318-390 | for every C some run records 4 + C failures |
| LoginBackoff.BlockedUntilDeadline | backend/cache/src/rate_limit.rs:150-193 | from 5 failures on no login passes the check before the armed TTL ends, less what the rounding takes; failures still in flight only extend it, and left alone the next check passes |
| Sessions.SessionClient.SessionCacheGet | backend/cache/src/session.rs:30-43 | a hit only while unexpired; an expired entry is dropped, all others stay |
| Sessions.SessionClient.SessionCachePut | backend/cache/src/session.rs:46-58 | the entry lives 300 s; a full cache is emptied first, so the cap holds |
| Sessions.SessionClient.SessionCreate | backend/cache/src/session.rs:85-113 | session key and owner's index set are written with one TTL, or nothing is |
| Sessions.CreateExactly | backend/cache/src/session.rs:85-113 | the session is live for exactly its lifetime, joins its owner's index for as long, and no other session, index or temporary key changes |
| Sessions.SessionClient.SessionGet | backend/cache/src/session.rs:156-176 | memory first, then Redis, caching what was found; unknown sessions and outages are told apart |
| Sessions.GetExactly | backend/cache/src/session.rs:156-176 | a hit answers even in an outage; otherwise outage, unknown session and live session are told apart, the last is kept for 300 s, an expired entry goes, and every other entry stays unless the cache held 100,000 |
| Sessions.SessionClient.SessionDestroy | backend/cache/src/session.rs:187-214 | the session leaves its owner's set, Redis and the cache; during an outage nothing changes |
| Sessions.DestroyExactly | backend/cache/src/session.rs:187-214 | one session ends and leaves its owner's index if it was alive; what any later command sees of other sessions and indexes is unchanged |
| Sessions.SessionClient.SessionDestroyAllForUser | backend/cache/src/session.rs:122-153 | the five steps under any combination of command failures, with the cache cleared only after a successful RENAME |
| Sessions.BulkDestroyKeys | backend/cache/src/session.rs:124-136 | nothing happens unless RENAME finds a live index; then the index is gone, the temporary key is left exactly when its DEL failed, and other users' keys are untouched |
| Sessions.CacheWithoutUserExactly | backend/cache/src/session.rs:148-152 | exactly the entries of other users stay, unchanged |
| Sessions.CacheStaysBounded | backend/cache/src/session.rs:46-58 | a get keeps a cache within its cap |
| Sessions.BulkDestroyUnderFaults | backend/cache/src/session.rs:128-146 | after RENAME the indexed sessions are dead exactly when neither listing nor final DEL failed or none was alive, and no other session is affected |
| Sessions.OverlappingBulkDestroysOrphan | backend/cache/src/session.rs:122-146 | one overlap of two bulk destroys, on the store's commands, after which a live session is in no index |
| SessionRuns.StepSound | backend/cache/src/session.rs:85-146 | every create, logout and bulk-destroy command, overlapping or not, keeps log and sets in step, a live session indexed until it is moved, and moves each at most once |
| SessionRuns.StepSoundAlone | backend/cache/src/session.rs:122-146 | with one bulk destroy per user at a time, every live session that was moved is still in the hands of the job that moved it |
| SessionRuns.EveryLiveSessionIsIndexed | backend/cache/src/session.rs:85-113 | under any interleaving a live session is the one created under its id and, until moved, in its owner's set, which outlives it; with one bulk destroy per user at a time a moved one is about to be deleted |
| SessionRuns.DeadStaysDead | backend/cache/src/session.rs:187-214 | an id that is no longer alive never comes back |
| SessionRuns.BulkDestroyIsExact | backend/cache/src/session.rs:122-146 | with one bulk destroy per user at a time and anything else between its commands, every session alive at RENAME is dead at completion, and every later one lives on and is indexed unless it expired or was logged out |
| BulkDestroyOrder.FateOfMovedSession | backend/cache/src/session.rs:122-146 | with any number of overlapping bulk destroys, a moved session is in no index again and, until it expires or is logged out, is dead if and only if some job listed it before the next RENAME or DEL of the temporary key and has deleted what it listed |
| BulkDestroyOrder.ClearsExactlyWhenCaught | backend/cache/src/session.rs:122-146 | for every order of a user's commands: all sessions in the index at a job's RENAME are dead at the end of every run with that order if and only if that condition holds of the order, or no run has it because some job's commands are out of turn |
| BulkDestroyOrder.OrdersAreOrderly | backend/cache/src/session.rs:122-146 | in every run each job's RENAME, SMEMBERS and two DELs come in turn and once |
| BulkDestroyOrder.SurvivingRun | backend/cache/src/session.rs:122-146 | for every orderly order that fails it, a run with that order and a session alive at its end in no index |
| BulkDestroyOrder.UndisturbedClears | backend/cache/src/session.rs:128-146 | no RENAME and no DEL of the temporary key between a job's RENAME and its SMEMBERS is enough for its completion to clear the set |
| BulkDestroyOrder.SecondRenameLosesFirst | backend/cache/src/session.rs:128-146 | a run in which a second RENAME loses what the first job had moved, with no job left to find it |
| BulkDestroyOrder.FirstDropLosesSecond | backend/cache/src/session.rs:134-136 | a run in which the first job's DEL of the temporary key loses what the second had moved |
| BulkDestroyOrder.HarmlessOverlaps | backend/cache/src/session.rs:128-146 | overlaps that clear both sets, one of them although a foreign DEL comes before the own SMEMBERS |
| SessionCache.AtOnceIsDestroyAll | backend/cache/src/session.rs:122-146 | the interleaved commands run in a row are the sequential bulk destroy |
| SessionCache.GetsAreAuthentic | backend/cache/src/session.rs:156-176 | with several processes, overlapping bulk destroys, and read and put as separate steps, a get answers not-found or exactly the session created under the id, and a cached answer is younger than 300 s |
| SessionCache.SilentExactlyWhenSettled | backend/cache/src/session.rs:156-212 | over all runs of any number of processes, a dead session is answered by no process from t on if and only if no read of it is in flight and every cached entry of it runs out by t |
| SessionCache.SilentAfterLifetime | backend/cache/src/session.rs:23-24 | with no read of it in flight, a dead session is answered nowhere any more after 300 s |
| SessionCache.LogoutSilencesExactly | backend/cache/src/session.rs:187-214 | over all runs, a logout silences the session everywhere at once if and only if no read of it is in flight and no other process has a living entry of it |
| SessionCache.HitAfterLogoutElsewhere | backend/cache/src/session.rs:187-212 | a run in which one process still answers a session that another logged out, up to 300 s |
| SessionCache.LatePutAfterLogout | backend/cache/src/session.rs:156-172 | a run in which a read from before the logout is cached 500 s after it, and answered for another 300 s |
| SessionCache.CachesStayBounded | backend/cache/src/session.rs:46-58 | in every such run no process's cache exceeds 100 000 entries |
| SessionCache.NoGetAfterLogout | backend/cache/src/session.rs:187-214 | in one sequential process no get succeeds after a logout |
| SessionCache.NoGetAfterBulkDestroy | backend/cache/src/session.rs:122-153 | nor after a bulk destroy whose RENAME succeeded, for any session the user had |
| SessionCache.BulkDestroyWithoutIndex | backend/cache/src/session.rs:128-131 | when RENAME finds nothing, then after any further operations a get succeeds exactly while an unexpired entry is cached, the entry is the one from before, and no get succeeds after the expiry it had |
| SessionCache.StaleHitAfterBulkDestroy | backend/cache/src/session.rs:128-131 | such a hit happens, in a run of three operations |
| CacheStore.MakeKeyInjective | backend/cache/src/lib.rs:118-120 | two namespaces without a colon never share a Redis key |
| CacheStore.RedisClient.CacheSet | backend/cache/src/cache.rs:40-63 | value and expiry of one key change if the command arrives and the TTL is not zero; any failure is an error, a lost answer with the value stored |
| CacheStore.RedisClient.CacheGet | backend/cache/src/cache.rs:15-35 | the decoded live value of the namespaced key, or nothing; an outage and a value that does not decode are told apart |
| CacheStore.RedisClient.CacheDelete | backend/cache/src/cache.rs:66-73 | exactly that key is gone if the command arrives, and the caller knows if the answer does |
| CacheStore.RedisClient.CacheGetDelete | backend/cache/src/cache.rs:79-99 | value and removal in one step; the key is gone even when the answer is lost or does not decode |
| CacheStore.RedisClient.RefreshTokenRotate | backend/cache/src/cache.rs:139-167 | the token's user and removal in one step, under the same failures; an empty stored value reads as missing |
| CacheStore.TakenOnce | backend/cache/src/cache.rs:139-167 | a value can be taken exactly while it lives, and never twice; all other keys stay |
| CacheStore.SetReadsBack | backend/cache/src/cache.rs:15-63 | what was set reads back, decoded, for its lifetime and not at all after it |
| CacheStore.ConsumedAtMostOnce | backend/auth/src/routes.rs:1034-1040 | an OAuth state is consumed at most once however many callbacks race, and with the value written |
| CacheStore.FirstConsumeSucceeds | backend/auth/src/routes.rs:1034-1040 | the first callback for a state succeeds if and only if it comes within the lifetime, whatever happens to other states |
| RefreshChains.ChainsAreLinear | backend/auth/src/routes.rs:718-762 | in every interleaving, failing handlers included, a login has at most one live token or rotation in flight, every token maps to the user who logged in, and none is consumed twice |
| RefreshChains.ReachableIsSound | backend/auth/src/routes.rs:718-762 | every state of every run is sound: tokens belong to their login's user, spent ones are gone, and a login has at most one token or rotation; what the following rows say of sound states holds of every reachable one |
| RefreshChains.LoginGivesToken | backend/auth/src/routes.rs:400-412 | in every sound state a login of positive lifetime has exactly its first token, good for that lifetime, for the user who logged in |
| RefreshChains.RefreshTakesLiveToken | backend/auth/src/routes.rs:718-727 | in every sound state a refresh starts if and only if the presented token is live; then the token is spent and this handler is the one rotation of its login and user; any other token changes nothing |
| RefreshChains.IssueContinuesChain | backend/auth/src/routes.rs:752-762 | the rotation ends with exactly one live token of the same login and user, good for the full lifetime from then |
| RefreshChains.AbortIdlesChain | backend/auth/src/routes.rs:729-750 | a refresh that fails after taking the token leaves its login with neither token nor rotation |
| RefreshChains.LoginsAreIndependent | backend/auth/src/routes.rs:718-762 | no event changes the tokens, rotations or user of a login it is not about |
| RefreshChains.IdleForGood | backend/auth/src/routes.rs:718-762 | a login with neither never gets a token again |
| RefreshChains.Revives | backend/auth/src/routes.rs:752-762 | a rotation in flight can always still issue a token |
| RefreshChains.LogoutEndsChain | backend/auth/src/routes.rs:479-485 | a logout ends the login for good exactly when no rotation of it is in flight and no other live token exists; presenting the current token is enough |
| Blacklist.AuthMiddleware | backend/auth/src/middleware.rs:127-241 | with all its early returns, the middleware decides like the function that the following rows characterise |
| Blacklist.ForbiddenExactly | backend/auth/src/middleware.rs:276-309 | Forbidden if and only if a protected request falls to cookies, brings a session, changes state and fails CSRF |
| Blacklist.BearerUserExactly | backend/auth/src/middleware.rs:152-179 | a user without a session id is forwarded if and only if bearer tokens are looked at, the token has not run out and its id is not blocked; it is the token's subject and id |
| Blacklist.CookieUserExactly | backend/auth/src/middleware.rs:311-323 | a user with a session id is forwarded if and only if the request falls to cookies, passes CSRF where it matters, Redis is configured, the session is that id's and the empty token id is not blocked; it is the session's user |
| Blacklist.BlocksExactly | backend/auth/src/middleware.rs:181-238 | what blocks a token id: a live entry saying true, or, failing closed, an outage or an entry that is no boolean |
| Blacklist.PublicIsAnonymous | backend/auth/src/middleware.rs:124-153 | public paths and deployments without an auth service forward without a user |
| Blacklist.Logout | backend/auth/src/routes.rs:473-492 | the refresh token goes first, then the token id is listed for jwt_expiry; the first unanswered command, or expiry 0, ends it with an error, and the store is as far as the commands got |
| Blacklist.EntryLasts | backend/auth/src/routes.rs:488-492 | no later logout and no write in another namespace shortens an entry |
| Blacklist.LoggedOutStaysOut | backend/auth/src/middleware.rs:181-238 | failing closed, a token logged out at time L never lets anyone in again, in any continuation, if and only if L ≥ (iat + leeway + 1) s |
| Blacklist.EarlyLogoutLapses | backend/auth/src/jwt.rs:61-71 | logged out earlier, the token is accepted the moment its entry lapses |
| Blacklist.FailOpenReadmits | backend/auth/src/middleware.rs:221-236 | during an outage a bearer token gets in exactly when failing open and still valid |
| Blacklist.BlacklistIsolation | backend/auth/src/middleware.rs:193-219 | listing a token id changes a request's outcome exactly when the request goes by that id |
| Blacklist.CookieLogoutBlocksEveryCookieUser | backend/auth/src/middleware.rs:311-323 | one cookie logout keeps every cookie session of every user out until its entry expires |
| Bytes.ParseOfSignedDecimal | backend/api/src/notes.rs:55-63 | parsing undoes printing, for every 64-bit number |
| Bytes.DecimalForm | backend/api/src/notes.rs:55-57 | a number is printed most significant digit first, without leading zeros |
| CursorCodec.DecodeOfEncode | backend/api/src/notes.rs:55-63 | base64url without padding: every byte string survives encoding and decoding |
| CursorCodec.EncodeOfDecode | backend/api/src/notes.rs:59-60 | the decoder accepts nothing but encodings: no padding, no stray bits, no other characters |
| CursorCodec.Alphabet | backend/api/src/notes.rs:55-57 | the base64url alphabet, sextet by sextet |
| CursorCodec.PackIsBigEndian | backend/api/src/notes.rs:55-57 | the sextets of a group hold the bits of its bytes in order, padded with zeros at the end |
| CursorCodec.ParseOfUuidText | backend/api/src/notes.rs:83-85 | canonical UUID text parses back |
| CursorCodec.UuidTextForm | backend/api/src/notes.rs:54-57 | canonical UUID text: 36 characters, dashes at 8, 13, 18 and 23, lower-case hexadecimal digits in order elsewhere |
| CursorCodec.CursorRoundTrip | backend/api/src/notes.rs:54-64 | decoding an encoded cursor returns timestamp and id, for all 64-bit microseconds and all ids, colons included |
| CursorCodec.CursorText | backend/api/src/notes.rs:54-57 | a cursor is the base64url of the decimal microseconds, a colon and the id |
| Pagination.TopDescSpec | backend/api/src/notes.rs:99-107 | the ordered, limited query returns the n greatest rows in descending order |
| Pagination.NextCursorDecodes | backend/api/src/notes.rs:77-85 | a next_cursor is understood as exactly the last row of its page |
| Pagination.PageSpec | backend/api/src/notes.rs:74-131 | a page is the newest rows below its cursor, has_more exactly when more rows than the limit exist, and everything left out lies below the next cursor |
| Pagination.PageSize | backend/api/src/notes.rs:74-138 | per_page is brought into 1 to 100; the page reports that figure L and has min(L, n) items of n matching rows, with has_more if and only if L < n |
| Pagination.PageShowsRows | backend/api/src/notes.rs:81-131 | each item is a row of the requesting user, older than the cursor and than the items before it; on a last page no such row is missing |
| Pagination.BelowIsOlder | backend/api/src/notes.rs:95-99 | older means the earlier time, or at one time the smaller digit where the ids first differ |
| Pagination.ExactlyOnce | backend/api/src/notes.rs:74-131 | under arbitrary inserts and deletes and changing page sizes, following next_cursor returns no note twice and, once finished, every note that was there throughout |
| Pagination.FewerRowsBelow | backend/api/src/notes.rs:119-131 | a page with more to come leaves exactly its items fewer rows below the next cursor |
| Pagination.StaticListing | backend/api/src/notes.rs:74-131 | on an unchanging table the pages are the user's notes, newest first, in max(1, ⌈n / L⌉) requests, with L the per_page brought into 1 to 100 |
| Pagination.CursorMeans | backend/api/src/notes.rs:59-64 | a cursor is read as (time, id) if and only if it is the base64url of some UTF-8 number of that time, a colon and some UUID text of that id |
| Pagination.GarbageCursorIsFirstPage | backend/api/src/notes.rs:77-85 | a cursor that denotes no representable time and UUID gives the first page; every other one, issued or not, bounds the page from above |
| Envelope.PayloadReadsBack | backend/auth/src/middleware.rs:344-350 | one parser recovers user, e-mail, name and timestamp from every payload of either side |
| Envelope.PayloadText | backend/auth/src/middleware.rs:344-350 | the payload of an identity without escapes, byte for byte: keys in alphabetical order, no blanks |
| Envelope.ShortEscapes | backend/auth/src/middleware.rs:344-350 | the escapes of quotes, backslashes and control characters, the same on both sides |
| Envelope.PayloadInjective | py-api/app/main.py:221-225 | distinct identities or timestamps never share a payload, on either side or across the two |
| Envelope.PayloadsAgree | py-api/app/main.py:221-225 | the Rust and Python payloads are the same bytes if and only if every field is ASCII without DEL |
| NonceReplay.SidecarWorker.ValidateHmac | py-api/app/main.py:169-283 | the checks in their order give the verdict and the nonce keys of the validation that the following rows characterise |
| NonceReplay.SignatureVerdict | py-api/app/main.py:178-238 | which outcome each combination of secret, headers, clock and signature has before the nonce is looked at; allowed if and only if all are in order and the signature is that of the claimed identity |
| NonceReplay.NonceIsRecorded | py-api/app/main.py:240-283 | a signed state-changing request with a nonce is allowed if its nonce is free and then holds it for 90 s, is a duplicate otherwise; no other nonce is ever touched, and outages are answered by policy |
| NonceReplay.SignedRequestsPass | py-api/app/main.py:219-240 | a backend signature for an identity passes for that identity if it is ASCII without DEL; if the signature separates payloads, it passes for no other headers |
| NonceReplay.WidestSpreadReplays | py-api/app/main.py:257-259 | beyond the timing budget a concrete pair of requests is accepted twice |
| NonceReplay.SignatureIsReusable | py-api/app/main.py:214-283 | the nonce is not signed: with Redis up, a signature that passed passes again exactly while its timestamp is in the window and the nonce sent along is empty or unclaimed, or the request does not change state |
| NonceReplay.OutageReplays | py-api/app/main.py:244-250 | failing open, a request is accepted twice while a worker has no Redis |
| NonceReplay.AcceptedAtMostOnce | py-api/app/main.py:201-283 | over runs of the validation itself, by any number of workers on whatever headers, a nonce with its timestamp is accepted at most once for state-changing requests if and only if no outage is met failing open and handler delay plus twice the clock skew is at most 29 s |
| SidecarRetry.BackoffExact | backend/py-sidecar/src/lib.rs:33-36 | saturating 64-bit backoff equals min(100·2^(n−1), 30000) over the integers, and is monotone |
| SidecarRetry.TotalSleepExact | backend/py-sidecar/src/lib.rs:33-36 | n retries sleep 100·(2^n − 1) ms up to 9 and 51100 + 30000·(n − 9) ms beyond |
| SidecarRetry.DoRequest | backend/py-sidecar/src/lib.rs:206-260 | the result is the first decisive outcome among the first R + 1, else the last retryable error: only timeouts and connection failures are retried, a status below 400 is the body, any other an HTTP error; the default is never used |
| SidecarRetry.DoRequestCapped | backend/py-sidecar/src/lib.rs:80-84 | under the cap of ten retries at most 81.1 s are slept |
| HttpFraming.ValidateAll | backend/py-sidecar/src/lib.rs:271-285 | no error exactly when path, trace id and identity are free of CR and LF and at most 256 bytes; path, then trace id are reported first |
| HttpFraming.BuildRequest | backend/py-sidecar/src/lib.rs:272-311 | the bytes written are the intended lines, each with its CRLF, and a closing CRLF |
| HttpFraming.RequestFraming | backend/py-sidecar/src/lib.rs:291-311 | splitting the request at CRLF gives exactly the intended lines, and its first blank line is its end |
| HttpFraming.RequestReadsBack | backend/py-sidecar/src/lib.rs:291-311 | a server that splits the request at CRLF and each line at its first colon finds the request line and, under each header name, the value meant for it, once, and no other field |
| HttpFraming.SeparatorAfterLines | backend/py-sidecar/src/lib.rs:333-338 | the first CRLFCRLF after non-empty lines is the end of the head, whatever bytes follow |
| HttpFraming.ResponseRoundTrip | backend/py-sidecar/src/lib.rs:333-359 | every well-formed response within the limit yields its status and exact body, blank lines in the body included |
| HttpFraming.ParseSucceedsIff | backend/py-sidecar/src/lib.rs:318-359 | parsing succeeds exactly on at most 1,048,576 bytes with a first CRLFCRLF and UTF-8 up to it, and then everything behind it is the body; an oversized response and one without a head end are told apart |
| HttpFraming.StatusExactly | backend/py-sidecar/src/lib.rs:345-357 | the status is the 16-bit number that is the second word of the first line, and 502 if and only if there is no such number or it says 502 |
| HttpFraming.SecondWordMeans | backend/py-sidecar/src/lib.rs:349-352 | a word is found second exactly where white space says so |
| LiveAdmission.WebSocketState.ValidateWsConnection | backend/api/src/live.rs:121-218 | the answer is the verdict of the next row; a rejection leaves permits and counts unchanged, a permit takes one of each |
| LiveAdmission.Verdict | backend/api/src/live.rs:121-218 | a permit if and only if the origin matches, the token's user, or without a token the cookie's, exists where auth is configured, Redis is configured, a permit is free and that user is below the maximum; the permit is that user's; each failing condition gives its own rejection, in that order |
| LiveAdmission.WebSocketState.DropUserGuard | backend/api/src/live.rs:316-327 | the user's count drops by one, and its entry goes when it reaches zero |
| LiveAdmission.WebSocketState.DropCounterAndPermit | backend/api/src/live.rs:302-308 | counter and permit are given back |
| LiveAdmission.StepConserves | backend/api/src/live.rs:182-218 | every step of every connection keeps permits, counter and all user counts in balance |
| LiveAdmission.AdmissionConserved | backend/api/src/live.rs:182-345 | in every interleaving permits held are exactly the open connections, the counter exactly the running ones, each user's validated connections ≤ count ≤ maximum, equal exactly while no upgrade of the user failed, and no entry is zero |
| LiveAdmission.GuardsDecrementExactly | backend/api/src/live.rs:302-327 | neither the counter's decrement wraps nor the count's saturates |
| LiveAdmission.AdmittedExactlyBelowMaximum | backend/api/src/live.rs:197-218 | a user is admitted if and only if validated connections plus failed upgrades are below the maximum; a refusal changes nothing |
| LiveAdmission.QuiescentServer | backend/api/src/live.rs:182-345 | with all connections gone every permit is back and a user's count is the number of failed upgrades |
| LiveAdmission.HandshakeAsSteps | backend/api/src/live.rs:182-218 | the sequential handshake is the interleaved steps run in a row, for the user it is permitted for, and taken back in full when the user has too many |
| LiveAdmission.FailedUpgradesLockOut | backend/api/src/live.rs:227-254 | a user whose failed upgrades fill the maximum is never admitted again, in any continuation |
| LiveAdmission.LockOutIsReached | backend/api/src/live.rs:227-254 | that many failed upgrades in a row lock a user out with no connection open |
| HealthCache.DependencyCache.FastPath | backend/api/src/health.rs:161-165 | a cached value exactly while fresh |
| HealthCache.DependencyCache.CheckedProbe | backend/api/src/health.rs:167-193 | a probe exactly when stale, cached with its completion time; otherwise the cached value and no change |
| HealthCache.DependencyCache.HealthValue | backend/api/src/health.rs:159-194 | the two sections in a row |
| HealthCache.FreshExactly | backend/api/src/health.rs:14-22 | a result is served for less than 1 s if it is "ok" and less than 2 s otherwise |
| HealthCache.StepKeepsInv | backend/api/src/health.rs:159-194 | every read, lock and completion keeps one writer, spaced probes and every answer backed by a probe |
| HealthCache.SingleFlight | backend/api/src/health.rs:166-173 | for any number of callers at most one probe is in flight |
| HealthCache.AnswersAreRecent | backend/api/src/health.rs:278-311 | every returned value was probed by its caller, or its probe completed less than 1 s before if it is "ok" and less than 2 s otherwise |
| HealthCache.ProbesAreRateLimited | backend/api/src/health.rs:278-311 | among probes starting within T at most 1 + ⌊T / 1 s⌋, and each waits out the previous result's lifetime, 1 s when ok and 2 s otherwise |
| HealthCache.ProbesPerRun | backend/api/src/health.rs:206-235 | a run of length T starts at most 1 + ⌊T / 1 s⌋ probes |
| HealthCache.RateBoundIsReached | backend/api/src/health.rs:14-22 | n seconds can hold n + 1 probes |
| HealthCache.CallAsSteps | backend/api/src/health.rs:159-194 | a lone call is a read, or a read, a lock and a completion, of the interleaved machine |
| Reconnect.BackoffForAttempt | frontend/src/lib/live.ts:21-24 | the delay is at least 0 and below the attempt's cap, itself at most 30 s |
| Reconnect.CapMonotone | frontend/src/lib/live.ts:21-24 | the cap doubles from 500 ms up to attempt 6 and is 30 s from 7 on |
| Reconnect.CapDoubles | frontend/src/lib/live.ts:21-24 | 500 ms for the first retry, doubled up to the sixth, 30 s from the seventh on |
| Reconnect.EveryDelayPossible | frontend/src/lib/live.ts:21-24 | full jitter: every delay from 0 up to the cap can come out |
| Reconnect.FinalExactly | frontend/src/lib/live.ts:127-135 | a close is final if and only if its code is 1003, 1008, 1009, 1011 or 1015 or its reason says 403, 404, forbidden, refused or not found, in any case, with any blanks inside the last |
| Reconnect.LiveStream.constructor | frontend/src/lib/live.ts:44-173 | the first connection attempt, with nobody listening yet |
| Reconnect.LiveStream.ScheduleReconnect | frontend/src/lib/live.ts:65-81 | gives up at ten retries, otherwise announces and arms the timer, also when a listener closes in between |
| Reconnect.LiveStream.Connect | frontend/src/lib/live.ts:83-99 | a socket, or a scheduled retry when the constructor throws, or nothing once closed |
| Reconnect.LiveStream.OnClose | frontend/src/lib/live.ts:123-145 | offline on a final close, otherwise a retry |
| Reconnect.LiveStream.Close | frontend/src/lib/live.ts:153-165 | timer cleared and socket let go |
| Reconnect.SocketOrTimer | frontend/src/lib/live.ts:45-165 | in every event sequence never both a socket and a pending timer, and the pending delay is within its attempt's range |
| Reconnect.NeverStuck | frontend/src/lib/live.ts:45-165 | in every event sequence a stream that is not closed has a socket or a timer, or has gone offline |
| Reconnect.DropExactly | frontend/src/lib/live.ts:123-145 | a drop goes offline if it is final or ten retries are used up, and otherwise announces and arms the next retry within its cap; nothing else changes |
| Reconnect.RetryExactly | frontend/src/lib/live.ts:77-99 | a timer makes one new socket; a constructor that throws counts as a drop |
| Reconnect.OpenRenewsRetries | frontend/src/lib/live.ts:101-104 | after every open, in every reachable state, ten further retries are made |
| Reconnect.CloseSilences | frontend/src/lib/live.ts:153-165 | after a close no timer and no socket is left or ever made, whatever handlers still run |
| Reconnect.TenAttemptsBetweenOpens | frontend/src/lib/live.ts:65-81 | at most ten reconnect attempts from the start or an open to the next open |
| Reconnect.OfflineOnceAndForAll | frontend/src/lib/live.ts:67-71 | offline is announced at most once, and after it nothing is announced or constructed |
| Reconnect.ClosedForGood | frontend/src/lib/live.ts:153-165 | once closed, even from inside a notification, no socket is ever constructed and neither a retry nor offline is announced |
| Reconnect.CloseInsideNotice | frontend/src/lib/live.ts:73-80 | a close from inside the reconnecting notice leaves a timer that fires to no effect |
| Reconnect.GivesUpAfterTenRetries | frontend/src/lib/live.ts:65-81 | against a peer that drops every connection ten retries are made and the eleventh failure goes offline |

## Left out

- SlidingWindow.RateLimiter.RateLimitCheck: an unreachable Redis; for it and the counts, a clock before one window past the epoch, where the unsigned subtraction would underflow; and scores beyond the 53 bits of a Lua number.
- Sessions.SessionClient.SessionGet: session JSON is a value, so a stored text that does not parse is not modelled; nor is a poisoned lock.
- SessionRuns.BulkDestroyIsExact: failing commands of a bulk destroy, which `Sessions.BulkDestroyUnderFaults` covers for an undisturbed run; overlaps are the subject of `BulkDestroyOrder`.
- NonceReplay.SidecarWorker.ValidateHmac: the header's number is given and not negative, so Python's wider integer syntax is not modelled.
- NonceReplay.SignedRequestsPass: HMAC is an arbitrary function of secret and payload; header whitespace trimmed in transport is not modelled.
- Blacklist.AuthMiddleware: header, token and cookie parsing, the CSRF comparison and the session lookup are inputs of the decision.
- Blacklist.Logout: the session part of a logout (`Sessions`) and the cookies it clears.
- CursorCodec.ParseOfUuidText: braced and URN forms of a UUID count as garbage; the server only issues the canonical form.
- Pagination.PageSpec: the query is a function of the table's value, not assembled as text; titles, bodies and updates of them do not appear, nor does the input validation of create and update.
- SidecarRetry.DoRequest: the replacement characters that stand for bytes of an error body that are no UTF-8.
- HttpFraming.ResponseRoundTrip: only ASCII white space separates words of the status line.
- HealthCache.SingleFlight: a caller cancelled while holding the lock.
- LiveAdmission.WebSocketState.ValidateWsConnection: token and session lookups are inputs; event forwarding, idle timeout and shutdown only end a connection.
- Reconnect.BackoffForAttempt: real numbers instead of floating point.
- Reconnect.LiveStream.OnClose: JavaScript white space beyond ASCII in a close reason.
- `session_refresh`, which extends a session and not its index; nothing calls it.
- Password-reset tokens, which are read and deleted in separate steps.
- Redis eviction, failover and replication; task cancellation.
- Password hashing, token signing, id and token generation: fresh values and arbitrary functions.
- `cache_invalidate_pattern`, object storage, OAuth provider calls, publish and subscribe: clients of services.
- Routing, metrics, tracing, environment parsing, pages and deployment files: nothing to prove.
