# Verified model of the microservices platform's stateful cores

This project models the parts of the platform whose correctness depends on state, time and interleaving, and
proves what they promise: the gateway's rate limiter, circuit breaker, retrying dispatch and JWT keyring with its
rotation; keyset pagination in the task service; refresh tokens, password reset and account lockout in the user
service; the event path from Service Bus to a browser; the chaos controller's event hub and simulated cluster; and
tag removal in task text. `dafny verify dfyconfig.toml` checks everything.

## How it is built

* Objects that change their fields are classes (`InMemoryStore`, `Store`, `RateLimiterMiddleware`,
  `CircuitBreaker`, `Sessions`, `Broadcaster`, `Hub`, `Queue`, `Cluster`). Each method is proved equal to a function
  on values, and the theorems are about those functions over whole runs. `Hub` and `Cluster` carry their theorem as
  the class invariant `Valid()` instead; `Drive` and `RunAll` run arbitrary scripts on them.
* Runs with several requests, replicas or workers are step systems: one step is what happens between two awaits.
* The clock is a parameter and never goes back within a run. Outages, lost replies, expiring locks and crashes are
  steps or flags. MACs are idealised: a token verifies under a secret exactly when it was signed with it.
* `Cluster` keeps a ghost record of what anybody sees during the pauses of an action, so contracts speak of the failing
  phase as well as of the end.
* A run is a list whose outermost element is the latest event (`Log`, `Trace`), so every moment of a run is one of
  its parts and a theorem about all runs is a theorem about all moments.

| file | models |
|---|---|
| `sliding_window.dfy`, `rate_limiter.dfy`, `rate_middleware.dfy` | the sliding window log, both limiter stores, the middleware |
| `circuit_breaker.dfy`, `proxy.dfy` | the breaker, dispatch with retry, many dispatches at once |
| `pagination.dfy` | the list query, the page split, the walk along next_cursor |
| `redis_client.dfy`, `auth_protocol.dfy` | the key store and its routes, login, refresh, logout and password reset interleaved |
| `keyring.dfy`, `rotation.dfy` | the keyring parser, key selection, rotation over replicas |
| `broadcaster.dfy`, `streams.dfy`, `consumer.dfy` | per-user fan-out, one connection's view of a run, the bus consumer |
| `event_hub.dfy`, `mock_cluster.dfy` | the chaos controller's hub and simulated cluster |
| `text.dfy`, `sanitizer.dfy` | string operations, tag removal and the title validator |
| `wrappers.dfy`, `sets.dfy` | the option type, sizes of sets |

## Where code and documentation disagree

The model follows the code. Each difference is stated by a lemma or a method contract:

* **Pagination.** The module text says the cursor is the last row returned; the code takes the first row *not*
  returned, and the filter is strict, so that row appears on no page. `FullWalk` gives the exact result and shows
  that a walk is complete if and only if everything fits on one page; `FullWalkDocumented` proves completeness for
  the documented cursor.
* **Circuit breaker.** "One probe request" in HALF_OPEN is not enforced: a request is admitted exactly when the
  reports so far do not mean OPEN (`AdmittedIff`), so every request is a probe until one reports
  (`EveryRequestProbes`); `TwoProbes` is a run with two at once.
* **Sliding window.** Redis drops the entry standing exactly at the window's edge, so the limit holds in windows open
  at one end; `ClosedWindowExact` says for which closed intervals it holds, `TwoBudgets` what a longer one can hold.
* **Retry-After.** A client that waits exactly the announced window can be refused again by the in-memory store,
  which keeps entries at the window's edge, never by Redis, which drops them: `RetryAfterExact` has the condition,
  `RetryAfterRefused` an instance.
* **X-RateLimit-Reset** is called a conservative upper bound, but it is cut down to a whole second: `ResetExact` says
  exactly when a client returning at it is admitted, `ResetRefused` is a client refused by both stores, and
  `ResetPlusOne` shows that one second more is enough.
* **X-RateLimit-Remaining** is a promise after answered checks, whatever else happens (`RemainingIsPromise`,
  `NextRequestsAllowed`); on Redis it is one only then, or when nothing can be reported (`PromiseExact`,
  `OutagePromisesTooMuch` is an instance).
* **Sanitiser.** "`<` and `>` are removed entirely" is false for either: `BracketsSurvive` says exactly when each
  stays, `LoneOpenKept` and `LoneCloseKept` are instances.
* **Keyring.** The module text says secrets contain no `=` and that this is enforced; only the first `=` of an entry
  matters (`FirstEqualsDecides`), and a ring with further ones is accepted (`EqualsInSecret`).
* **Password reset.** The route's text promises to revoke all refresh tokens of the account; an account is without a
  session afterwards if and only if it had none before (`ResetRevokesIff`), and a token in other hands outlives any
  number of resets (`TokenOutlivesResets`, `SessionSurvivesReset`).
* **Refresh during an outage.** The route's text promises 503; without a client it answers 401, and 500 when the
  call fails (`RefreshToken`).
* **Lockout.** A comment says failures count even while locked; the code does not count them (`Login`).

## Model

| member | source | states |
|---|---|---|
| SlidingWindow.KeyNamesDiffer | services/api-gateway/app/middleware/rate_limiter.py:242-263 | two different budgets never share a store key, whatever the address or user id contains |
| InMemory.InMemoryStore.GetBucket | services/api-gateway/app/middleware/rate_limiter.py:141-150 | a known key moves to the recent end with its bucket; a new key evicts the oldest only when the dict is full |
| InMemory.InMemoryStore.CheckAndIncrement | services/api-gateway/app/middleware/rate_limiter.py:152-161 | the popleft loop leaves the specified bucket plus this request; limited exactly when the count exceeds the limit |
| InMemory.OrderIsRecency | services/api-gateway/app/middleware/rate_limiter.py:141-150 | in every run the dict order is the recent end of the list of all keys by last use |
| InMemory.HeldIff | services/api-gateway/app/middleware/rate_limiter.py:141-150 | a bucket is held if and only if fewer than MAX_TRACKED_IPS distinct other keys followed its last request; never more keys than that are held |
| InMemory.FewKeysHeld | services/api-gateway/app/middleware/rate_limiter.py:65-65 | with at most MAX_TRACKED_IPS keys the store holds exactly the keys requested, each with the bucket a dict without eviction would hold |
| InMemory.PopCounts | services/api-gateway/app/middleware/rate_limiter.py:157-158 | on an ordered run popping from the left leaves exactly the remembered entries at or above the cutoff |
| InMemory.HeldLikeUnbounded | services/api-gateway/app/middleware/rate_limiter.py:141-150 | a key never evicted is answered as by a dict without eviction, whatever became of the other keys |
| InMemory.BucketIsHistory | services/api-gateway/app/middleware/rate_limiter.py:152-160 | pruning request by request leaves what pruning everything since the bucket was created at once would |
| InMemory.CountIsRemembered | services/api-gateway/app/middleware/rate_limiter.py:141-161 | in every run the count is the number of requests, rejected ones included, in the closed window ending now and since the bucket was last created |
| InMemory.CountIsLogCount | services/api-gateway/app/middleware/rate_limiter.py:155-161 | for a key held since its first request the count is the number of all its requests in the closed window ending now |
| InMemory.WindowSafe | services/api-gateway/app/middleware/rate_limiter.py:152-161 | for such a key, in every run no closed interval one window long holds more than `limit` admitted requests |
| RedisStore.Store.CheckAndIncrement | services/api-gateway/app/middleware/rate_limiter.py:103-126 | the transaction's effect and count; an unreachable server changes nothing and admits |
| RedisStore.SetIsWindow | services/api-gateway/app/middleware/rate_limiter.py:114-120 | the sorted set always holds exactly the key's requests younger than a window before its last; the expiry is window + 1 later |
| RedisStore.CountIsLogCount | services/api-gateway/app/middleware/rate_limiter.py:114-122 | the count is the number of requests in the half-open window; EXPIRE never loses one |
| RedisStore.WindowSafe | services/api-gateway/app/middleware/rate_limiter.py:12-17 | any number of replicas together admit at most `limit` requests per key in every window open at either end |
| RedisStore.ClosedWindowExact | services/api-gateway/app/middleware/rate_limiter.py:111-116 | in every run, for every limit, at most `limit` requests are admitted in each interval closed at both ends if and only if the interval is shorter than the window |
| RedisStore.TwoBudgets | services/api-gateway/app/middleware/rate_limiter.py:111-116 | for every limit a run whose closed window holds two full budgets |
| RedisStore.MemoryIsStricter | services/api-gateway/app/middleware/rate_limiter.py:116-157 | on one trace everything the in-memory store admits, Redis admits |
| RateMiddleware.RateLimiterMiddleware.GetStore | services/api-gateway/app/middleware/rate_limiter.py:196-224 | the store is chosen once: Redis, with whatever the other replicas have put there, if configured and reachable on the first request, else memory for good |
| RateMiddleware.RateLimiterMiddleware.Dispatch | services/api-gateway/app/middleware/rate_limiter.py:226-303 | exempt paths touch nothing; otherwise both budgets are charged before deciding, the ping and each of the two calls succeeding, failing or losing its reply on its own; the reset time is the arrival cut to a second plus the window |
| RateMiddleware.Budgets | services/api-gateway/app/middleware/rate_limiter.py:240-244 | login and registration have an address bucket and limit of their own, every other path shares the general ones |
| RateMiddleware.MemoryDecidesAnonymous | services/api-gateway/app/middleware/rate_limiter.py:152-161 | on the in-memory store, after any ordered run, an anonymous request is refused exactly when its address's remembered requests in the closed window, itself included, exceed the limit; it is recorded either way |
| RateMiddleware.MemoryDecides | services/api-gateway/app/middleware/rate_limiter.py:250-273 | the same for an authenticated request and its two budgets |
| RateMiddleware.RedisDecides | services/api-gateway/app/middleware/rate_limiter.py:250-273 | on Redis, after any ordered run of all replicas, a request is refused exactly when an answered check finds its budget's half-open window full; a call that never arrives records nothing |
| RateMiddleware.RemainingIsMin | services/api-gateway/app/middleware/rate_limiter.py:256-303 | limited exactly when an active budget is exceeded, blaming the address first; else the tighter budget is reported with its limit, its scope and what is left, never negative |
| RateMiddleware.OutageAdmits | services/api-gateway/app/middleware/rate_limiter.py:122-126 | only a budget whose check was answered can refuse, and it blames its own scope |
| RateMiddleware.RemainingIsPromise | services/api-gateway/app/middleware/rate_limiter.py:256-303 | after an answered remainder r, as long as each of the two buckets is checked at most r times, every request of that path, address and user is allowed, whatever other buckets see, however the store evicts, whichever calls fail, and even when other requests run between its two checks |
| RateMiddleware.NextRequestsAllowed | services/api-gateway/app/middleware/rate_limiter.py:256-303 | the first r further requests of the client are all answered allowed, with any traffic on other buckets between them |
| RateMiddleware.PromiseExact | services/api-gateway/app/middleware/rate_limiter.py:122-126 | for every configuration, path, caller and fate of the two calls: whatever Redis has seen, a reported remainder of at least one covers the next request, if and only if the calls were answered or leave no remainder to report |
| RateMiddleware.OutagePromisesTooMuch | services/api-gateway/app/middleware/rate_limiter.py:122-126 | an instance: a request whose check failed reports a full budget and the next one is refused |
| RateMiddleware.IdleAdmits | services/api-gateway/app/middleware/rate_limiter.py:39-46 | a client that has idled strictly longer than the window is allowed on either store over any links, and with answered calls finds both budgets full but for the request itself |
| RateMiddleware.RetryAfterExact | services/api-gateway/app/middleware/rate_limiter.py:39-46 | waiting exactly Retry-After: Redis always admits; memory admits if and only if fewer than `limit` of the requests it remembers carried the last timestamp |
| RateMiddleware.RetryAfterRefused | services/api-gateway/app/middleware/rate_limiter.py:157-161 | a concrete client that waits as told and is refused |
| RateMiddleware.ResetExact | services/api-gateway/app/middleware/rate_limiter.py:39-46 | a client returning at X-RateLimit-Reset is admitted by Redis if and only if fewer than `limit` requests came after the second of the announcing request had begun, in memory if and only if fewer than `limit` remembered ones came then or later |
| RateMiddleware.ResetPlusOne | services/api-gateway/app/middleware/rate_limiter.py:246-248 | from one second after the reset on, a client that sent nothing since counts one on either store |
| RateMiddleware.ResetRefused | services/api-gateway/app/middleware/rate_limiter.py:246-248 | a concrete client that returns at its reset and is refused by both stores |
| CircuitBreakers.CircuitBreaker.State | services/api-gateway/app/circuit_breaker.py:76-89 | the reading property and its OPEN to HALF_OPEN move |
| CircuitBreakers.CircuitBreaker.RecordFailure | services/api-gateway/app/circuit_breaker.py:111-132 | one more failure, stamped now; opens from HALF_OPEN or at the threshold |
| CircuitBreakers.CircuitBreaker.RecordSuccess | services/api-gateway/app/circuit_breaker.py:99-109 | back to the fresh breaker from any state |
| CircuitBreakers.BreakerIsItsHistory | services/api-gateway/app/circuit_breaker.py:76-132 | in every run: OPEN iff the failures since the last success reach the threshold and the last is younger than the timeout, HALF_OPEN iff they do and it is not |
| CircuitBreakers.ReadsImmaterial | services/api-gateway/app/circuit_breaker.py:76-97 | reads inserted or removed anywhere change no later answer |
| Proxy.DispatchWithRetry | services/api-gateway/app/routes/proxy.py:163-244 | open circuit: no attempt; otherwise at most 3 (GET) or 1 attempts, the first decisive outcome or else the last, exactly one report of it, none for an uncaught exception; the closing raise is unreachable |
| Proxy.InterleavedDispatches | services/api-gateway/app/routes/proxy.py:163-244 | the same for every dispatch in every interleaving; every report names an ended dispatch of its own service and its last outcome; each service's breaker is a function of its own reports |
| Proxy.LastReply | services/api-gateway/app/routes/proxy.py:196-235 | the reply after which the loop stops completes the dispatch and decides result and report |
| Proxy.ReportMeans | services/api-gateway/app/routes/proxy.py:218-244 | connection errors, timeouts, 502, 503 and 504 are reported as failures, any other answer as a success, an escaping exception not at all |
| Proxy.EndedMeans | services/api-gateway/app/routes/proxy.py:193-244 | a dispatch makes one attempt, or up to three for GET, going on exactly past connection errors, timeouts, 502, 503 and 504; the client gets the last attempt's status, 503 for a connection error, 504 for a timeout |
| Proxy.AdmittedIff | services/api-gateway/app/routes/proxy.py:177-190 | after any run a new request enters flight if and only if the reports about its service do not mean OPEN; else it is rejected without an attempt |
| Proxy.EveryRequestProbes | services/api-gateway/app/circuit_breaker.py:91-97 | once the timeout has elapsed every request is admitted until one reports, whatever else happens meanwhile |
| Proxy.TwoProbes | services/api-gateway/app/circuit_breaker.py:91-97 | a run from the idle system with five failures and, thirty seconds later, two requests at the upstream at once |
| Pagination.PageOf | services/task-service/app/pagination.py:78-89 | a page is the first `limit` matching rows, its cursor the next row, and what then matches starts behind that row |
| Pagination.OrderedDescends | services/task-service/app/routes/tasks.py:348-349 | the ordered query is strictly descending by (created_at, id) and loses no row |
| Pagination.NewestFirst | services/task-service/app/routes/tasks.py:348-349 | the ordered rows come with created_at falling, and id falling among rows of one instant |
| Pagination.MatchingExact | services/task-service/app/routes/tasks.py:327-346 | the query matches exactly the visible rows whose (created_at, id) stands strictly before the cursor |
| Pagination.CutAtNth | services/task-service/app/routes/tasks.py:340-346 | moving the cursor to the nth matching row leaves exactly the rows behind it |
| Pagination.PageOnlyVisible | services/task-service/app/routes/tasks.py:325-333 | with any cursor whatsoever a page holds only rows of the table visible to the caller |
| Pagination.FullWalk | services/task-service/app/pagination.py:78-89 | on a fixed table the walk ends and returns the visible rows minus those at index `limit` modulo `limit` + 1; it is complete if and only if they fit on one page |
| Pagination.FullWalkDocumented | services/task-service/app/pagination.py:17-27 | with the documented cursor the walk returns every visible row exactly once |
| Pagination.NeverTwice | services/task-service/app/routes/tasks.py:303-357 | under any inserts, deletes, filter and limit changes between pages the returned keys are strictly descending |
| Pagination.ReturnedUnlessLookahead | services/task-service/app/routes/tasks.py:320-357 | a row matching throughout a completed walk is returned if and only if it was no page's lookahead row |
| Pagination.CursorResumes | services/task-service/app/routes/projects.py:59-83 | a cursor handed out is never answered 400: items, next cursor and count are those of the page behind its row |
| Pagination.AnswersCollected | services/task-service/app/routes/tasks.py:335-357 | a client following next_cursor text for text receives exactly the rows of the walk by keys |
| Pagination.OnlyOwnTasks | services/task-service/app/routes/tasks.py:325-333 | following list_tasks with any filters over a changing table shows only tasks the caller created or is assigned to |
| Pagination.OnlyOwnProjects | services/task-service/app/routes/projects.py:54-58 | following list_projects over a changing table shows only the caller's own projects, none soft-deleted |
| Pagination.TasksListed | services/task-service/app/routes/tasks.py:327-333 | list_tasks lists every task the caller created or is assigned to, of the given project and status, and nothing else |
| Pagination.ProjectsListed | services/task-service/app/routes/projects.py:54-58 | list_projects lists every active project of the caller and nothing else |
| Pagination.CursorChecked | services/task-service/app/routes/tasks.py:334-339 | 400 exactly for a non-empty cursor that does not decode; none or an empty one starts at the top |
| KeyStore.KeyNamesDiffer | services/user-service/app/redis_client.py:62-67 | the key prefixes keep tokens and counters apart |
| KeyStore.Sessions.ConsumeToken | services/user-service/app/redis_client.py:109-124 | GETDEL: the user id if the token is live, and the token is gone in the same step, also when only the reply is lost |
| KeyStore.Sessions.RecordLoginFailure | services/user-service/app/redis_client.py:158-186 | count plus one; a new counter gets the 900 s expiry, a running one keeps its own |
| KeyStore.Sessions.Login | services/user-service/app/routes/auth.py:205-246 | lockout wins over the password; only wrong passwords of unlocked real accounts count; success clears the counter and stores one token; each of the four calls may be absent or fail on its own |
| KeyStore.Sessions.RefreshToken | services/user-service/app/routes/auth.py:260-273 | the old token is consumed even if the account is unusable or the store then fails; otherwise exactly one successor is stored |
| KeyStore.Sessions.ResetPassword | services/user-service/app/routes/auth.py:442-477 | the password changes exactly for a live reset token of an existing account, the token is gone, and every refresh token of everybody still stands for the same user |
| KeyStore.SerialFailures | services/user-service/app/redis_client.py:137-183 | n serial failures in one window: the counter reads min(n, 10), expiry stays 900 s after the first, locked from the tenth to the end of that window and not longer |
| AuthProtocol.OneTokenPerLogin | services/user-service/app/routes/auth.py:249-283 | in every interleaving of logins, refreshes, logouts, expiry, outages and lost replies each login has at most one live token or reissue in flight, and no token is consumed twice |
| AuthProtocol.ConsumeKeeps | services/user-service/app/redis_client.py:120-124 | the request that finds a live token takes over its family's right, nothing else changes hands, and a request that finds none gets nothing |
| AuthProtocol.SecondUseRefused | services/user-service/app/redis_client.py:18-24 | once consumed, a token is never stored again and no later request with it gets anything, in any interleaving |
| AuthProtocol.LogoutEndsSession | services/user-service/app/routes/auth.py:276-284 | after a logout with a stored token no token of that login and no right to one exists ever again, in any run |
| AuthProtocol.LogoutEndsIff | services/user-service/app/redis_client.py:127-132 | right after a logout nobody holds the login's right if and only if the token was stored or nobody held it |
| AuthProtocol.IssueKeeps | services/user-service/app/routes/auth.py:117-127 | storing the new token moves the right from the reissue in flight to exactly that token |
| AuthProtocol.TokenLifetime | services/user-service/app/redis_client.py:100-106 | an issued token stands for its user for exactly thirty days |
| AuthProtocol.ResetLifetime | services/user-service/app/routes/auth.py:352-362 | a mailed reset token stands for its user for exactly one hour |
| AuthProtocol.ResetOnce | services/user-service/app/redis_client.py:252-258 | a consumed reset token stands for nobody in any run that does not mail it anew |
| AuthProtocol.LostReplyIsLogout | services/user-service/app/redis_client.py:119-124 | a refresh whose reply is lost leaves the same state as a logout with its token |
| AuthProtocol.ResetRevokesIff | services/user-service/app/routes/auth.py:442-477 | after a successful password reset the account has no session if and only if it had none before |
| AuthProtocol.TokenOutlivesResets | services/user-service/app/routes/auth.py:470-477 | over any run, resets included, that does not refresh or log out with a live token itself, the token yields a session of its user exactly until its 30 days are over |
| AuthProtocol.SessionSurvivesReset | services/user-service/app/routes/auth.py:470-477 | a run from the empty store: login, reset of that account, and the old token still refreshes |
| AuthProtocol.LockoutBound | services/user-service/app/routes/auth.py:212-232 | with at most k logins of an account in flight its counter never exceeds 9 + k and always expires 900 s after its first failure |
| AuthProtocol.LoginChecks | services/user-service/app/redis_client.py:137-155 | a login finds the account locked exactly when Redis answers with ten or more failures in a running window |
| AuthProtocol.LockedOut | services/user-service/app/routes/auth.py:212-236 | a login that finds the account locked is never given anything, whatever the password and in any run |
| AuthProtocol.FailuresCounted | services/user-service/app/routes/auth.py:222-232 | while a counter runs it counts every wrong password of an unlocked login to a real account and nothing else, in any interleaving |
| AuthProtocol.FirstFailure | services/user-service/app/redis_client.py:158-186 | a first failure starts the count at one and its 900 s window at that moment |
| AuthProtocol.SuccessClears | services/user-service/app/redis_client.py:189-203 | a successful login clears its account's counter and no other |
| AuthProtocol.LockOpens | services/user-service/app/redis_client.py:137-180 | a counter stands until its window ends and is zero from then on |
| AuthProtocol.WindowNeverExtended | services/user-service/app/redis_client.py:162-180 | over any run in which a counter stays live its expiry never changes, whatever attempts are made |
| Keyring.ParseKeyring | services/api-gateway/app/jwt_keyring.py:45-85 | the parser's outcome: every entry well formed, no kid twice, nothing at all means the fallback key |
| Keyring.Collect | services/api-gateway/app/jwt_keyring.py:56-85 | the loop over the entries computes that outcome, stopping at the first fault |
| Keyring.AcceptedIff | services/api-gateway/app/jwt_keyring.py:56-79 | a text is accepted exactly when every entry is blank or has two non-blank halves around its first '=', and no two entries give one kid |
| Keyring.AcceptedRing | services/api-gateway/app/jwt_keyring.py:56-85 | the ring then holds exactly the pairs the entries give, and without any the fallback key alone |
| Keyring.MalformedEntryFails | services/api-gateway/app/jwt_keyring.py:61-71 | one non-blank entry without '=' or with a blank half fails the whole ring |
| Keyring.VerificationKeyExact | services/api-gateway/app/jwt_keyring.py:101-115 | a token is checked with its own kid's secret, and with that of "default" exactly when it has no kid |
| Keyring.PrintParse | services/api-gateway/app/jwt_keyring.py:28-31 | parsing a printed ring, in any order, returns the ring; secrets may contain '=' |
| Keyring.ClassifyPadded | services/api-gateway/app/jwt_keyring.py:58-67 | whitespace around kid, '=' and secret is immaterial |
| Keyring.FirstEqualsDecides | services/api-gateway/app/jwt_keyring.py:60-76 | an entry reads as the stripped text before and after its first '=', whatever else the secret holds, and is malformed exactly when one of the two is blank |
| Keyring.EqualsInSecret | services/api-gateway/app/jwt_keyring.py:72-76 | an accepted ring whose secret ends in '==' |
| Keyring.OrderImmaterial | services/api-gateway/app/jwt_keyring.py:56-85 | two texts with the same non-blank entries in any order, padding and number of blank entries parse alike, faults included |
| Keyring.RepeatedKidFails | services/api-gateway/app/jwt_keyring.py:77-78 | a repeated kid always fails, wherever the entries stand |
| Keyring.ParsedNonEmpty | services/api-gateway/app/jwt_keyring.py:81-85 | a successful parse is never empty |
| Rotation.RotationSafe | services/api-gateway/app/jwt_keyring.py:10-26 | under the rules "add everywhere before switching, wait out before removing", for any number of rotations in any interleaving of restarts, every unexpired token verifies on every gateway and a dropped kid has only expired tokens |
| Rotation.SignExact | services/user-service/app/routes/auth.py:91-114 | a token bears the current kid, that kid's secret and its issue time plus the lifetime |
| Rotation.VerifyExact | services/api-gateway/app/middleware/auth.py:102-118 | a token is accepted exactly when its kid, or "default" for none, is in the ring with its secret and it has not expired |
| Rotation.ChoreographySafe | services/api-gateway/app/jwt_keyring.py:17-26 | the documented day-by-day choreography obeys those rules restart by restart, so no unexpired token ever fails |
| Rotation.RemovedKidRejected | services/api-gateway/app/jwt_keyring.py:101-115 | nothing under a removed kid is accepted, nor a token without kid once "default" is removed |
| Rotation.ChoreographyEnds | services/api-gateway/app/jwt_keyring.py:25-26 | every gateway restarted on Day 4 ends with the new key alone: whatever bears the old kid is refused, and with "default" gone every token without a kid |
| Rotation.WaitIsTight | services/api-gateway/app/jwt_keyring.py:24-26 | for every lifetime a legal run in which dropping the old key d seconds after its last use refuses a live token if and only if d is less than the lifetime |
| Rotation.IssueKeeps | services/user-service/app/routes/auth.py:91-114 | signing with the current kid keeps every live token verifiable everywhere |
| Rotation.RestartGatewayKeeps | services/api-gateway/app/jwt_keyring.py:24-26 | dropping a waited-out kid keeps every live token verifiable |
| Broadcasting.Broadcaster.Broadcast | services/notification-service/app/broadcaster.py:71-137 | the event goes to every connection of every target with room, to no other, and no bucket is created or emptied |
| Broadcasting.Broadcaster.Subscribe | services/notification-service/app/broadcaster.py:153-157 | a fresh connection id with an empty queue |
| Broadcasting.Broadcaster.Next | services/notification-service/app/broadcaster.py:164-173 | the oldest queued event, or a keepalive |
| Broadcasting.Broadcaster.Unsubscribe | services/notification-service/app/broadcaster.py:176-182 | the connection goes, and its user's bucket with the last one |
| Streams.StreamFaithful | services/notification-service/app/broadcaster.py:86-187 | sent then queued events of an open connection are exactly, in order, those aimed at its user since connecting whose own put found room; of a closed one the sent events are a beginning of them; at most 100 wait |
| Streams.OpenExactly | services/notification-service/app/broadcaster.py:153-182 | a connection is opened by its own subscription and ended by its own unsubscription, and by nothing else, whatever other connections of the user do |
| Streams.LossesAreOverflows | services/notification-service/app/broadcaster.py:104-132 | of the events aimed at the user exactly those that met a full queue are missing, none otherwise |
| Streams.DeliveredTo | services/notification-service/app/broadcaster.py:104-132 | with distinct targets each open connection of a target gets one put and every other queue none |
| Streams.NoEmptyBucket | services/notification-service/app/broadcaster.py:176-182 | in every run no user's bucket is left empty |
| Consumer.CollectTargets | services/notification-service/app/consumer.py:39-56 | the loop returns the non-empty ids once each, in order of first appearance |
| Consumer.DedupedExact | services/notification-service/app/consumer.py:39-56 | no duplicates, and exactly the ids present |
| Consumer.DedupedOrder | services/notification-service/app/consumer.py:39-56 | the ids stand in the order of their first appearance |
| Consumer.TargetsAreParties | services/notification-service/app/consumer.py:150-196 | the targets of a handled event are exactly its creator and assignee where present, each once; of any other event nobody |
| Consumer.ProcessMessage | services/notification-service/app/consumer.py:115-144 | broadcast happens exactly when handler and acknowledgement succeed; otherwise the message is abandoned and nothing is sent |
| Consumer.EndToEnd | services/notification-service/app/consumer.py:115-144 | over any redeliveries, expired locks, lost replies and crashes each message is broadcast at most once, and a connection's stream holds, each at most once, only handled messages naming its user; while open it is exactly those broadcast since it connected that found room |
| Consumer.SettledAccounted | services/notification-service/app/consumer.py:128-143 | over any run each message the bus settles is exactly one of: broadcast once, in the hands of the one worker about to broadcast it, lost to one crash or lost reply after settling |
| Consumer.Redelivered | services/notification-service/app/consumer.py:140-143 | a failing worker that holds the lock, and an expired lock, make the message available again |
| EventHub.Hub.Subscribe | services/chaos-controller/app/events.py:42-45 | a new empty queue that starts at the current end of the published events |
| EventHub.Hub.Publish | services/chaos-controller/app/events.py:50-71 | every subscriber with room gets the event, every full one is dropped untouched; every queue ever made stays a gap-free stretch of the published events, up to the end for registered ones, at most 1000 waiting |
| EventHub.Hub.Next | services/chaos-controller/app/events.py:73-86 | events leave in order, also from a dropped queue, and the stretch stays gap-free |
| EventHub.Hub.Unsubscribe | services/chaos-controller/app/events.py:47-48 | the queue's stretch ends here, still gap-free |
| EventHub.Drive | services/chaos-controller/app/events.py:42-86 | for every script of subscribe, publish, read and unsubscribe, what a client read plus what waits for it is exactly what was published from its subscription to the end of its registration; how much waits and who is still registered follow from the script: only the client's own unsubscribe or an event finding 1000 unread ones ends a registration |
| MockCluster.Cluster.Ambient | services/chaos-controller/app/cluster.py:188-199 | a tick drifts only the metrics of healthy services |
| MockCluster.TickExact | services/chaos-controller/app/cluster.py:193-199 | a tick moves each metric of a healthy service by its noise, cut to at least 20 ms, at least 10 rps and 0 to 0.01 errors |
| MockCluster.Cluster.KillPod | services/chaos-controller/app/cluster.py:248-347 | seen from outside: the first pod terminating, latency, errors and load of the failure; then one ready pod in place of the first and exactly the metrics from the moment of failure, whatever ambient ticks fall between |
| MockCluster.Cluster.CpuPressure | services/chaos-controller/app/cluster.py:352-392 | two more ready pods |
| MockCluster.Cluster.MemoryLeak | services/chaos-controller/app/cluster.py:705-746 | latency up by 1.3, then unhealthy; finally pod count conserved, latency as before the leak |
| MockCluster.Cluster.DiskFull | services/chaos-controller/app/cluster.py:859-895 | errors at 0.3, then unhealthy; finally pod count conserved, error rate as before the disk filled |
| MockCluster.Cluster.SpotReclaim | services/chaos-controller/app/cluster.py:1002-1033 | one gateway pod replaced, count conserved |
| MockCluster.Cluster.RegionOutage | services/chaos-controller/app/cluster.py:496-544 | at the pause every service is down with every other pod struck; then n pods become max(desired, n / 2 rounded down), latency and rps exactly as before |
| MockCluster.Cluster.NetworkPartition | services/chaos-controller/app/cluster.py:401-450 | at the pauses: errors 0.95 and latency 30 s, then exactly the service from before the partition |
| MockCluster.Cluster.ExpireJwt | services/chaos-controller/app/cluster.py:453-493 | at the pause the gateway is unhealthy with errors 0.3; it ends exactly as it began |
| MockCluster.Cluster.DbFailure | services/chaos-controller/app/cluster.py:620-660 | at the first pause both services are unhealthy with errors 0.45 and 3.5 times the latency; when healed exactly as before |
| MockCluster.Cluster.CertExpiry | services/chaos-controller/app/cluster.py:753-782 | the gateway goes unhealthy with errors 0.85 and ends exactly as it was the moment the certificate expired |
| MockCluster.Cluster.CascadingFailure | services/chaos-controller/app/cluster.py:812-853 | pause by pause: the user service dies, the task service degrades, the gateway shows errors; then latency and load come back exactly and the error rates end at 0.001 |
| MockCluster.Cluster.SecretLeak | services/chaos-controller/app/cluster.py:1100-1131 | the user service is seen unhealthy and ends healthy, all pods kept |
| MockCluster.HalfSurvive | services/chaos-controller/app/cluster.py:510-538 | striking every other pod leaves half, rounded down, ready and distinct |
| MockCluster.ReplacementConserves | services/chaos-controller/app/cluster.py:297-330 | append-then-filter-by-name conserves the count if and only if the new name differs from the target's |
| MockCluster.Cluster.RunAll | services/chaos-controller/app/cluster.py:214-222 | after any queue of the 23 actions mixed with ambient ticks every service is healthy with all pods ready, and its pod count is exactly what the scale-ups and outages in the queue make of the initial one |
| Sanitizer.StripHtmlSound | services/task-service/app/schemas.py:26-33 | the result has no tag, is trimmed and is a subsequence of the input; None stays None |
| Sanitizer.StripHtmlIdempotent | services/task-service/app/schemas.py:29-33 | applying it twice is applying it once |
| Sanitizer.StripHtmlBySegments | services/task-service/app/schemas.py:29-33 | what is stored is the text cut after every '>', each piece dropped from its first '<', then trimmed |
| Sanitizer.TitleAccepted | services/task-service/app/schemas.py:50-71 | a title is accepted exactly when it has 1 to 500 characters and something but blanks is left of it |
| Sanitizer.SegmentsAgree | services/task-service/app/schemas.py:24-33 | the left-to-right scan equals cutting after every '>' and dropping each piece from its first '<' |
| Sanitizer.BracketsSurvive | services/task-service/app/schemas.py:12-13 | in stored text a '<' remains if and only if no '>' follows it, and a '>' if and only if some piece it ends, cutting after every '>', holds no '<' |
| Sanitizer.LoneCloseKept | services/task-service/app/schemas.py:29-33 | an accepted title that keeps its '>' |
| Sanitizer.TitleStable | services/task-service/app/schemas.py:65-71 | an accepted title is 1 to 500 characters, tag-free and trimmed, and sending it back changes nothing |

## Left out

- InMemory.WindowSafe: assumes the key was held throughout; an evicted key is forgotten by design, and CountIsRemembered gives its exact count.
- RedisStore.CountIsLogCount: assumes a positive window, transactions in timestamp order on one clock, and no failing call; a failing call admits.
- RateMiddleware.RateLimiterMiddleware.Dispatch: the two checks of one request run without another request between them (RemainingIsPromise covers the interleaved case), and no other first request races to choose the store.
- RateMiddleware.ResetExact: its in-memory half takes the store's monotonic clock to read like the wall clock of the header.
- Pagination.CursorResumes: base64, JSON and datetime text are an abstract encode/decode pair that round-trips.
- KeyStore.Sessions.Login: all calls of one request see the same time.
- MockCluster.Cluster.KillPod: pods are values found by name, not shared objects, and new names never collide; ReplacementConserves says what a collision would do.
- MockCluster.Cluster.RunAll: scenario mode, which suspends the lock, is not modelled; the eleven actions that change only metrics, or nothing, are covered as arbitrary assignments to metrics between pauses.
- Keyring.ParseKeyring: all malformed-ring errors are one error value.
- HTTP, FastAPI, httpx, SQLAlchemy, the Azure SDK, telemetry, e-mail and logging: plumbing around the modelled decisions.
- bcrypt, HMAC and JWT encoding, and the `sub` UUID check after verification: cryptography is idealised.
- SSE proxying in the gateway: streaming only, it uses the same breaker calls.
- Upstream resolution by path prefix, the readiness endpoint and the connection counters: single-branch look-ups.
- The live cluster, the scenario runner and the explainers: outside calls and data.
- Idempotent task creation: lookup and background cache write are not atomic, so it gives no clean guarantee.
- Floating-point rounding, jitter in the pauses and clock skew between replicas.
