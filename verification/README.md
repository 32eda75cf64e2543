# FCAM: protocols of the API-key gateway

FCAM lends a pool of upstream API keys to many clients. This project models the stateful protocols at its
centre and proves what they promise over every run: key selection and the forwarding loops, the life of a key
row, the failure breaker, idempotent replay, the token buckets and lease managers in their in-memory and Redis
forms, client admission, sticky resource bindings, bulk key import, and the upkeep of cached credits.

Objects that the program mutates are classes with the same fields (`Forwarder`, `KeyPool`, `ConcurrencyManager`,
`Lease`, the limiters, `IdempotencyStore`, `BindingTable`, `CreditMonitor`). Their methods follow the source's
loops and branches and are proved against functions on values; the properties of whole runs are lemmas about
those functions. Datetimes are whole microseconds, the source's monotonic clocks and token counts are reals.
What the outside world does (clocks, upstream answers, decryption, commits that fail, other requests and
administrators) is a parameter ranging over everything possible. Every lemma carries `{:induction false}`: proofs
are spelled out, and none rests on automatic induction.

| module | source |
|---|---|
| `RateLimit` | app/core/rate_limit.py |
| `Concurrency` | app/core/concurrency.py |
| `Idempotency`, `RecordIds` | app/core/idempotency.py |
| `Keys`, `KeyPool`, `Quota` | app/core/key_pool.py, the key row of app/db/models.py |
| `Lifecycle` | every write to a key row: key_pool.py, forwarder.py, credit_fetcher.py, control_plane.py |
| `Breaker`, `Forwarding` | app/core/forwarder.py |
| `ResourceBinding`, `Gateway` | app/core/resource_binding.py, app/api/firecrawl_v2_compat.py |
| `Admission`, `Clients`, `Requests` | app/api/deps.py, and its use in app/api/data_plane.py |
| `KeyImport`, `Text` | app/core/key_import.py, the import endpoint of app/api/control_plane.py |
| `Pricing`, `Credits`, `CreditRefresh`, `Calendar` | app/core/credit_estimator.py, forwarder.py, credit_refresh.py, credit_fetcher.py |

## Where the code is weaker than one would expect

Each of these promises fails on some runs. For each there is a concrete failing run and the exact condition for the
promise to hold.

- A selected key can have most of its cooldown left. The pool reads `cooldown_until` only behind a cooling or
  failed status, and three kinds of write replace that status without clearing it: consuming the last of the quota,
  lowering the quota below today's usage, and enabling a key switched off while cooling. In every reachable table the
  promise "whenever selectable, less than one second is left" holds on exactly the rows whose status goes with their
  cooldown, or whose quota is not positive and so never lets them be selected
  (`Lifecycle.CooldownHonouredExactly`). A write on a row of the first kind breaks it if and only if it is one of those
  three and the quota then in force, the patch's or the row's, is none or positive (`Lifecycle.BreaksThePromiseExactly`; `Lifecycle.CooldownCanBeForgotten` is a
  run from the empty table). For the requests of the pool loop: `Forwarding.PoolSendHonoursCooldown`.
- Two starts for one idempotency key need not be more than the lifetime apart, insert to insert: the stored expiry
  counts from the caller's clock reading. For callers whose insert follows that reading by a given stall, the promise
  holds in all runs if and only if the stall is zero (`Idempotency.SpacingHoldsExactly`); the least distance is the
  lifetime plus one tick minus the stall, never below zero, in every run and sharply (`Idempotency.GapsAreLong`,
  `Idempotency.LeastGapHappens`).
- A forward can send on a key that is switched off. The pinned loop checks the key once, before its first attempt, and a
  retry does not look again (`Forwarding.SwitchedOffBetweenAttempts`); the pool loop checks it at selection
  (`Forwarding.SwitchedOffAfterSelection`). A pinned request meets an inactive or missing key if and only if other
  requests' and administrators' steps during the call have left it so (`Forwarding.PinnedMeetsDormantExactly`), a pool
  request if and only if such steps since its selection have (`Forwarding.PoolMeetsDormantExactly`).
- A sticky status call can leave its key between the two paths (`Gateway.PinLostBetweenPaths`): the fallback forward
  selects from the pool if and only if others' steps up to then have made the pin invalid
  (`Gateway.ForwardWithFallback`, `Gateway.Status`); steps that neither switch the key off, nor purge it, nor reassign it
  never do (`Gateway.KeptPinsHold`).
- A stored response can end up in another start's record. `complete` finds the record by its id alone, and SQLite gives a
  deleted last record's id to the next one (`RecordIds.IdComesBack`). A completion goes astray if and only if its own
  record has been deleted and its id given again (`RecordIds.MisdirectedExactly`). A run without such completions is a run
  with fresh ids, so all results about replays hold of it (`RecordIds.AimedRunsAreFresh`); one that goes astray into an
  unexpired record makes a wrong replay possible (`RecordIds.WrongReplayFollows`).
- Redis and in-memory leases part once leases outlive their TTL: after any run without overdue leases, the next acquire
  is decided differently if and only if the unexpired leases leave room and the held ones do not
  (`Concurrency.OverdueLeasesTellThemApart`; `Concurrency.HeldForItsTTL` is such a run for every TTL); before that they decide alike (`Concurrency.RedisMatchesMemory`).
- A client can use `daily_quota + max_concurrent - 1`, and no more (`Admission.BoundIsAttained`,
  `Admission.UsageIsBounded`).
- With threshold T, the number of failures in a window's length that forces a mark is max(2T - 2, 1), and one
  fewer does not (`Breaker.SpanForcesMark`, `Breaker.EnoughIsSharp`).

## Model

| member | source | states |
|---|---|---|
| RateLimit.TokenBucketRateLimiter.Allow | app/core/rate_limit.py:24-48 | One call changes only its own bucket, to what the pure bucket step leaves, and answers as that step does; a non-positive rate changes nothing. |
| RateLimit.WindowBound | app/core/rate_limit.py:24-48 | After any history, at most R + R*d/60 calls for a key are allowed within any d seconds at fixed rate R. |
| RateLimit.BurstIsServed | app/core/rate_limit.py:30-44 | The bound is met: a fresh bucket serves R calls at one instant. |
| RateLimit.TokensStayInRange | app/core/rate_limit.py:36-48 | In every run, with whatever rates, a bucket holds between 0 and the largest rate used on it. |
| RateLimit.RetryHintIsExact | app/core/rate_limit.py:38-48 | A denied caller is told the first whole second k, from 1 on, by which k*R/60 makes up a token with what is left; a call then on the untouched bucket is allowed, and none before. |
| RateLimit.RedisTokenBucketRateLimiter.Allow | app/core/rate_limit.py:51-127 | The script, its EXPIRE and the guard: a call is one step of the run model in which exactly the hashes at least 120,000 ms old have been dropped. |
| RateLimit.IdleBucketIsFull | app/core/rate_limit.py:51-82 | A bucket idle for 120 s behaves as a missing one at every positive rate. |
| RateLimit.RedisRefinesMemory | app/core/rate_limit.py:51-127 | Over every call sequence and every legal expiry, with rates changing freely, the Redis form gives the same decisions and hints as the never-expiring one. |
| RateLimit.RedisWindowBound | app/core/rate_limit.py:51-127 | On Redis at most R + R*d/60000 calls for a key are allowed within any d milliseconds of a run, whatever expires. |
| RateLimit.RedisHintIsExact | app/core/rate_limit.py:61-82 | The Redis hint is as exact as the in-memory one. |
| Concurrency.Lease.Release | app/core/concurrency.py:24-39 | The first release of a counted lease lowers its key's counter by one and takes it out of the live leases; repeating it does nothing. |
| Concurrency.ConcurrencyManager.TryAcquire | app/core/concurrency.py:47-59 | Denied exactly when the key's live leases have reached a positive maximum; a grant adds one live lease and leaves at most the maximum; every counter stays the number of live leases, and counters and decision are those of the run model. |
| Concurrency.ConcurrencyManager.ReleaseKey | app/core/concurrency.py:61-66 | The counter it finds is positive, so the clamp at zero never fires, and it drops by exactly one. |
| Concurrency.ExpireDropsNothingAlive | app/core/concurrency.py:74-96 | In every run the key-level EXPIRE hides no unexpired lease, and a grant leaves at most the maximum of them. |
| Concurrency.RedisMatchesMemory | app/core/concurrency.py:42-154 | If every lease is released before its TTL, both managers grant and deny alike, call for call. |
| Concurrency.OverdueLeasesTellThemApart | app/core/concurrency.py:47-88 | After every run without overdue leases, memory decides the next acquire by the leases held and Redis by those unexpired, so they differ exactly when the maximum lies between the two counts. |
| Concurrency.OneOverdueLeaseSuffices | app/core/concurrency.py:74-88 | Once a held lease has reached its TTL, an acquire with the number held as maximum is denied in memory and granted on Redis. |
| Concurrency.HeldForItsTTL | app/core/concurrency.py:74-88 | For every TTL, a lease held for all of it is such a run. |
| Idempotency.IdempotencyStore.StartOrReplay | app/core/idempotency.py:76-180 | A live record is left untouched and decides alone: conflict if and only if its hash differs, in progress if and only if the hash agrees and nothing is stored, replay of r if and only if the hash agrees and r is stored. Otherwise the caller gets a fresh record that lives for the configured seconds, at least one; only this client's expired records disappear. |
| Idempotency.DecisionMeans | app/core/idempotency.py:121-174 | The same of the decision that the interleaved machine makes, with an expired record deciding nothing. |
| Idempotency.UndisturbedCall | app/core/idempotency.py:76-180 | In the interleaved machine, a call whose transactions nobody comes between has the outcome, rows and grants of the sequential call. |
| Idempotency.IdempotencyStore.Complete | app/core/idempotency.py:183-205 | Exactly the caller's record gets the response, and only if it fits; no other record changes. |
| Idempotency.RunsKeep | app/core/idempotency.py:63-205 | The protocol invariant holds after every interleaving of calls, completions, cleanups, retention, purges and time. |
| Idempotency.GrantsAreSpaced | app/core/idempotency.py:63-180 | Two starts for one client and key with no purge between them: the second commits more than the lifetime after the clock reading of the first, whether or not the first ever completed. |
| Idempotency.GapsAreLong | app/core/idempotency.py:95-120 | In every run a start whose insert stalled for d after its clock reading is followed by the next one no sooner than lifetime + 1 - d ticks later, nor before it. |
| Idempotency.LeastGapHappens | app/core/idempotency.py:95-120 | For every lifetime and every stall some run has exactly that distance. |
| Idempotency.SpacingHoldsExactly | app/core/idempotency.py:63-180 | Starts are more than the lifetime apart, insert to insert, in all runs if and only if the first did not stall. |
| Idempotency.ReplaysAreFaithful | app/core/idempotency.py:121-174 | With record ids that do not recur, each replay is the response stored for the start with the same client, key and hash; any other start seen by then had outlived its lifetime, so a different hash gets neither start nor replay while a record lives. |
| Idempotency.StoredNeverChanges | app/core/idempotency.py:183-205 | With record ids that do not recur, no step from a reachable state replaces a stored response. |
| RecordIds.MisdirectedExactly | app/core/idempotency.py:183-205 | With ids as SQLite assigns them, in every run a completion that fits stores into another start's record if and only if its own has been deleted and another has been given its id. |
| RecordIds.AimedRunsAreFresh | app/core/idempotency.py:183-205 | A run without such completions is, state for state, the run with fresh ids, to which the results above apply. |
| RecordIds.WrongReplayFollows | app/core/idempotency.py:121-205 | After one into an unexpired record, a caller asking for that record is answered with the response meant for the other start. |
| RecordIds.IdComesBack | app/core/idempotency.py:63-205 | Failing run for every lifetime: a handler slower than it and the client's next start. |
| KeyPool.Visit | app/core/key_pool.py:86-123 | One turn of the scan settles a row as the pure classification does: daily reset, then cooldown expiry, then quota. |
| KeyPool.FreeMeans | app/core/key_pool.py:26-39 | A key is selectable if and only if it is on, has less than a second left of a cooldown that its status makes count and none in the store, and has used less than its quota since today's stamp. |
| KeyPool.SettledMeans | app/core/key_pool.py:86-123 | Field by field, what the scan leaves of a row: nothing changes on one that is off; any other is stamped with today, keeps its usage only if it was stamped so before, keeps a running cooldown or loses an elapsed one, and has the status that goes with it. |
| KeyPool.WaitMeans | app/core/key_pool.py:30-39 | A waiting key waits the whole seconds of its own cooldown, or of the store's if that is longer and it is cooling. |
| KeyPool.KeyPool.Select | app/core/key_pool.py:48-159 | The selection, the stored index, the rows touched (those from the old index to the chosen slot) and the table are those of the specification: touched rows are settled, all others as they were; a refusal changes nothing. |
| KeyPool.SelectionMeans | app/core/key_pool.py:48-159 | On the raw table: a key is selected if and only if one of the client and provider is selectable; otherwise no key at all, only off keys, exhausted but no waiting ones (with the seconds to midnight), waiting but no exhausted ones, or both, each give their own error. |
| KeyPool.WalkedMeans | app/core/key_pool.py:82-135 | The rows touched are those of the slots from the start on, around the end of the list. |
| KeyPool.PickMeans | app/core/key_pool.py:82-135 | A key is found exactly when some key is selectable, and it is the cyclically first one. |
| KeyPool.RefusalMeans | app/core/key_pool.py:137-159 | Otherwise off, waiting and exhausted keys partition the list; NO_KEY_AVAILABLE comes exactly when waiting and exhausted are mixed; the cooling hint is the least remaining wait. |
| KeyPool.CountRotates | app/core/key_pool.py:82-159 | The counters and the hint do not depend on where the lap starts. |
| KeyPool.NoStarvation | app/core/key_pool.py:82-135 | A key selectable throughout is chosen within its cyclic distance from the stored index, whatever happens to the others. |
| KeyPool.EachOnceInTurn | app/core/key_pool.py:82-135 | n selects over n always-selectable keys choose each exactly once. |
| KeyPool.SelectInTurn | app/core/key_pool.py:48-135 | Successive selects, on whatever tables others leave in between, make exactly the choices the two results above are about. |
| Quota.UsageIsCounted | app/core/key_pool.py:88-121 | Over any run of one day without a quota reset, a patch of the key's quota or its purge, the key's usage is what it was at its stamp plus the requests counted on it since, whatever selections, marks, fetches and admin edits come between. |
| Quota.QuotaHolds | app/core/key_pool.py:88-121 | Over any such run the key is never selectable once the requests counted have reached its quota; before that it is, if it is on and active. |
| Quota.SelectStamps | app/core/key_pool.py:88-98 | The selection that passes a key that is on stamps the day, and its count starts over if the stamp was another day's. |
| Quota.NoSendBeyondQuota | app/core/forwarder.py:504-515 | After the day's first selection that passes a key, a request of the pool loop on it that day implies that fewer requests than its quota have been counted on it. |
| Lifecycle.DisabledMeansInactive | app/core/key_pool.py:26-27 | In every reachable table a disabled status implies inactive, so being disabled equals being inactive. |
| Lifecycle.SecondDisabledBranchIsDead | app/core/key_pool.py:69-138 | ALL_KEYS_DISABLED is raised if and only if no key of a non-empty scope is active; the second test for it never fires. |
| Lifecycle.DormantUntilEnabled | app/api/control_plane.py:601-685 | Along every run a switched-off key stays off until an admin enables it or purges it. |
| Lifecycle.WriteMeans | app/api/control_plane.py:1029-1083 | No write changes a key's id or makes a disabled key active, except an admin patch that sets is_active. |
| Lifecycle.MarkMeans | app/core/forwarder.py:1074-1129 | A key marked failed or cooling for s seconds is selectable again exactly from when less than one of them is left, as far as its quota and, if it cools, the store allow; a key that is off takes no mark. |
| Lifecycle.OffMeans | app/core/forwarder.py:1098-1109 | A key switched off by a 401 or 403, its decryption, a fetch or an admin is never selectable. |
| Lifecycle.ConsumeMeans | app/core/forwarder.py:1029-1041 | A counted request adds one to the day's usage and to the total; with it the quota is reached, the key is out for the day. |
| Lifecycle.PatchedMeans | app/api/control_plane.py:1029-1083 | A patch sets the fields it names and neither counters nor cooldown. |
| Lifecycle.SwitchMeans | app/api/control_plane.py:1029-1083 | A key that a patch switches off is not selectable; a disabled one that it switches on is, exactly if the quota then in force allows. |
| Lifecycle.CooldownResetMeans | app/api/control_plane.py:1029-1048 | After a reset of its cooldown an enabled key is selectable exactly if its quota allows. |
| Lifecycle.ResetMeans | app/api/control_plane.py:1177-1192 | After a reset of the quotas a key is selectable that day exactly if it is on, has no second of cooldown left and has a quota that is none or positive. |
| Lifecycle.OverwritesExactly | app/core/forwarder.py:1029-1041 | A write separates a running cooldown from the status that enforces it if and only if it is one of three named cases. |
| Lifecycle.HonoursExactly | app/core/key_pool.py:98-123 | A sound row never has a second or more of cooldown left when selectable if and only if its status goes with its cooldown or its quota is not positive. |
| Lifecycle.BreaksThePromiseExactly | app/api/control_plane.py:1029-1083 | A write on a row of the first kind breaks that promise if and only if it is one of the three cases and the quota then in force, the patch's or the row's, is none or positive. |
| Lifecycle.CooldownHonouredExactly | app/core/key_pool.py:98-123 | The same condition, exactly, for every row of every reachable table. |
| Lifecycle.CooldownIsHonoured | app/core/key_pool.py:98-113 | In runs without such writes the promise holds on every row. |
| Lifecycle.CooldownCanBeForgotten | app/api/control_plane.py:1177-1192 | Counterexample: a key told to wait an hour is selectable after a consume and a quota reset. |
| Breaker.KeysAreIndependent | app/core/forwarder.py:1111-1129 | A key's window is determined by its own failures alone. |
| Breaker.CounterIsSpan | app/core/forwarder.py:1116-1123 | The stored counter is the number of failures since the window opened, and the stored time is when it opened. |
| Breaker.MarkNeedsFailures | app/core/forwarder.py:1111-1129 | A mark implies at least T failures within one window length. |
| Breaker.SpanForcesMark | app/core/forwarder.py:1111-1129 | Any span no longer than the window with max(2T - 2, 1) failures contains a mark, whatever came before. |
| Breaker.EnoughIsSharp | app/core/forwarder.py:1111-1129 | For every T of at least 2, one failure fewer can go unmarked. |
| Forwarding.Forwarder.RecordFailure | app/core/forwarder.py:1111-1136 | A failure of an enabled key is recorded, and the key is marked failed, for at least one second, exactly when the breaker's rule on its own failures within the configured seconds says so. |
| Forwarding.EnabledMeans | app/core/forwarder.py:276-288 | In every reachable table a pin holds if and only if a row with its id is the client's own, active and of the provider, and a failure is recorded if and only if the key exists and is on. |
| Forwarding.Forwarder.TrySend | app/core/forwarder.py:516-608 | Limiter, lease, decryption and request decide in this order; the table changes only as the outcome demands; the leases held afterwards are those held before. |
| Forwarding.TriedMeans | app/core/forwarder.py:516-560 | A key is tried for its own rate and its own leases: busy for the hint of a refused token, busy without one at its positive maximum of leases, undecryptable only after both, which alone of the three is written down. |
| Forwarding.Forwarder.CountSuccess | app/core/forwarder.py:648-693 | The deduction of the request's estimated cost (unless it is a GET) and the quota are written together or not at all, and the client is charged exactly if the commit succeeds. |
| Forwarding.Forwarder.UseKey | app/core/forwarder.py:516-708 | One attempt on a key: its writes, its charge and whether it ends the call follow from the outcome alone; once a request is sent, the call goes on if and only if it timed out, failed, or was answered with 429, 401, 403 or at least 500, and fewer than max_retries requests came before it. |
| Forwarding.Forwarder.PickKey | app/core/forwarder.py:504-515 | The candidate, or the error, is that of a select on the table as everyone else's steps have left it; others' steps follow it before the request. |
| Forwarding.Forwarder.PoolTurn | app/core/forwarder.py:504-708 | One turn is one selection and, if the picked key passes limiter, lease and decryption, one request; after a request the call goes on if and only if it timed out, failed, or was answered with 429, 401, 403 or at least 500, and fewer than max_retries requests came before it; the request's writes follow it in the history. |
| Forwarding.Forwarder.PoolForward | app/core/forwarder.py:499-736 | Terminates within max(max_retries, 0) + 1 requests and max(20 * attempts, 50) selections; retry_count is selections less one. A delivered 429, 401, 403 or server error is the last request allowed, and every request before the last, and the last too if the call ends in an error other than a failed commit or a crash, timed out, failed or was answered with one of these. After each request the history holds exactly the writes its outcome calls for: cooling for the header's positive delay or else the configured one, switching off, at most the failed mark, or deduction and count. A pool error is that of the last selection; KEY_DECRYPT_FAILED replaces one that ran out of keys exactly if an attempt of the call failed to decrypt; every other error is that of the last request, and post-loop errors mean that selections ran out. Every send used a key in scope and selectable; leases and usage are as on entry but for a delivered 2xx. |
| Forwarding.Forwarder.PinnedForward | app/core/forwarder.py:286-497 | Whatever others do to the row between attempts, every request goes to the pinned key and control never falls through to the pool; every request before the last timed out, failed or met a server error, and these end the call only with the last attempt; every error is that of the last attempt; each request's writes are those its outcome calls for; as to ownership and activity, each request meets the table others' steps have left; leases are as on entry. |
| Forwarding.Forwarder.Forward | app/core/forwarder.py:216-736 | A pin that is active, owned and of the provider at the start is served by the pinned loop alone; any other call by the pool, each as above; the selections made and the requests issued are exactly those reported; every exit leaves the held leases as on entry and charges exactly a delivered 200 to 299 of a client with a quota. |
| Forwarding.SwitchedOffBetweenAttempts | app/core/forwarder.py:286-370 | Failing input: active at the lookup, a first request that times out, a disable by someone else; the loop goes on and the second request is sent on the disabled key. |
| Forwarding.PinnedMeetsDormantExactly | app/core/forwarder.py:276-497 | A request of a pinned call meets an inactive or missing key if and only if others' steps of the call, applied to the table at its start, have left the key so. |
| Forwarding.PinnedMeetsActive | app/core/forwarder.py:276-497 | In particular not unless one of those steps switches the key off or purges it. |
| Forwarding.PinLeftByOthers | app/core/forwarder.py:276-288 | After a 404 or 405 of a pinned call the pin still holds exactly if others' steps since its start have left it so; the call's own marks do not matter. |
| Forwarding.PoolMeetsDormantExactly | app/core/forwarder.py:504-560 | A request of the pool loop meets an inactive or missing key if and only if others' steps between its selection and the request, applied to the table at selection, have left the key so. |
| Forwarding.PoolMeetsActive | app/core/forwarder.py:504-560 | In particular not unless one of those steps switches the key off or purges it. |
| Forwarding.SwitchedOffAfterSelection | app/core/forwarder.py:504-560 | Failing input: a key disabled right after its selection is still used. |
| Forwarding.PoolSendHonoursCooldown | app/core/forwarder.py:504-515 | After a run without the cooldown-breaking writes, every request of the pool loop has less than one second of its key's cooldown left. |
| Forwarding.NoSendOnDormantKey | app/core/forwarder.py:200-208 | A key that is off when a call begins is not used by it: no selection picks it unless someone else enables or purges it first, and a pin to it does not hold. |
| ResourceBinding.BindingTable.Bind | app/core/resource_binding.py:14-94 | The first bind of a resource inserts; a later one only extends the expiry for the same key; another key changes nothing. |
| ResourceBinding.BindingTable.Lookup | app/core/resource_binding.py:97-139 | Yields the key of an unexpired row; an expired row is deleted and yields nothing. |
| ResourceBinding.RowsTellResourcesApart | app/core/resource_binding.py:44-50 | Two resources have one row if and only if client, first 32 characters of the type and first 128 of the stripped id agree. |
| ResourceBinding.OthersLeaveIt | app/core/resource_binding.py:97-116 | Binds and lookups of resources that differ in one of these leave a resource's lookups as they were. |
| ResourceBinding.TtlMeans | app/core/resource_binding.py:27-28 | A bind with a TTL makes lookups succeed up to and including now + ttl seconds on a new row, and up to the later of that and the old expiry on the key's own row; on another key's row it does nothing. |
| ResourceBinding.KeyNeverChanges | app/core/resource_binding.py:14-139 | No operation changes a binding's key; a row goes exactly when a lookup finds it expired. |
| ResourceBinding.PermanentUnlessRebound | app/core/resource_binding.py:66-94 | A permanent binding becomes finite exactly when the same key is bound again with a TTL. |
| ResourceBinding.FirstBindWins | app/core/resource_binding.py:14-94 | After the first bind without a TTL, every lookup at any time yields its key. |
| ResourceBinding.BindingIsSticky | app/core/resource_binding.py:14-139 | Once bound without expiry, no sequence of gateway binds and lookups changes the binding, and every lookup yields its key. |
| ResourceBinding.GatewayRowsArePermanent | app/api/firecrawl_v2_compat.py:74-80 | No gateway operations ever give a binding an expiry. |
| ResourceBinding.OwnerForGood | app/core/resource_binding.py:14-139 | From the empty table: after any gateway operations on whatever resources, a resource is bound without expiry to the key of the first operation that bound it, and every lookup at any time yields that key. |
| ResourceBinding.LookupYieldsOwner | app/core/resource_binding.py:97-139 | So under gateway operations a lookup yields a key if and only if some operation has bound the resource, and then the first such operation's. |
| Gateway.ForwardWithFallback | app/api/firecrawl_v2_compat.py:95-131 | The fallback path is taken exactly after a first 404 or 405; the client is charged at most once, exactly for a delivered 2xx; the first forward of a pin that holds uses that key alone, and the fallback does so, and selects nothing, if and only if others' steps up to then leave the pin valid. |
| Gateway.KeptPinsHold | app/core/forwarder.py:276-288 | A pin outlasts every run of steps that neither switch the key off, nor purge it, nor give it to another client. |
| Gateway.PinLostBetweenPaths | app/api/firecrawl_v2_compat.py:95-131 | Failing input: a first forward sent to the pinned key and answered with 404, and a disable before the fallback. |
| Gateway.Create | app/api/firecrawl_v2_compat.py:61-131 | A bind is made exactly for a delivered 2xx with a non-blank id, of that id to the key whose response is delivered, without TTL; an id already bound keeps its key. |
| Gateway.Status | app/api/firecrawl_v2_compat.py:259-308 | On any table the gateway has written, a resource whose first binder is a usable key is served by that key alone over every attempt of the first path, and over the fallback if and only if the key is then still usable; only otherwise does the fallback turn to the pool. A resource that nothing has bound is served from the pool. |
| Gateway.CreateThenStatus | app/api/firecrawl_v2_compat.py:61-308 | Create with an id that no earlier operation has bound for that client and type, whatever else is bound, any later gateway operations and any steps on the keys, then status for the new resource: it is served, as above, by the key whose response created it. |
| Text.StripTwice | app/api/firecrawl_v2_compat.py:35-58 | A stripped id is already stripped, so binding and lookup address the same row. |
| Text.StripMeans | app/api/firecrawl_v2_compat.py:35-58 | Stripping cuts off exactly the blanks at both ends. |
| Admission.Enter | app/api/deps.py:88-164 | Lease, rate and quota are tested in this order; every rejection has given the lease back; an admitted request holds one within the maximum. Usage counts only under today's stamp; a request let through by concurrency and rate fails exactly on the database, where a new day cannot be stored, or on usage that has reached the quota, with the seconds to midnight. |
| Admission.Leave | app/api/deps.py:157-164 | The lease goes back on every way out. |
| Admission.UsageIsBounded | app/api/deps.py:97-164 | Over every interleaving, usage plus requests that may still be counted is at most daily_quota + max_concurrent - 1. |
| Admission.BoundIsAttained | app/api/deps.py:97-164 | For every positive quota and concurrency some run reaches that bound. |
| Requests.Serve | app/api/data_plane.py:144-166 | Admission, the forwards with their fallback and the release take the machine through exactly one admit, one count if a 2xx is delivered and none otherwise, and one finish. |
| KeyImport.ParseKeysText | app/core/key_import.py:58-107 | Each line is a blank or comment, an item or a failure with its line number; items and failures add up to the other lines. |
| KeyImport.ClassifyMeans | app/core/key_import.py:66-96 | A line of one to four fields holds the secret; user and secret; user, password and secret; or these and a readable date; any other line, or a secret of under 8 characters, is malformed. |
| KeyImport.LineRoundTrip | app/core/key_import.py:46-55 | Two or more fields without separators or outer blanks, written with bars, tabs or commas between them, are read as these fields. |
| KeyImport.ImportKeysText | app/api/control_plane.py:451-598 | created + updated + skipped + failed is the number of lines that are neither blank nor comments; the counters and the table are those of importing the items one by one. |
| KeyImport.ImportIsLifecycleStep | app/api/control_plane.py:490-575 | Each import is a create or a fill-in of the key's life cycle, or nothing. |
| KeyImport.ImportMeans | app/api/control_plane.py:490-575 | A secret that no row holds makes a new, unused row with the request's settings; one that another client's row holds is refused; any other fills only the gaps of the row that holds it and counts as updated exactly if there was one. |
| KeyImport.ImportIsIdempotent | app/api/control_plane.py:476-598 | Importing the same items again leaves the table as it is and fails exactly the items that failed before. |
| KeyImport.TextImportIsIdempotent | app/core/key_import.py:58-107 | The same for every text: a second import creates and updates nothing. |
| Pricing.PricedExactly | app/core/credit_estimator.py:55-82 | A path is brought to a listed endpoint exactly when it is that endpoint, or lies below one that starts jobs; the query does not matter. |
| Pricing.ChargeMeans | app/core/credit_estimator.py:10-52 | A 2xx costs a crawl its pages, but at least 5, a batch its entries, but at least 1, an extraction 2, and any other listed endpoint 1; a job is charged like its endpoint. |
| Pricing.ChargesArePositive | app/core/credit_estimator.py:28-52 | A charge is at least the endpoint's listed cost, hence positive. |
| Credits.CacheIsSnapshotLessCosts | app/core/forwarder.py:648-677 | Between snapshots the cached credits are max(0, snapshot - sum of the costs deducted), floored once, whatever else happens to the table short of purging the key; each deduction is the estimate, by path and answer, of a request counted on the key (`Forwarding.Forwarder.CountSuccess`). |
| Credits.SnapshotIsCached | app/core/credit_fetcher.py:141-158 | A fetched snapshot is what the cache holds right after it. |
| Calendar.OrdinalOfFromOrdinal | app/core/credit_refresh.py:43-45 | Counting calendar days and the closed formula for ordinals are inverse on every day. |
| Calendar.FirstOfNextMonthIsExact | app/core/credit_refresh.py:43-45 | For every instant, first of the month plus 32 days back to the first is the earliest month start after it. |
| CreditRefresh.BandsByShare | app/core/credit_refresh.py:47-61 | The usage thresholds are exactly the documented bands: under 10, 30 and 50 percent of the plan left. |
| CreditRefresh.ScheduleMeans | app/core/credit_refresh.py:30-61 | The next refresh: the fixed interval for a plan of nothing or without the smart schedule, the first of next month for an exhausted plan, else the interval of the band, in minutes from now. |
| CreditRefresh.LessLeftIsReadSooner | app/core/credit_refresh.py:49-61 | With ordered intervals, a plan with less left (but something) is never read later. |
| CreditRefresh.NextIsLater | app/core/credit_refresh.py:30-61 | With positive intervals the next refresh of a known plan lies strictly ahead. |
| CreditRefresh.ExhaustedRestsUntilNextMonth | app/core/credit_refresh.py:43-45 | A key with an exhausted plan is due again exactly from the first instant of the next calendar month. |
| CreditRefresh.CreditMonitor.Fetch | app/core/credit_fetcher.py:30-224 | Status, cache, schedule and snapshots after each kind of reply; no other row changes. |
| CreditRefresh.CreditMonitor.RefreshOnce | app/core/credit_refresh.py:93-142 | Across all batches the keys asked for are exactly the due ones, in id order; the table and the snapshots are those of one refresh of each. |
| CreditRefresh.PassRefreshesDueRows | app/core/credit_refresh.py:97-135 | Each due row is refreshed once, from its own old value and with one answer; no other row changes. |
| CreditRefresh.DueMeans | app/core/credit_refresh.py:97-106 | Due are exactly the active or cooling keys in use that were never read, or are to be read by now. |
| CreditRefresh.RefreshedMeans | app/core/credit_refresh.py:112-135 | What a pass makes of a row for each kind of reply; without credits it is tried again after the retry delay, at least a minute. |
| CreditRefresh.PassLeavesNothingDue | app/core/credit_refresh.py:93-142 | With positive intervals and a clock that does not run back, every due key ends scheduled strictly after the pass time, and none is due then. |

## Left out

- HTTP transport, headers, URL versions, FastAPI routing, error bodies, readiness checks and provider configuration: plumbing.
- Encryption, hashing and JSON: a key's secret stands for its hash and ciphertext, hashing is injective, stored responses are abstract values.
- Database sessions: a commit is one atomic step. Lost updates on increments, rollbacks after outages (except where a parameter says that a commit fails) and the in-process fallbacks when Redis is unreachable are not modelled.
- Forwarding.Forwarder.PoolForward: others' steps come in before each selection and between it and its request, not while the request is under way; limits and secret are those of the row as it was selected.
- Forwarding.Forwarder.PinnedForward: others' steps come in before each attempt, not while a request is under way; limits and secret are those of the row as it was looked up, while writes look at the row as it stands. When exactly a database session refreshes its copy of a row is not modelled.
- Admission.Enter: a rate limiter that itself raises keeps the lease in the source; the in-memory limiter modelled here never raises.
- Admission.UsageIsBounded: admission is one atomic step, limits are fixed, and max_concurrent is positive.
- KeyPool.KeyPool.Select: concurrent selects that race on the stored index, and writes to the Redis cooldown store that fail, are not modelled.
- Concurrency.RedisMatchesMemory: the Redis server's clock is the caller's clock.
- CreditRefresh.CreditMonitor.RefreshOnce: all commits succeed and no one else writes during a pass; the clean-up of old snapshots is not part of the pass.
- Credits.CacheIsSnapshotLessCosts: deductions are the forwarder's; `update_local_credits` has no caller in the program.
- CreditRefresh.BandsByShare: the ratio is a real number, not a floating-point one; dates beyond year 9999 do not overflow.
- KeyImport.ParseKeysText: the text comes split into lines and the date parser is a parameter; white space is ASCII.
- A new key's id is the largest one plus one, as SQLite assigns it; on PostgreSQL the id of a purged last row would not come back. For idempotency records both are modelled: fresh ids in `Idempotency`, SQLite's in `RecordIds`.
- Key tests (`test_key`), which make the same writes as forwarding: they are among the edits of the life cycle, not methods of their own.
- `quota.count_mode == "attempt"`: nothing counts attempts.
- Logging, metrics, redaction, dashboards, statistics, migrations, scripts and the web UI.
