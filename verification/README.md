# Floodguard in Dafny

Floodguard wraps a money-moving HTTP handler in layers of protection: an IP limit, an account limit,
an idempotency key, velocity rules, a leased lock, and the caching of the response. Behind the handler
stand wallets with int64 balances and a hash-chained ledger. This project models that protocol and the
state behind it, and proves what it guarantees over every run.

How the model is laid out:

- **Time, tokens, atomicity.** Time is an integer that callers pass in (nanoseconds unless a name says
  `Ms`); every body guarded by a mutex or run as a Lua script is one atomic step. `velocity.Engine.Check`
  is several steps, because the code does not hold the store's mutex across them, and a `MinInterval` rule
  may read the last action and the clock apart. A withdrawal is two steps, reading the ledger and appending
  to it, under its own wallet's mutex only. `stepup.Manager.Check` is two steps as well.
- **Objects.** What the source updates in place is a class (`Idempotency.MemoryStore`, `Lock.Memory`,
  `Velocity.MemoryStore` with its aliased slices, `Ledger.Ledger`, `Wallet.Account`, `Guard.Guard`, ...).
  Each method is tied to a pure function of the old state, and the run theorems are about those functions.
- **The pipeline** (`Pipeline*`) is a transition system: any number of requests, a stage for each, shared
  stores, one clock that never runs back. `PipelineInvariant.Inv` holds in every reachable state
  (`PipelineSafety.RunKeepsInv`); the theorems are in `PipelineTheorems`.
- **The ledger below it** (`PipelineLedger`, `PipelineWitness`): every run of the pipeline is an interleaving
  of ledger readers and writers; when the chain holds, and runs in which it does not.
- **One request alone.** `GuardRuns` runs that machine together with its limiters and shows that layers 1
  to 4 and `Guard.Protect` are the same.

| file | what it holds |
|---|---|
| Common, Text | int64 wrap-around; decimal, RFC 3339 and separator-joined text, with injectivity |
| Idempotency, Lock | the in-process and the Redis form of each store, and their equivalence |
| SlidingWindow, SlidingWindowCalls | the limiter's script, its runs under skew and flooring, the key's expiry; a limiter's calls as such runs |
| Velocity, VelocityRuns, VelocityTight, VelocityMixed | the in-place store and engine; overlapping checks; attained bounds; rules with different windows |
| Ledger, Wallet, Service | the chain, the balances, the withdraw handler, the response recorder |
| Pipeline, PipelineKeys, PipelineInvariant, PipelineSafety, PipelineTheorems | the middleware |
| PipelineOutcomes, PipelineClaims, PipelineHandlers | exactly what each layer answers and stores, from the history of grants, stores, leases and handler steps |
| PipelineLedger, PipelineWitness | the shared ledger under the middleware; runs in which tempting claims fail |
| Guard, GuardRuns | `Protect`, and the middleware's layers against it |
| StepUp, Anomaly | one-shot tokens; minute buckets |

## What the code does and does not guarantee

Where an obvious claim is false of the code, the model keeps the code and states where the claim stops:

- The middleware's own comment (middleware/http.go:1-9, 85-94) says the lock is released and then the
  result cached. The code caches first and releases in a deferred call; the model follows the code
  (`StoredBeforeRelease`).
- A request refused by the velocity rules or by the lock has already claimed its idempotency key, and the
  key stays taken until its TTL is over (`RefusedGrantBurnsKey`, `RetryIsDuplicate`).
- A handler that outlives the TTL of its claim can overwrite a newer response, and the older one is then
  replayed: a run of the machine has two different replies of one key between the same two grants
  (`LateStoreIsReplayed`). Replies are those of the last grantee exactly when stores are in turn.
- The in-process and Redis idempotency stores differ on the expiry tick and on empty responses, and only
  there (`ClaimsAgreeOffTick`, `CompletesAgreeWhenNonEmpty`).
- A velocity rule with a short window deletes actions that a longer rule needs. A minimum interval behind a
  rate rule holds exactly when the rate window is long enough (`MinIntervalExactly`); a rate rule of n per
  window behind one of m per other holds exactly when min(m, n) actions in each of the ceil(window / other)
  stretches stay within n (`RateBehindRateExactly`).
- The sliding window's key expiry is invisible within 500 ms of clock difference exactly when the window is
  a whole number of milliseconds (`ExpiryInvisibleExactly`).
- `SettleBet` with the least int64 always succeeds and overdraws the wallet (`SettleMinOverdraws`); it is
  the only such delta (`OutcomeMovesByDelta`).
- Every wallet writes to the ledger account "acct", while wallet mutexes and lock keys are per wallet. So even
  with the lock required, two withdrawals from different wallets can leave records with equal numbers and a
  chain that does not verify (`TwoWalletsBreakChain`). After any run the chain holds exactly when no append
  was stale (`ChainHoldsIffNoStaleAppend`); one lock key shared by all, with handlers inside their lease, or a
  single account is enough (`SerialisedChainHolds`). Sums and balances hold in any case (`MoneyAddsUp`).
- A step-up token admits as often as checks overlapped between verifying and consuming it: twice exactly when
  two did (`AdmissionsExactly`, `OverlapAdmitsTwice`), and once when calls are serial (`SerialTokenAdmitsOnce`).
- An idempotency TTL of less than a millisecond is refused by Redis and accepted in process.

## Model

| member | source | states |
|---|---|---|
| PipelineSafety.StepKeepsInv | middleware/http.go:109-253 | every step of every request keeps the global invariant tying stages, grants, stored responses, replies, withdrawals under way and done, ledger records, balances and leases together |
| PipelineSafety.RunKeepsInv | middleware/http.go:109-253 | so does every run, of any number of requests in any interleaving |
| PipelineTheorems.Reached | middleware/http.go:95-256 | from empty stores and seeded wallets, every reachable state satisfies the invariant |
| PipelineTheorems.GrantsAreSpaced | middleware/http.go:151-181 | in every run, two process grants of one idempotency key are more than the TTL apart |
| PipelineTheorems.WithdrawalsFarApart | example/app/service.go:73-82 | two withdrawals under one key come from different requests whose grants are more than the TTL apart |
| PipelineTheorems.OneWithdrawalPerKey | middleware/http.go:151-227 | so, over every run: a key moves money twice only in a run longer than the TTL |
| PipelineTheorems.MoneyAddsUp | example/wallet/wallet.go:74-97 | after every run, overlapping ledger writes included, the ledger's records are exactly the withdrawals that went through, with amount, kind, actor and source; every balance is in range and the ledger sums to what the wallets gained |
| PipelineTheorems.RefusedMeansUntouched | middleware/http.go:109-205 | a request that ends in a refusal, an error or a replay has run no handler, moved no money and stored no response |
| PipelineTheorems.ReplayIsFaithful | middleware/http.go:165-173 | a cached reply is the whole body written by a 2xx handler granted the key; that handler is the last grantee before the reply if and only if it stored in turn, which every store within the TTL of its grant is |
| PipelineTheorems.TimelyIsInTurn | middleware/http.go:218-225 | callers that complete within the TTL of their claim, or never, store in turn |
| PipelineTheorems.RepliesAgreeBetweenGrants | middleware/http.go:165-173 | then all replies of a key between two consecutive grants are identical |
| PipelineTheorems.StoredBeforeRelease | middleware/http.go:208-253 | a cacheable response is stored, in full, before the request gives up its lock |
| PipelineOutcomes.StoredExactly | middleware/http.go:208-227 | in every run a settled request has a stored response if and only if its handler did not panic, it has an idempotency key, its status is 2xx and it wrote something; and then the store holds all it wrote |
| PipelineClaims.ClaimAnsweredExactly | middleware/http.go:151-181 | in every reachable state a claim is granted iff the key was neither granted nor stored under within the lifetime, replayed iff something was stored within it (with the body stored last), and a conflict iff it was granted within it and nothing stored |
| PipelineClaims.InTurnStoreAnswers | middleware/http.go:165-173 | a response stored in turn answers every claim of the key within its lifetime, if all stores of the key are in turn |
| PipelineHandlers.ResponseIsWhatWasWritten | middleware/http.go:349-363 | in every run a request's status is the last its handler wrote (200 by default), and its chunks are all it wrote, in order |
| PipelineHandlers.ReplyWasWritten | middleware/http.go:165-173 | a cached reply is the concatenation of all chunks that a request granted the key wrote in the run, whose last status was 2xx |
| PipelineHandlers.DebitsAreAsAsked | example/app/service.go:82 | every withdrawal that went through is for the amount its handler asked for |
| PipelineHandlers.EachWalletLosesItsOwn | example/wallet/wallet.go:74-97 | after every run every wallet holds what it held at first less the withdrawals of that very account |
| PipelineHandlers.WithdrawalGoesOnExactly | example/wallet/wallet.go:74-87 | in every reachable state a withdrawal goes on to the ledger iff 0 < amount <= MaxInt64 / 2 and the account's balance covers it |
| PipelineOutcomes.RefusalsAsConfigured | middleware/http.go:109-113 | in every run a request is a bad request iff a required key is missing, and none is refused by an IP limit, velocity or a lock that the configuration does not ask for |
| PipelineOutcomes.VerdictExactly | middleware/http.go:183-205 | where a rule's verdict takes a request, in terms of the list: a malformed rule is an error, and a flag stops the request iff velocity blocks |
| PipelineOutcomes.LateVerdictExactly | velocity/rules.go:53-76 | the same for a minimum interval whose last action was read before the clock |
| PipelineOutcomes.LimitsAnsweredExactly | middleware/http.go:115-149 | the IP limiter is asked iff there is one and the request has an address; its verdict, then the account limiter's, decides |
| PipelineOutcomes.CheckBeginsExactly | velocity/velocity.go:67-70 | the velocity check is an error iff there is neither account nor action |
| PipelineTheorems.RefusedGrantBurnsKey | middleware/http.go:183-245 | a key granted to a request that a later layer refused answers every further claim with a conflict until the TTL is over |
| PipelineTheorems.SectionIsExclusive | middleware/http.go:229-253 | two requests inside the section of one lock key, both within their lease, are the same request |
| PipelineOutcomes.LockAnsweredExactly | middleware/http.go:229-245 | in every reachable state the lock refuses a request iff another request is inside the section of that lock key and within its lease; an empty lock key is an error; otherwise the handler is entered |
| PipelineTheorems.LeasesBelongToSections | middleware/http.go:247-250 | every lease in the store belongs to a request still in its section: a finished request leaves no lock behind |
| PipelineTheorems.ReleaseSparesOthers | lock/memory.go:58-68 | in every reachable state a release, however late, removes exactly the leases its own request drew and leaves every other request's lease in place |
| PipelineTheorems.PipelineIsVelocityRun | middleware/http.go:183-205 | on each velocity key, every run of the pipeline is a run of the interleaved velocity machine |
| PipelineTheorems.PipelineRateBound | velocity/velocity.go:72-85 | the n + c - 1 bound holds for every velocity key in every run of the pipeline |
| PipelineKeys.ClaimCases | idempotency/memory.go:25-54 | a claim is granted exactly when the key is free or expired; a grant adds exactly itself to the history and starts a new entry; otherwise nothing changes and the stored body, if any, is the answer |
| PipelineKeys.ClaimKeepsKeys | middleware/http.go:151-181 | a claim by anyone keeps the invariant of grants and stores |
| PipelineKeys.StoreKeepsStores | middleware/http.go:218-225 | storing a response, in turn or late, keeps it too |
| PipelineKeys.TimelyStorerHolds | idempotency/memory.go:32-66 | within the TTL of a grant nobody else can have been granted the key |
| PipelineWitness.LateStoreIsReplayed | middleware/http.go:151-225 | for every configuration with well-formed rules, a legal run from a booted state in which two replies of one key, with no grant between them, differ, because a request stored after its claim had run out |
| PipelineLedger.PipelineIsLedgerRun | ledger/ledger.go:68-89 | every run of the pipeline is, for the ledger, an interleaving of readers and writers, with the same list and the same stale appends |
| PipelineLedger.ChainHoldsIffNoStaleAppend | ledger/ledger.go:63-132 | after every run the records are numbered 1..n if and only if no append was stale, whatever the hash; and, given no collision among the payloads at hand, the chain verifies if and only if no append was stale |
| PipelineLedger.OneWriterIsNeverStale | ledger/ledger.go:68-89 | a run that never has two withdrawals inside RecordTransaction has no stale append |
| PipelineLedger.SerialisedChainHolds | middleware/http.go:258-263 | if all requests share one lock key and every handler stays within its lease, or all are for one account, every chain of the book verifies after every run |
| PipelineWitness.TwoWalletsBreakChain | example/wallet/wallet.go:92 | for every configuration that requires the lock, and any two accounts each locking its own name, a legal run in no time at all leaves two records with the same number, and a chain that fails to verify unless the first record's hash is that of the start |
| Wallet.LandedBalances | example/wallet/wallet.go:88-97 | whatever list a withdrawal had read, what it writes is what its wallet loses |
| Wallet.LandedIsApplied | example/wallet/wallet.go:74-97 | undisturbed, the two steps of a withdrawal are the operation |
| Service.Service.constructor | example/app/service.go:28-42 | every seeded account gets its own wallet with its seed, on the given ledger |
| Service.Service.Withdraw | example/app/service.go:60-91 | unknown accounts are opened at zero; 200 iff the amount is positive, at most half of MaxInt64 and covered, and then exactly that account loses it; 400 for any other invalid amount or an undecodable body; 402 if it is not covered |
| Service.ResponseRecorder.Write | middleware/http.go:360-363 | the body is the concatenation of all chunks written so far |
| Service.ResponseRecorder.StoreResponse | middleware/http.go:216-225 | the whole body is stored under the key, with a new deadline, iff the status is 2xx and the body is not empty, as the machine does |
| Service.BodyConcat | middleware/http.go:360-363 | only the concatenation of the chunks matters, not how the handler splits it |
| Guard.Guard.Protect | floodguard.go:129-177 | the Guard over its four stores decides, and changes them, as the pure decision function does, for every request including the empty key |
| Guard.ProtectExactly | floodguard.go:129-177 | Protect allows a request iff it has an account key, no limiter that is asked refuses or fails, its idempotency key is not taken, and the velocity engine allows; and exactly when it answers from the cache, as a duplicate, or with a velocity rejection |
| Guard.LimitDecisionExactly | floodguard.go:134-152 | exactly when a limiter rejects a request or fails it, and that the IP limiter goes first |
| Guard.VelocityKeyReadsBack | velocity_key.go:5-14 | with account names free of ':', a velocity key gives back the account and the action |
| Guard.OtherPairsUntouched | floodguard.go:168 | Protect leaves what was recorded for every other pair of account and action as it was |
| Guard.OtherPairsIgnored | floodguard.go:168 | and neither its decision nor what it leaves for its own pair depends on the others |
| Guard.LaterLayersUntouched | floodguard.go:129-177 | a request stopped at a layer has not touched any later layer's store; in the claim and velocity stores no other key ever changes |
| Guard.RetryIsDuplicate | floodguard.go:154-186 | once a request got past its claim, after any sequence of Protect and CompleteIdempotency calls within the TTL (non-empty responses for that key) no request with that key gets past its own; it is a duplicate unless the key was completed, and it changes neither the claim nor the velocity store |
| GuardRuns.MiddlewareIsProtect | middleware/http.go:115-205 | from every state of the stores and of other requests, a request with a non-empty account key, stepping through middleware layers 1-4 at given clock readings, reaches the decision Protect makes at those readings and leaves all four stores as Protect does, and other requests, locks and money untouched |
| Idempotency.MemoryStore.Claim | idempotency/memory.go:25-54 | the mutex-protected body is the claim function: cached, in flight, or granted with a new deadline; the empty key is refused |
| Idempotency.MemoryStore.Complete | idempotency/memory.go:56-67 | the entry becomes the response, no longer in flight, with a new deadline |
| Idempotency.Manager.Begin | idempotency/idempotency.go:65-81 | exactly when a key is processed, answered with its cached body, or refused as in flight, and what that leaves in the store |
| Idempotency.ClaimAnsweredExactly | idempotency/memory.go:25-67 | over every run from an empty store the answer to a claim is decided by the last grant or completion of its key: granted if there is none, its lifetime is over or it completed with nothing; else in flight after a grant, and its response after a completion |
| Idempotency.Manager.Complete | idempotency/idempotency.go:84-92 | completes under the manager's TTL; the empty key is refused and changes nothing |
| Idempotency.RedisStore.Claim | idempotency/redis.go:28-94 | the claim script over the two keys, decoded; with a TTL under one millisecond it fails unless a result is cached, and changes nothing |
| Idempotency.RedisStore.Complete | idempotency/redis.go:45-104 | the done script: result set, in-flight mark deleted; with a TTL under one millisecond it fails and changes nothing |
| Idempotency.KeysApart | idempotency/redis.go:62-63 | the in-flight and result keys of all idempotency keys are pairwise distinct |
| Idempotency.ClaimsAgreeOffTick | idempotency/redis.go:33-44 | from coupled states the two stores answer a claim alike if and only if it is not on the entry's expiry tick |
| Idempotency.StepKeepsCoupling | idempotency/redis.go:33-53 | every call off the tick with a non-empty response keeps the simulation relation between the stores |
| Idempotency.RedisRefinesMemory | idempotency/redis.go:33-53 | on every run of calls off the tick with non-empty responses the two stores give identical replies |
| Idempotency.FreshStoresAgree | idempotency/memory.go:32-66 | the same from two fresh stores |
| Idempotency.CompletesAgreeWhenNonEmpty | idempotency/memory.go:39-53 | right after a completion both stores answer alike if and only if the response is not empty |
| Idempotency.InflightAndResultExclude | idempotency/redis.go:33-53 | in every run the in-flight and result keys of one idempotency key are never both live |
| Idempotency.RedisGrantsSpaced | idempotency/redis.go:33-44 | in every run on Redis, from any keyspace, two grants of one key are at least the TTL apart |
| Lock.Memory.Acquire | lock/memory.go:32-55 | succeeds iff there is no lease or it has run out, and then the lease is the caller's with its deadline; a refusal changes nothing |
| Lock.Memory.Release | lock/memory.go:58-68 | removes the lease only if it carries the caller's token |
| Lock.Redis.Acquire | lock/redis.go:40-63 | SET NX with expiry: succeeds iff the key is absent or its deadline has passed on the server clock |
| Lock.Redis.Release | lock/redis.go:24-29 | compare and delete by token |
| Lock.LeaseStands | lock/memory.go:42-67 | over every run, until a lease runs out only a release with its own token lets the key be acquired again |
| Lock.WinnersExclude | lock/memory.go:42-67 | of two successful acquisitions of a key, the later comes after the first lease ended or was released by its own holder |
| Lock.RefusedExactly | lock/memory.go:42-67 | over every run from an empty store an acquisition is refused iff an earlier winner of the key is within its lifetime and nobody has given its token back |
| Lock.RedisRefusedExactly | lock/redis.go:24-71 | the same for the Redis client, on the millisecond clock and for any TTL |
| Lock.RedisRefinesMemory | lock/redis.go:24-71 | on every run off the expiry tick both lock clients grant the same calls |
| SlidingWindow.Limiter.Allow | ratelimit/redis_sliding_window.go:58-82 | the client's flooring, unique member, script and expiry as one step on the key; the empty key is refused |
| SlidingWindow.NeverOverfull | ratelimit/redis_sliding_window.go:45-53 | after every script the set has at most Limit members |
| SlidingWindow.Provenance | ratelimit/redis_sliding_window.go:45-53 | every member is that of an earlier accepted call, with its score |
| SlidingWindow.Survives | ratelimit/redis_sliding_window.go:45-46 | an accepted member stays until some script's window start reaches its score |
| SlidingWindow.UnprunedBound | ratelimit/redis_sliding_window.go:45-53 | accepted calls none of which was pruned before the last number at most Limit |
| SlidingWindow.SkewedWindowBound | ratelimit/redis_sliding_window.go:45-53 | with readings falling back by at most a skew, accepted calls spanning less than Window minus the skew number at most Limit |
| SlidingWindow.NanosecondBound | ratelimit/redis_sliding_window.go:66-77 | against exact nanosecond readings, accepted calls spanning at most Window minus skew minus 1 ms number at most Limit, despite both floorings |
| SlidingWindow.DeniedMeansFull | ratelimit/redis_sliding_window.go:45-53 | a denied call implies at least Limit accepted calls strictly inside the last Window of nanosecond time |
| SlidingWindow.ExpiryInvisible | ratelimit/redis_sliding_window.go:45-53 | whenever the TTL covers the window plus twice the clock difference, the limiter with key expiry holds the same set and makes the same decisions as without, over every run |
| SlidingWindow.ExpiryInvisibleExactly | ratelimit/redis_sliding_window.go:69-77 | with the configured Window + 1 s and 500 ms of clock difference, this holds for all runs if and only if the window is a whole number of milliseconds |
| SlidingWindowCalls.CallsAreKeyRun | ratelimit/redis_sliding_window.go:58-82 | whatever calls one limiter makes on whatever keys, those on one key are a run of the script with expiry, with the decisions returned and members that never repeat |
| SlidingWindowCalls.LimiterBound | ratelimit/redis_sliding_window.go:45-82 | for every sequence of calls of one limiter (whole-millisecond window, readings within 500 ms of the server clock), admitted calls of a key spanning at most Window minus skew minus 1 ms number at most Limit, in spite of flooring and expiry |
| Velocity.Compact | velocity/memory.go:43-54 | the in-place loop over an aliased backing array leaves the order-preserving filter of what was there |
| Velocity.Append | velocity/memory.go:19-24 | appending keeps the old contents in front, in the same array while there is room |
| Velocity.MemoryStore.Record | velocity/memory.go:19-24 | the key's list grows by the time; every other key's list is as before |
| Velocity.MemoryStore.Trim | velocity/memory.go:26-54 | keeps exactly what is after the cutoff and returns how many; other keys untouched although arrays are reused |
| Velocity.MemoryStore.Last | velocity/memory.go:32-41 | the last entry of the list, if any |
| Velocity.Engine.Evaluate | velocity/rules.go:21-76 | each rule's verdict spelled out: when it is malformed, when a count or a gap flags, and the trimming that counting does |
| Velocity.Engine.Check | velocity/velocity.go:67-86 | the loop with early exit, then the record, equal to the recursive check over the rule list |
| VelocityRuns.CountLaw | velocity/memory.go:26-54 | for any mix of rules and any interleaving, a count is the true number of recorded actions in its window less those an earlier trim took: never more, and exact precisely when none was taken |
| VelocityRuns.CountIsExact | velocity/memory.go:26-54 | with every rate window at least as long, a count over a window equals the number of actions recorded in it, in every run |
| VelocityRuns.RateBound | velocity/velocity.go:72-85 | with at most c checks ever between passing the rule and recording, any window holds at most n + c - 1 recorded actions |
| VelocityRuns.RateBoundFromEmpty | velocity/rules.go:29-40 | the same from an empty store; for serial checks at most n |
| VelocityTight.RateBoundIsTight | velocity/velocity.go:72-85 | for every n, window and c some run attains n + c - 1 |
| VelocityRuns.MinIntervalHolds | velocity/rules.go:58-75 | for serial checks with the earlier rate windows at least Min, any two recorded actions are at least Min apart over the whole run, although trimming may have removed the last entry |
| VelocityRuns.MinIntervalExactly | velocity/rules.go:53-76 | behind a rate rule the minimum interval holds in every serial run if and only if the rate window is at least Min |
| VelocityMixed.RateBehindRateExactly | velocity/memory.go:43-54 | behind a rate rule of m per other, "at most n per window" holds in every serial run if and only if min(m, n) * ceil(window / other) <= n |
| VelocityRuns.SerialIsOneAtATime | velocity/velocity.go:67-86 | a serial run never has two checks past a rule |
| VelocityRuns.CheckIsRun | velocity/velocity.go:72-85 | the engine's check is a serial run of the interleaved machine, with the same list and log |
| Ledger.Ledger.RecordTransaction | ledger/ledger.go:63-90 | one serialised call adds one record, numbered after the last, linked to it, hashed, and with exactly the fields asked for; nothing else changes, and a valid book stays valid |
| Ledger.Ledger.VerifyChainIntegrity | ledger/ledger.go:112-132 | success if and only if every link and hash holds; otherwise the least broken position |
| Ledger.Ledger.Balance | ledger/ledger.go:135-145 | the true sum wrapped to int64, although it wraps at every addition |
| Ledger.ExtendChain | ledger/ledger.go:112-132 | a chain with one more record is valid if and only if it was, and the record links to its tip and carries its own hash |
| Ledger.SerialRunsVerify | ledger/ledger.go:63-90 | after any serialised posts over any accounts every chain verifies with numbers 1..n, and earlier records are unchanged |
| Ledger.PayloadInjective | ledger/ledger.go:97-109 | text fields free of the separator, equal payloads have equal fields, through decimal int64 and RFC 3339 text |
| Ledger.PayloadText | ledger/ledger.go:97-106 | the hashed text written out, field by field |
| Ledger.TipDeterminesChain | ledger/ledger.go:97-132 | two valid chains with equal tips have equal length and agree on every hashed field, given no collision among the payloads involved |
| Ledger.StaleAppendBreaksChain | ledger/ledger.go:68-89 | appending after reading some earlier prefix leaves a valid chain if and only if the prefix was the whole chain |
| Ledger.ChainValidIffNoneStale | ledger/ledger.go:68-89 | over every interleaving of reads and appends the chain stays valid if and only if no append was stale |
| Ledger.NumberedIffNoneStale | ledger/ledger.go:79 | and the numbers are 1..n if and only if no append was stale, whatever the hash |
| Text.FormatIntInjective | ledger/ledger.go:101 | decimal printing of integers is injective |
| Text.FormatIntReads | ledger/ledger.go:101 | the text has a sign exactly for negative numbers, then the digits of the absolute value without leading zeros |
| Text.JoinInjective | ledger/ledger.go:98-106 | joining parts free of the separator is injective |
| Text.FormatTimeInjective | ledger/ledger.go:105 | the UTC text of a timestamp (section 5.6 of RFC 3339, fraction without trailing zeros) is injective |
| Text.FormatTimeReads | ledger/ledger.go:105 | every field of section 5.6 of RFC 3339 stands in its place and reads back; the fraction is there exactly for part of a second, without trailing zeros |
| Wallet.Account.AvailableCents | example/wallet/wallet.go:40-44 | between operations nothing is pending: available is the total |
| Wallet.Account.Deposit | example/wallet/wallet.go:57-71 | succeeds iff 0 < amount <= MaxInt64 / 2 and the total does not overflow; which error otherwise; on success total and ledger gain the amount, else nothing changes |
| Wallet.Account.Withdraw | example/wallet/wallet.go:74-97 | succeeds iff 0 < amount <= MaxInt64 / 2 and the total covers it; which error otherwise; on success total and ledger lose the amount, and nothing stays reserved |
| Wallet.Account.SettleBet | example/wallet/wallet.go:100-125 | succeeds iff the true sum is in range or the delta is MinInt64; which error otherwise; the record written on success |
| Wallet.OutcomeMovesByDelta | example/wallet/wallet.go:57-125 | a successful operation moves the balance by exactly what it writes to the ledger, and the balance stays in [0, MaxInt64] if and only if it is not a settlement of MinInt64 |
| Wallet.OutcomeExactly | example/wallet/wallet.go:46-125 | exactly when each operation goes through from a balance in range, and with which error it fails |
| Wallet.SettleMinOverdraws | example/wallet/wallet.go:109-110 | that settlement always goes through and leaves a negative balance |
| Wallet.AppliedConserves | example/wallet/wallet.go:57-125 | one operation on any wallet keeps every balance in range, the ledger sum equal to the gains of all wallets, and the book valid |
| Wallet.RunsConserve | example/wallet/wallet.go:57-125 | so does every sequence over any number of wallets sharing the ledger |
| Wallet.SingleWalletBalance | ledger/ledger.go:135-145 | with one wallet no prefix of the int64 sum overflows, and Balance is total minus seed |
| StepUp.ChallengeStore.Verify | stepup/stepup.go:182-190 | true exactly for a stored, unexpired challenge |
| StepUp.Manager.Check | stepup/stepup.go:60-142 | an undisturbed check admits iff the device is known and velocity not flagged, or a valid token is presented, which it consumes; otherwise it issues a new one; the risk is high iff the device is unknown and velocity flagged, low iff neither |
| StepUp.ChallengeKeyInjective | stepup/stepup.go:164-166 | account and action names free of the separator, the joined key gives back all three parts for arbitrary presented tokens |
| StepUp.KeysCollideExactly | stepup/stepup.go:164-166 | without that, two keys with one token collide if and only if the joined names are equal, and some do |
| StepUp.TokenAdmitsAtMost | stepup/stepup.go:119-142 | over every run every pass was earned by a token issued no later than its use, for that account and action, and not yet expired; with at most c checks between verifying and consuming one token, none admits more than c times |
| StepUp.AdmissionsExactly | stepup/stepup.go:127-136 | over every run in which all checks have finished, no token admits more than c times if and only if at no point more than c checks were between verifying and consuming one token |
| StepUp.CallsAreRun | stepup/stepup.go:119-142 | every sequence of calls of Manager.Check is a run of that machine without overlap, with the same store and the same admissions |
| StepUp.SerialTokenAdmitsOnce | stepup/stepup.go:119-142 | so in every sequence of calls on a fresh store no token admits twice |
| StepUp.AdmissionNeedsToken | stepup/stepup.go:119-142 | over every sequence of calls, an unknown device or a flagged request is admitted only with the token an earlier call for the same account and action was given, not expired, and with which nobody has been admitted since |
| StepUp.AdmittedWithoutToken | stepup/stepup.go:60-71 | a call that presents no valid token is admitted iff the device is known and velocity is not flagged |
| StepUp.OverlapAdmitsTwice | stepup/stepup.go:127-136 | two checks that verify before either consumes both pass |
| Anomaly.MemoryCounter.Increment | anomaly/memory.go:19-25 | the buckets stay the index of the event log grown by this event |
| Anomaly.MemoryCounter.CountInWindow | anomaly/memory.go:27-35 | the loop's total is the sum over the log of the metric's events from the start of the minute of `from` to the end of the minute under way at `to` |
| Anomaly.MinuteKeyInjective | anomaly/anomaly.go:107-109 | a bucket key gives back metric and minute, whatever the metric is called |
| Anomaly.Adjacent | anomaly/memory.go:27-35 | counting is additive at minute boundaries |
| Anomaly.SumIsBetween | anomaly/memory.go:19-35 | a sum over minutes is the sum over the events between the times at which they start and end |
| Anomaly.SpikeRule | anomaly/anomaly.go:81-89 | both rates, and the decision as an inequality without division |
| Anomaly.Detector.DetectSpike | anomaly/anomaly.go:60-90 | the current minute against the minutes looked back on (60 if none are given), as sums over the log between times; the two windows are adjacent and share no event |

## Left out

- PipelineTheorems.StoredBeforeRelease: a handler that panics stores nothing but still releases; the recovery of the panic by net/http is not modelled.
- PipelineTheorems.OneWithdrawalPerKey: the handler is assumed to make at most one withdrawal call, as example/app/service.go does.
- Guard.RetryIsDuplicate: a completion of the key with an empty response is excluded, because in process it makes the key claimable again (Idempotency.CompletesAgreeWhenNonEmpty).
- SlidingWindow.Limiter.Allow: the member text is kept as the pair of reading and sequence number, the uint64 sequence does not wrap, and members of different processes are taken to be distinct.
- Anomaly.MemoryCounter.Increment: times are non-negative and counts do not wrap at int64.
- Anomaly.SpikeRule: rates are reals, not float64.
- Ledger.PayloadInjective: timestamps have years 0 to 9999, as the text format requires.
- Redis itself: a key with a PX deadline is taken to be gone from the millisecond of that deadline on; networking faults and failed releases are not modelled.
- The token bucket (ratelimit/token_bucket.go): its arithmetic is in a library outside the repository; limiters are any step function that may allow, deny or fail.
- The Redis velocity store and the Redis anomaly counter: the first rounds and needs unique members, and the second ranges over counts as if they were minutes, so it does not agree with the in-process counter.
- Custom velocity rules and custom risk assessors; `lock.Manager.With`, which is acquire, call and release.
- SHA-256 and random tokens: any hash function with no collision among the payloads compared, and tokens not drawn before.
- Go's growth factor for slices: any larger array.
- challenge/, devicetrust/, notify/, config/, HTTP headers and JSON, audit callbacks, tracing and context cancellation: these would only add easy members.
