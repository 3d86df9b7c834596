# Abrio gateway: outbox protocol, credit ledger and rate limiter

Abrio accepts SMS messages, reserves their price, and hands them to a provider through a transactional outbox. This
project models two of its components in Dafny and proves what they guarantee.

**A. The outbox and the ledger.** The database is three tables: balances, messages and dispatch jobs. Every committed
transaction is one step of a state machine (`Protocol`): submit one, submit a batch, top up, relay claim, relay marks,
worker claim, worker record, reaper sweep. Time passes between steps by any non-negative amount. Any number of clients,
relays and workers interleave; a relay or a worker may die between any two of its steps; the provider may answer
anything; the broker may deliver a job id late, repeatedly or never; every `process` call has a fresh worker id. The
reaper comes twice: as one step, and as a selection and one later update with arbitrary steps between them, since the
selection locks nothing; any number of such sweeps may be under way at once. The database operations are specified as
functions on a store (`Submission`, `Delivery`, `Outbox`, `FairBatch`), and the code that performs them is written
imperatively against those functions: row objects changed in place (`Tables`), repositories (`Repositories`), the use
cases (`BalanceUseCases`, `MessageUseCases`, `DispatchUseCases`) and the relay (`Relays`). The steps of the state
machine and the methods share the same functions, so what is proved of every run is proved of what the methods do.

**B. The rate limiter.** The Redis script over a list of token buckets (`TokenBucket`, `Limiter`), with real-valued
tokens and time, a store that forgets buckets when their time to live ends, and the rules that turn a request into
buckets (`RateRules`).

## What is proved

The comments of the .dfy files refer to these statements by number.

1. Ledger: on every run each user's reservation is the cost of that user's RESERVED messages and lies between 0 and the
   credits; with atomic sweeps a job's status tells its message's payment.
2. Refinement and conservation: every step is at most one event of an account machine without jobs, leases or clocks;
   credits are deposits minus the cost of DEDUCTED messages; a settled message never changes again, nor, with atomic
   sweeps, a terminal job.
3. A split sweep cannot hurt the ledger. It can send a finished job back to RETRY: exactly when the late update hits a
   job that finished in between, and a concrete run shows it happening.
4. No delivery starts before `available_at`. With k recorded retries, h of whose waits late sweep updates cut short, at
   least the first k - h backoffs have been waited out and fit an express message's TTL; with atomic sweeps h is 0. All
   recorded backoffs fit on every run, late updates included, if and only if a finite test of the attempts limit and the
   TTL succeeds. It always does up to eleven attempts (five are shipped), whenever the TTL covers the backoffs of all
   allowed retries, and on every run with at most two cuts; with twelve attempts it fails exactly for TTLs from 211 to
   241 seconds, and then a run with three sweeps under way at once shows it.
5. Fencing: one live relay claim and one live delivery lease per job; a lost relay claim or worker lease changes nothing
   any more; only the latest worker claim can record an outcome; a message is finalised at most once.
6. Rate bound on every history, for every bucket: burst plus rate times the interval, exactly when `burst <= 2 * limit`.
   A rule with a larger burst is over-admitted by requests of cost 1, because an emptied bucket is forgotten before it has
   refilled. The same equivalence holds for the gateway's own traffic over all routes when the settings are nested, as
   the shipped ones are: no bucket deeper than the wider ones it is charged with, and the system's message bucket no
   deeper than the two message families together.
7. Denied requests are invisible to all other replies: always for a store that keeps its buckets, and for the server,
   which forgets them, exactly when `burst <= 2 * limit` for every rule. Otherwise a denied request can renew an emptied
   bucket that would have been forgotten, and refilled, without it.
8. Retry-After is exact to the second: a denied request repeated after d seconds passes if and only if d reaches the
   reply's time and no burst is below its cost. For a store that keeps its buckets that is always so; for the server it
   is so exactly for requests that can never pass or whose cost is at most twice the limit in each of their buckets,
   hence for all requests exactly when `burst <= 2 * limit` for every rule.
9. Round-robin fairness of the relay's fair pass.
10. Quality of the two-pass batch, and exactly when no user exceeds the per-user cap.
11. No job is ever stranded: every unfinished one is recoverable from a time its own fields tell. It can be finished if
    and only if its payment is still reserved; with atomic sweeps that is always so, while a job that a late update woke
    after its payment was settled can never finish.
12. The worker never fails on money, the payment audit is clean, and summaries reconcile, in every reachable state.
13. The delivery budget; and that `delivery_attempts` itself has no bound.
14. A batch does what its items do one by one, or nothing; racing submissions are accepted exactly as far as the
    credits reach.
15. Idempotency over runs.
16. Bucket expiry is invisible exactly when `burst <= 2 * limit` for every rule; every request resolves to pairwise
    distinct keys.
17. What the operations answer and write, by the columns of the tables: which answer a submission gets and what its rows
    hold, in every continuation; when a worker gets a job; which outcome each provider result gives; which keys each
    route is charged to, under whose identity; and what is reported as remaining.

Where the code and its documentation disagree, the model follows the code:

- The docstring at `src/infra/db/repositories/dispatch_jobs.py:149` says that a job whose worker keeps dying is
  eventually retired by the attempts limit. Only a recorded temporary failure consults the limit, so a job whose workers
  die before they record anything reaches every attempt count (`Budgets.AttemptsUnbounded`).
- `docs/rate-limits.md:120` says a user can claim at most `per_user_limit` slots of a batch. The top-up pass gives more
  whenever the capped backlogs do not fill the batch (`FairBatchLaws.CapHoldsIff`).
- Retry-After is wrong for two kinds of request. One whose cost exceeds a bucket's burst is denied again at the time it
  is told (`RetryAfter.RetryAfterExact`). One that costs more than twice a rule's limit, but no more than its burst, can
  be told to wait longer than the bucket lives: it passes as soon as the bucket is forgotten
  (`RetryAfter.AdmittedTooEarly`). The settings validators allow both.

## Model

| member | source | states |
|---|---|---|
| Domain.BackoffMonotone | src/infra/workers/dispatch_relay.py:81-84 | a later retry never waits less than an earlier one, the cap at 60 seconds included |
| Domain.BackoffDoubles | src/infra/workers/dispatch_relay.py:81-84 | the backoff without its jitter is 1 second first, and then always twice as long as before, up to 60 |
| Book.CloseKeepsChecks | src/infra/db/models/balance.py:34-37 | settling or releasing a reserved entry of a correct ledger can break no CHECK constraint |
| Book.ApplyValid | src/infra/db/repositories/balance.py:26-92 | opening, deposit, reservation, deduction and refund all keep reservations equal to the open entries and the CHECK constraints true |
| Book.Conservation | src/infra/db/repositories/balance.py:80-92 | credits plus deducted costs change only by what is deposited |
| Submission.FindKey | src/infra/db/models/message.py:60 | finds a row with the user's key if and only if there is one |
| Submission.DuplicateKey | src/app/usecases/messages.py:232-241 | reports a key exactly when the keys are not pairwise distinct |
| Submission.DuplicateIsFirstRepeat | src/app/usecases/messages.py:232-241 | the key reported is that of the first item whose key occurred before it |
| Safety.SubmitOnePerforms | src/app/usecases/messages.py:59-69 | a single submission is one reservation of its price or no event, and keeps the invariants |
| Safety.SubmitBatchPerforms | src/app/usecases/messages.py:123-162 | a batch submission is one reservation of all its prices or no event, and keeps the invariants |
| Safety.RefundPerforms | src/app/usecases/dispatch.py:395-412 | failing a job with a reserved payment always commits, and is exactly one refund |
| Safety.ClaimPerforms | src/app/usecases/dispatch.py:110-188 | a worker's claim is a refund when it finds the message expired and no event otherwise, and never rolls back |
| Safety.RecordPerforms | src/app/usecases/dispatch.py:228-353 | recording an outcome is one deduction, one refund or no event, and never rolls back |
| Safety.JobsOnlyPerforms | src/infra/db/repositories/dispatch_jobs.py:133-257 | a bulk update of the jobs that never enters DISPATCHING and keeps what links a job to its message leaves the ledger invariant intact, and the coupling too when it spares terminal jobs |
| Safety.StepRefines | src/app/usecases/dispatch.py:119-182 | every step of the gateway, late sweep updates included, performs exactly the account event assigned to it |
| Ledger.LedgerAlwaysCorrect | src/infra/db/repositories/balance.py:56-92 | property 1: on every run from the empty database reservations equal the open messages' cost and stay within the credits, every job mirrors its message, and with atomic sweeps COMPLETED means DEDUCTED and FAILED means REFUNDED |
| Ledger.RunRefines | src/app/usecases/dispatch.py:243-283 | property 2: every run is an execution of the account machine, event by event |
| Ledger.CreditsConserved | src/infra/db/repositories/balance.py:80-92 | property 2: credits are deposits minus the cost of DEDUCTED messages, for every user on every run |
| Ledger.SettledForGood | src/infra/db/repositories/messages.py:105-118 | once a payment has left RESERVED nothing about the message changes in any continuation |
| Ledger.FinalisedAtMostOnce | src/app/usecases/dispatch.py:243-257 | properties 2, 3 and 5: no run finalises a message twice |
| Ledger.OnlyWorkersFinalise | src/app/usecases/dispatch.py:136-175 | only an expiring claim on that job, or the recording of the call that holds its lease, ends a reservation |
| Ledger.TerminalForGood | src/app/usecases/dispatch.py:126-131 | property 2: with atomic sweeps a terminal job row never changes again |
| JobHistory.StepIsJobEvent | src/infra/db/repositories/dispatch_jobs.py:111-317 | each step does at most one of ten things to a job, and each of them only under its guard |
| JobHistory.StepKeepsMessage | src/infra/db/repositories/messages.py:105-118 | no step changes a message beyond its two statuses |
| Leases.RunLeased | src/infra/db/repositories/dispatch_jobs.py:198-317 | on every run the lock fields fit the status, nothing is in flight before `available_at`, and a worker's lock names a call that took this very job |
| Leases.NoDeliveryBeforeAvailable | src/app/usecases/dispatch.py:190-226 | property 4, first half: whatever the broker delivers and when, a claim that starts a delivery finds `available_at` passed |
| Leases.LostRelayClaimIsInert | src/infra/db/repositories/dispatch_jobs.py:198-257 | property 5: a relay that lost its claim changes nothing with either mark unless it claims again |
| Leases.RelayLeaseIsExclusive | src/infra/db/repositories/dispatch_jobs.py:111-131 | property 5: until the lease runs out no other relay's claim or mark and no atomic sweep touches the job |
| Leases.WorkerLeaseIsExclusive | src/app/usecases/dispatch.py:190-209 | property 5: while a delivery lease is fresh no second worker, relay or atomic sweep touches the job, in any run |
| Leases.LostWorkerLeaseIsInert | src/app/usecases/dispatch.py:243-257 | property 5: a call without the lease records nothing, in every continuation |
| Leases.OnlyLatestClaimRecords | src/app/usecases/dispatch.py:228-257 | property 5: after a second worker's claim the first worker's outcome is void in every continuation |
| DeliveryLaws.ClaimAnswers | src/app/usecases/dispatch.py:110-209 | property 17: which of the four answers a claim gets, and every column it then writes |
| DeliveryLaws.ClaimedIff | src/app/usecases/dispatch.py:119-226 | property 17: in every reachable state a job is taken if and only if it is published, under a relay's lock, or left for 120 seconds by its worker, with its payment reserved and its time to live not over; and expired if only the last fails |
| DeliveryLaws.RecordAnswers | src/app/usecases/dispatch.py:228-353 | property 17: which outcome each provider result gives to the holder of the lease, when a temporary failure is retried, and every column then written |
| Budgets.DeliveryBudget | src/infra/db/repositories/dispatch_jobs.py:289-303 | property 13: both counters count exactly their own events, and fewer than the maximum of delivery retries are ever recorded |
| Budgets.SpentBudgetIsTerminal | src/app/usecases/dispatch.py:299-353 | property 13: with the budget spent every committed outcome is terminal |
| Budgets.RetriesFitDeadline | src/app/usecases/dispatch.py:322-353 | property 4, second half, on every run: with k retries and h cuts, k + h attempts are spent, and the first k - h backoffs have been waited out and fit the TTL |
| Budgets.AtomicRetriesFit | src/app/usecases/dispatch.py:322-353 | property 4 with atomic sweeps: the backoffs of all recorded retries have been waited out and fit the TTL |
| RetryDeadline.RetriesEarned | src/app/usecases/dispatch.py:299-353 | property 4: on every run an express message's retries are explained by at most as many cuts as really happened, each paid with an attempt and all of them with one stall of 120 seconds |
| RetryDeadline.TwoCutsAlwaysFit | src/infra/db/repositories/dispatch_jobs.py:156-185 | property 4: a run with at most two cuts never overruns the TTL |
| RetryDeadline.AmpleTtlNeverOverruns | src/app/usecases/dispatch.py:302-322 | property 4: a TTL that covers the backoffs of all retries the limit allows is safe |
| RetryDeadline.ElevenAttemptsNeverOverrun | src/app/usecases/dispatch.py:302-322 | property 4: up to eleven attempts every TTL is safe |
| RetryDeadline.TwelveAttemptsOverrunIff | src/app/usecases/dispatch.py:302-322 | property 4: with twelve attempts exactly the TTLs from 211 to 241 are not |
| Budgets.AttemptsUnbounded | src/infra/db/repositories/dispatch_jobs.py:149-183 | for every n a run with atomic sweeps, on which each worker takes the job and dies, brings it back to the outbox with n attempts |
| HurriedRetries.FeasibleHappens | src/infra/db/repositories/dispatch_jobs.py:156-185 | property 4: every feasible mixture of waits and cuts is a run, with one selection for each late update |
| HurriedRetries.AllRunsFitIff | src/app/usecases/dispatch.py:322-353 | property 4: the backoffs of every express message fit its TTL on every run if and only if the test of the settings succeeds |
| Recovery.NoJobStranded | src/infra/db/repositories/dispatch_jobs.py:118-186 | property 11: the first moment at which a relay or a sweep can recover a job, as an equivalence |
| Recovery.CanFinishIff | src/infra/workers/dispatch_relay.py:87-159 | property 11: on every run, split sweeps included, a job can still finish if and only if it is finished or its payment is reserved, and otherwise no continuation at all finishes it |
| Recovery.EveryJobCanFinish | src/infra/workers/dispatch_relay.py:87-159 | property 11: on runs with atomic sweeps every job can |
| SplitSweep.LateUpdateKeepsCouplingIff | src/infra/db/repositories/dispatch_jobs.py:172-185 | property 3: a late update keeps jobs and payments coupled exactly when no selected job has finished |
| SplitSweep.FinishedJobCanFallBack | src/infra/db/repositories/dispatch_jobs.py:156-185 | property 3: a run after which a sent and paid message's job is in RETRY and its next claim raises the payment error, with the ledger still right |
| Audit.AuditIsClean | src/core/metrics.py:370-420 | property 12: all five counts are zero in every reachable state |
| Audit.ViolationsCounted | src/core/metrics.py:370-420 | property 12: on every database, sound or not, each count is the number of balance rows with that defect |
| Audit.WorkerNeverFailsOnMoney | src/app/usecases/dispatch.py:138-153 | property 12: no rollback on money on any run, and no unreserved payment when sweeps are atomic |
| Audit.SummariesReconcile | src/infra/db/repositories/messages.py:120-158 | property 12: sent = deducted, permanently failed = refunded, reserved = the other three, for every user in every reachable state |
| Audit.SummaryCounts | src/infra/db/repositories/messages.py:120-158 | property 12: on every table each column is the number of the user's rows with its status |
| SubmissionLaws.BatchRefinesSingles | src/app/usecases/messages.py:123-162 | property 14: when a batch is accepted, and that it then equals its items submitted one by one, and otherwise changes nothing |
| SubmissionAnswers.TotalIsPrice | src/app/usecases/messages.py:218-230 | a batch costs the number of messages of each priority at its price |
| SubmissionAnswers.SubmitOneAnswers | src/app/usecases/messages.py:59-104 | property 17: which answer a submission gets, in the order the errors are found, and every column of the rows of an accepted one |
| SubmissionAnswers.SubmitBatchAnswers | src/app/usecases/messages.py:123-189 | property 17: the same for a batch, row by row |
| SubmissionAnswers.AcceptedIsKept | src/app/usecases/messages.py:59-69 | property 17: in every continuation an accepted message has the client's recipient, body, priority and key, the price of that priority and the time of acceptance, and a worker that gets its job gets that message |
| SubmissionAnswers.AcceptedBatchIsKept | src/app/usecases/messages.py:130-162 | property 17: the same for every item of an accepted batch, at its place |
| SubmissionLaws.RaceAdmitsExactly | src/infra/db/models/balance.py:36 | property 14: of n equal submissions exactly min(n, available div cost) are accepted |
| SubmissionLaws.RunKeepsKeys | src/infra/db/models/message.py:60 | no run stores two messages with the same user and key |
| SubmissionLaws.ReplayReturnsFirst | src/app/usecases/messages.py:70-89 | property 15: a repeat returns the first id and changes nothing, in every continuation, whatever its payload |
| SubmissionLaws.RejectionLeavesKeyFree | src/app/usecases/messages.py:91-104 | property 15: a rejected submission changes nothing and leaves its key free |
| SubmissionLaws.RepeatsAreInvisible | src/app/usecases/messages.py:62-89 | property 15: a run and the run without its repeats end in the same world |
| FairBatchLaws.FairOrderSorted | src/infra/db/repositories/dispatch_jobs.py:66-85 | the interleaving is sorted by rank, then by primary key |
| FairBatchLaws.RoundRobinFair | src/infra/db/repositories/dispatch_jobs.py:66-91 | property 9: no user is more than one round behind another unless its work ran out |
| FairBatchLaws.EveryUserGetsItsOldest | src/infra/db/repositories/dispatch_jobs.py:66-91 | property 9: if the users fit the batch, each gets its oldest job |
| FairBatchLaws.BatchIsFull | src/infra/db/repositories/dispatch_jobs.py:79-103 | property 10: no duplicates, only due unlocked jobs, and min(limit, due unlocked) of them |
| FairBatchLaws.BatchInAgeOrder | src/infra/db/repositories/dispatch_jobs.py:86-103 | the batch lists the fair pass and then the top-up, each oldest first |
| FairBatchLaws.PicksAreOldest | src/infra/db/repositories/dispatch_jobs.py:86-103 | property 10: what a user gets is never younger than what the user is left with |
| FairBatchLaws.CapHoldsIff | src/infra/db/repositories/dispatch_jobs.py:92-103 | property 10: no user exceeds the cap if and only if the capped backlogs reach min(limit, due jobs) |
| RateLaws.CheckAt | src/api/rate_limit.py:78-89 | an admitted request debits exactly its cost from each of its buckets, a denied one nothing from any |
| RateLaws.LevelLater | src/api/rate_limit.py:57-58 | refills compose: two waits are one wait |
| RateLaws.ServeOk | src/api/rate_limit.py:57-86 | property 6: tokens stay between 0 and the burst on every history |
| RateLaws.RateBound | src/api/rate_limit.py:29-92 | property 6: after any past, the cost admitted to a bucket in an interval is at most its burst plus its rate times the interval |
| RateSharpness.DoubleBurst | src/api/rate_limit.py:29-92 | what every full bucket can pay at once is admitted, and admitted again when the time to live is over |
| RateSharpness.RateBoundIff | src/api/rate_limit.py:106-108 | property 6: with expiry the bound holds on all histories exactly when the burst is at most twice the limit, the witness being requests of cost 1 |
| RateLaws.DeniedInvisible | src/api/rate_limit.py:57-89 | property 7: erasing the denied requests changes no other reply and no later level, from any store that keeps its buckets and, if all rules refill within a time to live, from one that forgets them |
| RateSharpness.DeniedInvisibleIff | src/api/rate_limit.py:57-89 | property 7, exact: against the forgetting server the denied requests of every history can be erased if and only if no burst is above twice its limit |
| RetryAfter.RetryAfterExact | src/api/rate_limit.py:61-69 | property 8: repeated after d seconds the request is admitted if and only if d reaches the reply's time and no burst is below the cost, for every request against a store that keeps its buckets and for those that wait in time against one that forgets them; the reported bucket is the first that needs that long |
| RetryAfter.AdmittedTooEarly | src/api/rate_limit.py:61-88 | property 8, where it fails: a drained bucket, a denial with a retry time beyond the time to live, and admission when the time to live is over |
| RetryAfter.RetryAfterExactIff | src/api/rate_limit.py:61-88 | property 8, exact: on all traffic the server keeps its word to a request if and only if it can never pass or costs each bucket at most twice the limit |
| RetryAfter.AllRetryTimesExactIff | src/api/rate_limit.py:106-108 | property 8, exact for the rules: every request is told an exact time if and only if no burst is above twice its limit |
| RateSharpness.ExpiryInvisibleIff | src/api/rate_limit.py:49-58 | property 16: forgetting buckets changes no reply on any history exactly when every burst is at most twice its limit |
| RateRules.KeysIdentify | src/api/rate_limit.py:168-169 | property 16: two buckets share a key if and only if they share rule and identity, whatever characters the identities hold |
| RateRules.ResolveDistinct | src/api/rate_limit.py:357-458 | no route charges one rule twice |
| RateRules.ResolvedWellFormed | src/api/rate_limit.py:244-326 | property 16: every route resolves to distinct keys, under one assignment of rules to keys that fits all requests |
| RateCharges.ResolveCharges | src/api/rate_limit.py:357-458 | property 17: every route lists exactly the buckets it costs something, in their order: the caller's identity for its own rules, `global` for the shared ones, `system` for the system's |
| RateCharges.KeyCostOfKind | src/api/rate_limit.py:357-458 | property 17: what each route charges to each key it knows |
| RateCharges.BatchChargesEachMessage | src/api/rate_limit.py:373-415 | property 17: key by key, a batch is charged what its elements would be charged one by one, and 1 on the three keys that count requests |
| Limiter.BucketServer.Refill | src/api/rate_limit.py:45-58 | reads one hash and refills it: a missing or expired one is full, and a clock that stands still or goes back refills nothing |
| Limiter.BucketServer.Assess | src/api/rate_limit.py:39-76 | the first loop finds the verdict, the longest wait, the first bucket that has it, and the least remainder |
| Limiter.BucketServer.WriteBack | src/api/rate_limit.py:78-89 | the second loop writes every bucket, debited only if none was short |
| Limiter.BucketServer.Eval | src/api/rate_limit.py:29-92 | the whole script is the specified step of the store, with its reply |
| RateLaws.RemainingIsLeast | src/api/rate_limit.py:60-92 | property 17: for every list of buckets the count reported as remaining is the whole number of tokens left in the emptiest: after payment if all can pay, and otherwise as each would keep on its own |
| Limiter.RateLimiter.Check | src/api/rate_limit.py:132-166 | one check call is one script step over the keyed buckets, or nothing for an empty list |
| Limiter.DecisionTellsAll | src/api/rate_limit.py:153-166 | the client is told what the emptiest bucket is left with, neither clamp ever bites, and a denial names the first rule that has to wait longest |
| Limiter.GatewayRateBound | src/api/rate_limit.py:244-326 | properties 6 and 16 together, for arbitrary traffic over all routes against the forgetting server |
| GatewayRate.GatewayRateBoundIff | src/api/rate_limit.py:244-326 | property 6, exact: with nested bursts every bucket keeps its bound on all traffic if and only if no rule's burst exceeds twice its limit |
| GatewayRate.ShippedSettingsKeepBound | src/core/config.py:48-91 | the default limits and bursts are nested, and keep the bound of every bucket on all traffic |
| Limiter.CountBatchPriorities | src/api/rate_limit.py:518-534 | every list element is counted once, as express exactly when its priority says so |
| Limiter.MessageLimits | src/api/rate_limit.py:432-454 | no rule is charged twice; the family costs its user and everybody the given amount, the system message bucket the same and the system request bucket 1 where the flags say so, and nothing else is charged |
| Limiter.ResolveSingleMessageLimits | src/api/rate_limit.py:357-370 | builds exactly the buckets of a single submission, message and request buckets alike |
| Limiter.ResolveBatchMessageLimits | src/api/rate_limit.py:373-415 | builds exactly the buckets of a batch from its counted elements, leaving out those that would cost nothing |
| Tables.Session.Commit | src/infra/db/models/balance.py:34-37 | all loaded rows are written, or none when the balance breaks a CHECK constraint |
| Tables.Session.InsertMessages | src/infra/db/models/message.py:57-60 | a unique violation exactly when some row's key is taken when its turn comes, otherwise a foreign key violation exactly when there are rows and the user is missing |
| Repositories.BalanceRepository.TopUpUserCredits | src/infra/db/repositories/balance.py:26-30 | adds to the credits alone, or refuses a non-positive amount or a missing balance |
| BalanceUseCases.BalanceUseCase.TopUpUserCredits | src/app/usecases/balance.py:14-17 | the committed top-up is the specified step, and a refused one changes nothing |
| BalanceUseCases.BalanceUseCase.CreateUser | src/infra/db/repositories/users.py:31-34 | a new user gets an empty balance and nobody else's changes |
| Repositories.BalanceRepository.ReserveCredits | src/infra/db/repositories/balance.py:56-66 | adds to the reservation alone, or refuses |
| Repositories.BalanceRepository.ReleaseCredits | src/infra/db/repositories/balance.py:68-78 | takes from the reservation alone, or refuses |
| Repositories.BalanceRepository.Settle | src/infra/db/repositories/balance.py:80-92 | takes from reservation and credits alike, or refuses |
| Repositories.MessageRepository.MarkSent | src/infra/db/repositories/messages.py:108-110 | SENT and DEDUCTED, nothing else changed |
| Repositories.MessageRepository.MarkRetryableFailure | src/infra/db/repositories/messages.py:112-114 | FAILED and RESERVED, nothing else changed |
| Repositories.MessageRepository.MarkPermanentFailure | src/infra/db/repositories/messages.py:116-118 | PERMANENT_FAILED and REFUNDED, nothing else changed |
| Repositories.DispatchJobRepository.ClaimBatch | src/infra/db/repositories/dispatch_jobs.py:60-109 | over one listing of the due rows, claims the specified batch in its order, only rows of the priority that wait, are due and are not under a lock younger than a minute, and locks exactly those |
| Repositories.DispatchJobRepository.SelectStale | src/infra/db/repositories/dispatch_jobs.py:153-172 | only stale rows, at most the limit, and all of them when they fit |
| Repositories.DispatchJobRepository.UpdateReaped | src/infra/db/repositories/dispatch_jobs.py:173-186 | every chosen row goes to RETRY whatever it is by then, and the count is returned |
| Repositories.DispatchJobRepository.MarkPublished | src/infra/db/repositories/dispatch_jobs.py:188-219 | exactly the named rows this relay still holds are published |
| Repositories.DispatchJobRepository.MarkPublishRetry | src/infra/db/repositories/dispatch_jobs.py:221-257 | exactly the named rows this relay still holds are postponed |
| Repositories.DispatchJobRepository.MarkDispatching | src/infra/db/repositories/dispatch_jobs.py:267-272 | the worker's lease, nothing else changed |
| Repositories.DispatchJobRepository.MarkCompleted | src/infra/db/repositories/dispatch_jobs.py:274-287 | the terminal row with its lock cleared |
| Repositories.DispatchJobRepository.MarkDeliveryRetry | src/infra/db/repositories/dispatch_jobs.py:289-303 | one more attempt, due after the delay, lock cleared |
| Repositories.DispatchJobRepository.MarkFailed | src/infra/db/repositories/dispatch_jobs.py:305-317 | the terminal row with its lock cleared |
| MessageUseCases.MessageUseCase.CreateMessage | src/app/usecases/messages.py:59-104 | insert, job and reservation together or rolled back to the old database; on a sound one the answer, the columns of both rows and the balance are as property 17 says |
| MessageUseCases.MessageUseCase.BatchCreateMessage | src/app/usecases/messages.py:123-189 | all rows and one reservation together or rolled back; on a sound database the answer, the columns of every row and the balance are as property 17 says |
| MessageUseCases.MessageUseCase.CalculateBatchMessageCost | src/app/usecases/messages.py:226-230 | the number of normal messages at their price plus the number of express ones at theirs |
| MessageUseCases.CheckDuplicateIdempotencyKeys | src/app/usecases/messages.py:232-241 | the first repeated key, and none exactly when the keys are distinct |
| DispatchUseCases.DispatchUseCase.IsClaimable | src/app/usecases/dispatch.py:190-226 | published, being published under a lock, or left by a worker whose lease is over, and nothing else |
| DispatchUseCases.DispatchUseCase.PermanentlyFail | src/app/usecases/dispatch.py:395-412 | release and both closing marks, or nothing touched when the release is refused |
| DispatchUseCases.DispatchUseCase.ClaimForDelivery | src/app/usecases/dispatch.py:110-188 | a delivery context, with the message's own columns, exactly when the job was taken; on a sound database the outcome and everything written are as property 17 says |
| DispatchUseCases.DispatchUseCase.RecordOutcome | src/app/usecases/dispatch.py:228-353 | on a sound database the outcome for each provider result and everything written are as property 17 says; a lost lease or a rollback writes nothing |
| Relays.Relay.ReclaimStaleInflight | src/infra/workers/dispatch_relay.py:87-93 | one sweep sends jobs that are in flight for over two minutes back to RETRY, no others, at most the limit, and all of them when they fit |
| Relays.Relay.PublishInOrder | src/infra/workers/dispatch_relay.py:187-222 | the accepted prefix is published, everything from the first refusal on has failed |
| Relays.Relay.PublishClaimedJobs | src/infra/workers/dispatch_relay.py:162-252 | row by row: what the broker took and the relay still holds is published, the rest that it holds is postponed by one backoff, all else is left alone |
| Relays.TailWaitsLongEnough | src/infra/workers/dispatch_relay.py:231-241 | the wait is the backoff of the most retried failed job; a failed job the relay holds is due that much later, at least its own backoff and at most 61 seconds, and no relay can claim it sooner |

## Left out

- HTTP routing, request parsing, schemas, logging, Prometheus gauges, health checks: the parsed request is the input.
- PostgreSQL, SQLAlchemy, Celery, RabbitMQ and Redis themselves: transactions are atomic and roll back when a
  constraint fails, skipped rows are a given set, and the broker may do anything with a job id.
- `Tables.Session` has no identity map and no connection: a transaction passes the rows it loaded to the commit, and
  every load reads the table. The program uses one session for both transactions of a `process` call with
  `expire_on_commit=False` (`src/infra/db/session.py:19`) and loads without `populate_existing`, so its lease fence
  rests on the first transaction's row objects being gone before the second one loads them again; here it is given.
- Repositories.DispatchJobRepository.ClaimBatch: both passes read one listing and one set of locked rows, although the
  two queries are separate statements and rows may come, go or change locks between them.
- Row positions stand for the UUID primary keys, and a balance row stands for the user row created with it.
- One clock for database, workers and relays, and one reading of it per transaction; it never runs backwards. The
  limiter's clock and the server's expiry clock are one as well.
- Money is in whole cents: no NUMERIC(10,2) overflow and no rounding of top-ups. Tokens and times are reals: no
  floating-point rounding. Jitter is any value between 0 and 1.
- `last_error`, `updated_at` and the stored payload columns, which nothing in the protocol reads.
- `zero_user_credits`, a debug route that wipes reservations and would break the ledger on purpose.
- The relay's endless `run` loop: its iterations are sequences of the steps modelled here, in any order.
- A late update hits exactly the ids its sweep selected; whether PostgreSQL evaluates the subquery again after waiting
  for a row lock is not modelled.
- REAP_LIMIT and the batch sizes are parameters; the state machine lets a sweep or a claim take any allowed set of rows.
- The provider may be called more than once for one message; only the committed outcome is unique.
- Pagination, message listing, pricing, configuration loading and user creation beyond an empty balance.
- Identities are given as strings: how a body, a query or a path yields the user id is not modelled.
- Fail-open behaviour of the middleware when Redis is down.
- GatewayRate.GatewayRateBoundIff: settings whose bursts are not nested. There `Limiter.GatewayRateBound` still gives the
  bound for every rule whose burst is at most twice its limit; whether traffic can empty a deeper bucket through a
  shallower one, and so break the bound of a rule whose burst is larger, depends on all their rates and is not decided.
