# Webhook relay: verified model

A Dafny 4.11 model of the stateful core of the webhook relay: how an accepted webhook travels from
the gateway through the transactional outbox, the transform worker and the delivery engine, and
what the Redis structures on its way (rate limiter, circuit breaker, idempotency keys,
authentication counters) really promise. `dafny verify dfyconfig.toml` checks all of it.

| file | what it models |
|---|---|
| `Common.dfy` | options, results, the clock, key expiry, a few facts about division |
| `RateLimiter.dfy` | the sliding-window limiter: a pruned, expiring sorted set per key |
| `CircuitBreaker.dfy` | the per-destination breaker over its four Redis keys |
| `Outbox.dfy` | gateway, outbox rows, any number of relays, the raw-events log |
| `Delivery.dfy` | the retry machine of one delivery, and the engine that runs it |
| `Fleet.dfy` | any number of deliveries interleaved over shared breakers and limiters |
| `FleetRoutes.dfy` | whose answer each limiter call is, and what a route's own limit bounds |
| `FleetRecovery.dfy` | which fleets can leave a breaker stuck, and that stuck is final |
| `DeadLetterList.dfy` | the dead-letter listing, and its composition with the delivery engine |
| `Gateway.dfy` | the checks, the idempotency claim and the stored rows of one request |
| `Idempotency.dfy` | concurrent requests between claim and commit, with crashes |
| `Template.dfy` | the placeholder scanner |
| `Transform.dfy` | path expressions, template bodies, pipelines |
| `TransformWorker.dfy` | fan-out of an event over its routes, and the consumer's offsets |
| `AuthRateLimit.dfy` | the fixed-window counter in front of registration and login |

## How the model is built

- Objects that change in place are classes (`SlidingWindowRateLimiter`, `CircuitBreaker`,
  `OutboxRelay`, `DeliveryWorker`, `Gateway`, `TransformWorker`, `AuthLimiter`). Their methods follow
  the branches of the source and are proved against specification functions; the promises are
  lemmas about those functions over every history or run.
- The protocols are step systems (`Outbox`, `Fleet`, `Idempotency`, the breaker's `System`, the
  consumer loop of `TransformWorker`). A run is a sequence of enabled steps in any order, and every theorem about
  runs speaks of all of them.
- Time is a count of microseconds. A key with a time to live is gone once its deadline is reached.
  One breaker method, one limiter pipeline, one INCR with its EXPIRE, and one SET NX are each one
  atomic step.
- HTTP outcomes, jitter, send results, crashes, commit failures and what other deliveries do in the
  meantime are arbitrary inputs.
- HMAC, JSON parsing, JSON Schema, JMESPath, IP networks, UUIDs, Python's `str`, `strip`, `float` and
  float division are uninterpreted functions of a `Library`.

## What the proofs found

- Breaker recovery: the breaker can lock itself open for good. HALF_OPEN with `half_tested` set is a
  dead end once nobody is in flight (`CircuitBreaker.StuckIsAbsorbing`, `FleetRecovery.ShutForGood`),
  and the only one (`RecoversUnlessStuck`, `SendsAgainIff`). Deliveries end there for every positive
  destination limit (`StuckIff`): a prober that the cooldown lets through meets a full window of its
  destination, is let through again by the gate a second later, and is denied again
  (`StuckByDestination`). Without any denial they end there, through two probes failing 60 s apart,
  exactly when the threshold is at least two (`StuckWithoutDenialIff`). Neither run uses the limit of
  a route: workers/delivery_worker.py:81-89 passes none on, and `schedule_deliveries`
  (app/delivery/worker.py:17-32), which would, has no caller.
- Breaker throttling: an interval of n cooldowns can hold n + 2 admissions (`ThrottleBoundIsTight`), not
  one probe per cooldown: the branch that moves OPEN to HALF_OPEN admits without taking the gate. The
  destination's limiter may still hold the requests back.
- Clock skew: with callers' clocks lagging by up to d, the limiter's bound holds for windows of 60 s - d
  (`AllowedBound`); one tick more and they can hold twice the limit (`SkewBoundIsSharp`).
- Authentication limit: 2 * limit - 1 attempts, and not more, can pass in 60 s (`FixedWindowBound`,
  `FixedWindowBoundIsTight`).
- Idempotency: a claim ends in a stored event if and only if its request does not crash, or fail to
  commit, in between (`ClaimIsStoredIff`). If it does crash, retries are answered "duplicate" until the
  claim expires (`CrashLosesClaim`). ARCHITECTURE.md's "No data loss" is about events that were
  committed, and for those it holds (`NoLoss`).
- Dead-letter listing: the listing joins on event and attempt number only, so an event with several routes
  can be listed several times and an entry can show another route's success (`SuccessCanBeShown`),
  exactly when a delivery was answered below 500 at the largest failing attempt number
  (`HarmlessEntryIff`).
- Documentation against code: ARCHITECTURE.md sends failing transforms to the dead-letter topic, while
  the worker logs and skips the route (workers/transform_worker.py:144-152); it speaks of a delivery-side
  idempotency key, which app/delivery/worker.py does not have; and it calls the failures that open
  the breaker consecutive, while the counter also restarts after 60 s without a failure. The model
  follows the code.

## Model

| member | source | states |
|---|---|---|
| `RateLimiter.ExactRefinement` | app/core/rate_limiter.py:13-31 | on one clock, the pruned and expiring set allows a call if and only if fewer than `limit` earlier calls of the whole history, denied ones included, fall in (now - 60 s, now] |
| `RateLimiter.NothingLost` | app/core/rate_limiter.py:23-28 | pruning and key expiry never lose a score that a later call could still count, with callers lagging the server by up to `skew` |
| `RateLimiter.KeptKeepsWindow` | app/core/rate_limiter.py:24-27 | what one call keeps of the stored set counts, in the window, exactly the history's calls |
| `RateLimiter.StoredDeadline` | app/core/rate_limiter.py:27 | the key lives at least 60 s beyond every recorded call |
| `RateLimiter.StoredScores` | app/core/rate_limiter.py:26 | every stored score is the timestamp of some recorded call |
| `RateLimiter.AllowedSeesAll` | app/core/rate_limiter.py:30-31 | a call allowed inside a window of 60 s - skew was preceded there by fewer than `limit` calls |
| `RateLimiter.AllowedBound` | app/core/rate_limiter.py:13-31 | over every history, at most `limit` calls are allowed with timestamps in any window of 60 s - skew |
| `RateLimiter.SkewBoundIsSharp` | app/core/rate_limiter.py:19-31 | for every skew up to 60 s and every limit, a window one tick longer can hold twice the limit |
| `RateLimiter.AgreeAfterCall` | app/core/rate_limiter.py:23-28 | a call on one key keeps all stored sets equal to what the histories lead to |
| `RateLimiter.NextAnswer` | app/core/rate_limiter.py:30-31 | the answer computed from the stored set is the history's answer, and on one clock the window count's |
| `RateLimiter.SlidingWindowRateLimiter.Pipeline` | app/core/rate_limiter.py:23-30 | prunes, counts, adds and re-expires one key, touching no other; its count decides admission under every positive limit |
| `RateLimiter.SlidingWindowRateLimiter.AllowRequest` | app/core/rate_limiter.py:13-31 | answers by the full history of the key, records the call, takes the default limit when none is given, leaves other keys alone |
| `CircuitBreaker.ThrottleBound` | app/delivery/circuit_breaker.py:13-32 | once opened and until a success, any interval of length L has at most floor(L / cooldown) + 2 admissions, with stale failures interleaved anywhere |
| `CircuitBreaker.ThrottleFrom` | app/delivery/circuit_breaker.py:19-30 | from any opened state: one admission per cooldown counted from the next possible one, plus the gate's if it is still free |
| `CircuitBreaker.DeliveriesThrottled` | app/delivery/circuit_breaker.py:13-50 | the same bound for runs of deliveries, each reporting only what it was let through for |
| `CircuitBreaker.ThrottleBoundIsTight` | app/delivery/circuit_breaker.py:13-50 | for every n, threshold and positive cooldown, deliveries starting from a fresh breaker reach n + 2 admissions in n cooldowns, every failure being that of one admitted before |
| `CircuitBreaker.CooldownSpacing` | app/delivery/circuit_breaker.py:19-24 | two admissions by the OPEN branch with no success between them are at least a cooldown apart |
| `CircuitBreaker.GateOnce` | app/delivery/circuit_breaker.py:26-30 | the SETNX gate admits at most one call between successes |
| `CircuitBreaker.StuckIsAbsorbing` | app/delivery/circuit_breaker.py:26-30 | HALF_OPEN with half_tested set and nobody in flight never changes again and never admits |
| `CircuitBreaker.RecoversUnlessStuck` | app/delivery/circuit_breaker.py:13-50 | from every state, some continuation admits a call if and only if the state is not that one or an admitted delivery can still report |
| `CircuitBreaker.StuckThroughCounterExpiry` | app/delivery/circuit_breaker.py:43-50 | for the breaker alone, with a threshold of two or more: probes failing more than the counter's lifetime apart reach the stuck state |
| `CircuitBreaker.ChainExtends` | app/delivery/circuit_breaker.py:45-46 | how the longest chain of failures less than 60 s apart grows with one more failure |
| `CircuitBreaker.FailureFollowsChain` | app/delivery/circuit_breaker.py:43-50 | a recorded failure sets the counter to the longest unbroken chain ending in it and opens the breaker exactly when that reaches the threshold |
| `CircuitBreaker.CounterRefinesHistory` | app/delivery/circuit_breaker.py:34-50 | over every run the expiring counter is the length of the current unbroken chain of failures since the last success |
| `CircuitBreaker.AnswerFollowsHistory` | app/delivery/circuit_breaker.py:13-50 | over every run a query is denied if and only if a failure opened the breaker with no success since, and either its cooldown is not over and no query has come after it, or one has and another query has passed the gate since |
| `CircuitBreaker.KeysAlwaysFollow` | app/delivery/circuit_breaker.py:13-50 | over every run the stored state, open_since and half_tested are exactly what the history of calls says |
| `CircuitBreaker.DenialNeedsChain` | app/delivery/circuit_breaker.py:16-50 | behind every denial an unbroken chain of failures reached the threshold, with no success since: until then every query is admitted |
| `CircuitBreaker.FailureOpens` | app/delivery/circuit_breaker.py:43-50 | over every run a recorded failure opens the breaker if and only if the chain it ends reaches the threshold |
| `CircuitBreaker.CircuitBreaker.IsOpen` | app/delivery/circuit_breaker.py:13-32 | answers "open" if and only if the history of calls denies the query, in the terms of `AnswerFollowsHistory`; the call joins the history |
| `CircuitBreaker.CircuitBreaker.RecordSuccess` | app/delivery/circuit_breaker.py:34-41 | all four keys are gone; the call joins the history |
| `CircuitBreaker.CircuitBreaker.RecordFailure` | app/delivery/circuit_breaker.py:43-50 | opens exactly when the chain of failures reaches the threshold, otherwise leaves state and open_since; half_tested is never cleared |
| `Outbox.AcceptKeeps` | app/gateway/handler.py:126-143 | the gateway's transaction keeps the protocol invariant: one record per event, its status against the log, locks disjoint, copies accounted for |
| `Outbox.ClaimKeeps` | workers/outbox_relay.py:56-63 | claiming unlocked pending rows keeps the invariant |
| `Outbox.SendKeeps` | workers/outbox_relay.py:69-99 | publishing one record keeps the invariant, whether the send is acknowledged, raises after appending, or raises without |
| `Outbox.CommitKeeps` | workers/outbox_relay.py:101 | a commit, also of a batch cut short by the stop signal, keeps the invariant |
| `Outbox.CrashKeeps` | workers/outbox_relay.py:55-101 | a crash rolls the rows back, not the log, and keeps the invariant |
| `Outbox.InvAlways` | workers/outbox_relay.py:54-101 | the invariant holds after every interleaving of gateways and relays |
| `Outbox.AcceptedStays` | app/gateway/handler.py:126-143 | the events of a run are exactly the accepted ones |
| `Outbox.NoLoss` | workers/outbox_relay.py:54-101 | every accepted event has exactly one record, pending with attempts under 10, failed with 10, or completed and in the log; it is queued if and only if completed |
| `Outbox.Conservation` | workers/outbox_relay.py:69-101 | copies in the log = those of rolled-back transactions + committed ones whose send raised + one if an open transaction appended it + one if completed |
| `Outbox.DuplicateBound` | workers/outbox_relay.py:73-79 | apart from rolled-back transactions an event is appended at most 10 times |
| `Outbox.AttemptsAreErrors` | workers/outbox_relay.py:75-76 | over every run a record's attempts are the committed transactions in which its send raised, and nothing else changes them |
| `Outbox.ClaimsAreDisjoint` | workers/outbox_relay.py:57-63 | no two relays ever hold the same row |
| `Outbox.ExactlyOnce` | workers/outbox_relay.py:54-101 | in a run without crashes and lost acknowledgements every completed event is in the log once, every failed one not at all |
| `Outbox.Select` | workers/outbox_relay.py:57-63 | the batch is the first unlocked pending rows in creation order, at most `room`: every such row before a chosen one is chosen, and all of them when the batch is not full |
| `Outbox.OutboxRelay.PublishOne` | workers/outbox_relay.py:73-99 | publishing one record and changing the session's copy of it is the protocol's send step for that record |
| `Outbox.OutboxRelay.PublishBatch` | workers/outbox_relay.py:69-99 | the inner loop performs the protocol's send steps on the batch, in order, up to the stop signal |
| `Outbox.OutboxRelay.Round` | workers/outbox_relay.py:54-101 | one round claims the selected batch, settles its handled prefix, changes no other row, and is a run of the protocol; undisturbed it is one round of the draining theorems |
| `Outbox.RoundSpends` | workers/outbox_relay.py:69-90 | a round spends at least one remaining attempt for each record of its batch |
| `Outbox.SmallRound` | workers/outbox_relay.py:56-101 | when all pending records fit in a batch, a round leaves each of them one attempt less |
| `Outbox.LargeRound` | workers/outbox_relay.py:20-22 | a full batch spends at least ten attempts |
| `Outbox.DrainBound` | workers/outbox_relay.py:20-101 | R + 10 rounds, as a fold of `Round`'s effect on the rows, leave nothing pending, whichever sends fail |
| `Outbox.RoundRun` | workers/outbox_relay.py:54-101 | while no transaction is open, such a round is a run of the protocol: claim, sends, commit of one relay |
| `Outbox.DrainFromAnywhere` | workers/outbox_relay.py:54-101 | from every reachable state, once open transactions are rolled back, R + 10 rounds of a relay working alone in the protocol leave every record completed or failed, for every pattern of send results |
| `Delivery.AuditAlways` | app/delivery/worker.py:35-170 | in every state of a delivery the rows are numbered 0, 1, 2, ... and all but the last are reasons to go on |
| `Delivery.FinishedAudit` | app/delivery/worker.py:51-170 | a finished delivery has one row per attempt 0..k, k < max(1, max_retries); all but the last are breaker-open, transport error or 5xx; the dead-letter topic is tried if and only if the last is a transport error or 5xx, and then the attempts are used up; one letter is left if and only if the send was acknowledged or raised after appending |
| `Delivery.FailureLeavesTrace` | app/delivery/worker.py:51-90 | the last row of a finished delivery carries an error or a status of 500 and above unless the destination answered below 500 |
| `Delivery.RowsFollowAnswers` | app/delivery/worker.py:51-170 | the rows are, in order, the open breakers, the route-limit denials, the sixth denial of an attempt by the destination limit, and the outcomes of the requests; and the delivery ends exactly with a route-limit denial, a sixth denial, a report of no server failure, or an open breaker or server failure at the last attempt |
| `Delivery.RequestIsAdmitted` | app/delivery/worker.py:51-106 | every request comes right after the admissions of the breaker, of the route limit if the route has one, and of the destination limit |
| `Delivery.StepDescends` | app/delivery/worker.py:42-149 | every step descends in (attempts left, waits left, phase) |
| `Delivery.RunsAreFinite` | app/delivery/worker.py:35-170 | a delivery takes at most 36 * max(1, max_retries) + 5 steps |
| `Delivery.TimeBound` | app/delivery/worker.py:42-149 | at most 6 * max(1, N) calls, and sleep of at most the sum over a < N - 1 of max(1.5 * base delay of a, cooldown) plus 5 s per attempt; the base delays are those of `BackoffDoubles` |
| `Delivery.BackoffNeverShrinks` | app/delivery/worker.py:146-148 | backoff sleeps never shrink from one to the next, whatever the jitter |
| `Delivery.BackoffDoubles` | app/delivery/worker.py:146 | the base delay of every attempt n is the configured backoff plus the base delays of attempts 0..n-1, so the schedule doubles |
| `Delivery.FirstDelay` | app/delivery/worker.py:146-148 | the delays that can follow attempt 0 are exactly those from the backoff b to 1.5 * b, if max_retries leaves a retry |
| `Delivery.BackoffTotal` | app/delivery/worker.py:146-148 | the backoff sleeps before attempt n add up to at most 1.5 * (base delay of n - b), and without a breaker-open row to at least base delay of n - b |
| `Delivery.TimeInClosedForm` | app/delivery/worker.py:60-148 | all sleep is at most 1.5 * (base delay of the last attempt - b), plus one cooldown per breaker-open row, plus 5 s per attempt |
| `Delivery.CooldownsAreRows` | app/delivery/worker.py:60-62 | the cooldown sleeps are the number of breaker-open rows times the cooldown, none if it is negative |
| `Delivery.SleepAccount` | app/delivery/worker.py:60-148 | the sleep asked for is exactly a cooldown per breaker-open row that was followed by another attempt, the drawn backoffs, and one second per wait |
| `Delivery.ReportLeavesLetter` | app/delivery/worker.py:143-170 | a dead letter is left by the report of the last failure and by nothing before it |
| `Delivery.DeliveryWorker.PassBreaker` | app/delivery/worker.py:51-64 | the delivery is let through if and only if the history of the breaker's calls admits it; an open breaker costs the attempt its row, and goes on to the next attempt if one is left |
| `Delivery.DeliveryWorker.AskLimiter` | app/core/rate_limiter.py:13-31 | one call on that key under that limit is recorded, and the answer follows from the calls before it |
| `Delivery.DeliveryWorker.PassRouteLimit` | app/delivery/worker.py:66-76 | a denial on the route's key under the route's limit writes a row and ends the delivery |
| `Delivery.DeliveryWorker.PassDestLimit` | app/delivery/worker.py:78-90 | a denial on the destination's key means one more wait of a second, and after five waits a row and the end |
| `Delivery.DeliveryWorker.Send` | app/delivery/worker.py:92-129 | exactly one row for the attempt, with its outcome |
| `Delivery.DeliveryWorker.ReportToBreaker` | app/delivery/worker.py:134-138 | 2xx adds a success to the breaker's history; everything else, 3xx and 4xx included, a failure |
| `Delivery.DeliveryWorker.RetryOrGiveUp` | app/delivery/worker.py:131-170 | retries exactly after a transport error or 5xx with an attempt left, otherwise ends |
| `Delivery.DeliveryWorker.ReportOutcome` | app/delivery/worker.py:131-170 | the breaker hears a success for 2xx and a failure otherwise, then the delivery retries exactly after a transport error or 5xx with an attempt left |
| `Delivery.DeliveryWorker.PassLimits` | app/delivery/worker.py:66-90 | both limits in turn: on to the request, one more wait, or the end |
| `Delivery.DeliveryWorker.Perform` | app/delivery/worker.py:92-149 | one request, its row, its report, and a retry exactly after a server failure with an attempt left |
| `Delivery.DeliveryWorker.DeliverWithRetry` | app/delivery/worker.py:35-170 | terminates, with rows, sleep and dead letters those of a finished run of the machine, whatever other deliveries do to breaker and limiter |
| `Fleet.ActKeeps` | app/delivery/worker.py:51-138 | a step of any delivery keeps: limiter histories in clock order, admissions on the destination's key granted, none held or used twice (for the limits of routes see `FleetRoutes`) |
| `Fleet.InvAlways` | app/delivery/worker.py:35-170 | so it holds after every interleaving of any number of deliveries |
| `Fleet.DistinctGrants` | app/core/rate_limiter.py:30-31 | distinct granted admissions of a window are no more than the calls allowed in it |
| `Fleet.GlobalThrottle` | app/delivery/worker.py:78-106 | HTTP requests map injectively to granted admissions on their destination's key, so those admitted in any 60 s, less the clock skew of the callers, never exceed the configured limit |
| `Fleet.FleetAudit` | app/delivery/worker.py:35-170 | in every interleaving each delivery keeps the audit trail, the time bound and the step bound of a delivery run alone |
| `Fleet.BreakerFollowsCalls` | app/delivery/worker.py:51-138 | all deliveries together drive a destination's breaker as one run of calls in clock order |
| `Fleet.DenialsFollowCalls` | app/delivery/worker.py:51-64 | over every run a delivery that asks a breaker gets the answer that the history of all calls on its destination says, and behind a denial stands a chain of failures that reached the threshold with no success since |
| `Fleet.ReportsFollowOutcomes` | app/delivery/worker.py:131-138 | over every run a report leaves the keys of the destination's history with one more success after a 2xx, and with one more failure after any other outcome |
| `Fleet.FleetBreakerThrottle` | app/delivery/worker.py:51-64 | once a destination's breaker opened and until a success, the deliveries let past it in an interval number at most one per cooldown plus two |
| `FleetRoutes.AnswersAreVerdicts` | app/delivery/worker.py:66-90 | over every run the calls on a limiter key and the answers of the deliveries that ask on it correspond one to one: each call is made under the limit that is due, each answer is its call's verdict, and no answer is without a call |
| `FleetRoutes.RequestPassedRoute` | app/delivery/worker.py:66-106 | every request along a route with a limit of its own was let through by a granted call on the route's key, made for the same attempt |
| `FleetRoutes.RouteThrottle` | app/delivery/worker.py:66-76 | if no delivery's route with an id has a limit above r, the requests whose admission on the route's key falls in 60 s, less the clock skew, are at most max(r, 0) |
| `FleetRoutes.BookAlways` | app/delivery/worker.py:66-106 | the invariant behind these: every limiter call has its answer, every limiter answer its call, and every request its sender, all different |
| `FleetRecovery.ShutForGood` | app/delivery/worker.py:51-64 | once a destination's breaker is stuck and no delivery is past it, no run of the fleet changes that or sends the destination another request |
| `FleetRecovery.StuckIff` | app/delivery/worker.py:51-90 | whatever the threshold and the cooldown, deliveries that all end can leave a breaker stuck if and only if the destination limit is positive, and the same if no route has a limit of its own |
| `FleetRecovery.StuckByDestination` | app/delivery/worker.py:78-90 | the run behind it, without route limits: the breaker opens while the destination's window is full, denied deliveries keep it full until the cooldown is over, and one prober passes the breaker and is denied twice |
| `FleetRecovery.BusyIsFull` | app/core/rate_limiter.py:24-31 | as many calls at one instant as the limit keep the window full for a minute |
| `FleetRecovery.StuckWithoutDenialIff` | app/delivery/circuit_breaker.py:43-50 | without any denial they can if and only if, moreover, the threshold is at least two |
| `FleetRecovery.StuckByExpiry` | app/delivery/circuit_breaker.py:43-50 | the run behind it, without route limits: two probes report 60 s apart, each finding the counter gone |
| `FleetRecovery.SilentAlways` | app/core/rate_limiter.py:14-16 | with a limit of zero or less nothing is ever sent and no breaker hears of anything |
| `FleetRecovery.ProbedAlways` | app/delivery/circuit_breaker.py:48-50 | with a threshold of one or less and no denials, a half-open breaker always has a probe that is still to report |
| `FleetRecovery.SendsAgainIff` | app/delivery/worker.py:35-170 | when every delivery has ended, the destination can ever be sent another request if and only if its limit is positive and the breaker is not stuck |
| `DeadLetterList.MaxFailingIsMax` | app/api/events.py:140-151 | the grouped subquery yields the largest attempt number of the failing rows, and no group exactly when none failed |
| `DeadLetterList.EntriesAreLatest` | app/api/events.py:153-170 | an event's entries are exactly its rows with that number, each with the exact count of all its rows |
| `DeadLetterList.ListedIffFailed` | app/api/events.py:140-196 | an event is listed if and only if it belongs to the workspace, is not hidden as discarded, and some attempt of it failed |
| `DeadLetterList.ListSplits` | app/api/events.py:173-196 | the listing of some events and then others is the one listing and then the other |
| `DeadLetterList.ListOfOne` | app/api/events.py:173-196 | an event of the workspace that is not hidden contributes exactly its entries, any other event none |
| `DeadLetterList.ShownRow` | app/api/events.py:172-212 | every entry shows a row with the largest failing attempt number and the exact total |
| `DeadLetterList.EntriesPerEvent` | app/api/events.py:153-161 | a failed event has as many entries as rows, failing or not, with that number |
| `DeadLetterList.EntriesShowFailures` | app/api/events.py:153-161 | all entries of an event show failures if and only if all its rows with that number failed |
| `DeadLetterList.FailedDeliveryHasOneEntry` | app/api/events.py:140-170 | an event whose rows are those of one failed delivery has one entry: the delivery's last row and the number of its attempts |
| `DeadLetterList.HarmlessEntryIff` | app/api/events.py:153-161 | with any number of routes, an entry shows no failure if and only if a delivery ended with an answer below 500 at the event's largest failing attempt number |
| `DeadLetterList.SuccessCanBeShown` | app/api/events.py:153-196 | a concrete table with two routes: the event is listed twice, once with a 200 |
| `DeadLetterList.FailedDeliveryIsListed` | app/delivery/worker.py:51-170 | a delivery that ended in the dead-letter topic, on an open breaker, or turned away by a limiter leaves its event listed, whatever else the table holds |
| `Gateway.ReadLimitedBody` | app/gateway/handler.py:24-30 | the whole body if it fits the limit, nothing otherwise, wherever the chunk borders are |
| `Gateway.ClientIpAllowed` | app/gateway/handler.py:33-50 | allowed if and only if the list is empty or the readable client address is in some readable entry |
| `Gateway.Gateway.CheckContent` | app/gateway/handler.py:82-110 | 401, 400 and 422 exactly for a bad signature, unparsable JSON and a schema violation, in that order |
| `Gateway.Gateway.CheckRequest` | app/gateway/handler.py:60-110 | the request passes if and only if every check does; each rejection code if and only if its check is the first to fail; the limiter counted exactly the requests that got that far |
| `Gateway.Gateway.ThrottledIff` | app/gateway/handler.py:76-80 | on one clock, an endpoint limited to n requests a second turns a request away if and only if at least 60 * n calls on its key fall in the last 60 s |
| `Gateway.Gateway.StoreEvent` | app/gateway/handler.py:126-143 | one event and one outbox row for it if the transaction commits, neither if it does not |
| `Gateway.Gateway.ReceiveWebhook` | app/gateway/handler.py:54-146 | exactly which requests are rejected and which are duplicates; what each answer leaves in the tables, in the idempotency keys and in the limiter; no rejected request consumes a claim, a failed commit does |
| `Idempotency.StepKeeps` | app/gateway/handler.py:112-143 | claims on one key are a time to live apart, each owned by at most one request, and every duplicate reply explained, after any step |
| `Idempotency.InvAlways` | app/gateway/handler.py:112-143 | so after every interleaving, crashes included |
| `Idempotency.StoredApart` | app/gateway/handler.py:112-143 | stored events of one endpoint with the same non-empty key come from different claims at least the time to live apart |
| `Idempotency.DuplicateHasClaim` | app/gateway/handler.py:115-117 | behind every duplicate reply there is an earlier claim still within its time to live |
| `Idempotency.OwnedUnlessCrash` | app/gateway/handler.py:115-143 | over every run a claim has a stored event or a request on the way to one if and only if its own request did not crash |
| `Idempotency.ClaimIsStoredIff` | app/gateway/handler.py:115-143 | once no request is on the way, a claim has led to a stored event if and only if its request did not crash |
| `Idempotency.DuplicateIsBackedIff` | app/gateway/handler.py:115-117 | behind a duplicate reply stands exactly one live claim, and an event or a request on the way to one if and only if that claim's request did not crash |
| `Idempotency.RequestsConserved` | app/gateway/handler.py:112-143 | over every run, of the requests with a key that passed every check each is stored, on its way, crashed, or answered "duplicate", and their numbers add up |
| `Idempotency.KeylessConserved` | app/gateway/handler.py:112-143 | without a key, each is stored, on its way, or crashed |
| `Idempotency.RetriesAreDuplicates` | app/gateway/handler.py:112-117 | while a claim is alive every request with its key is answered "duplicate", no claim is granted, and nothing is stored but what was on its way |
| `Idempotency.CrashLosesClaim` | app/gateway/handler.py:115-143 | after the owner's crash the claim never leads to an event, every retry within the time to live is a duplicate, and nothing is stored under the key unless an older request was still on its way |
| `Idempotency.CrashAfterClaimLosesEvent` | app/gateway/handler.py:115-143 | such a crash happens: no event, and a retry answered "duplicate" |
| `Idempotency.SlowRequestStoresLate` | app/gateway/handler.py:115-143 | so does the exception: a request that outlived its claim stores while a crashed one's claim is alive |
| `Template.MatcherIsShortest` | app/transform/engine.py:6 | at every position the matcher finds the shortest match, and none only when there is none |
| `Template.TilingExists` | app/transform/engine.py:68-70 | every text is tiled by literals in which no match starts and shortest placeholders |
| `Template.TilingIsSource` | app/transform/engine.py:68-70 | the segments put together are the source text |
| `Template.SubIsRender` | app/transform/engine.py:68-70 | substitution is the rendering of any such tiling: leftmost-shortest placeholders replaced by the value of the text between their braces, the rest kept, nothing scanned twice |
| `Template.SubOverLiteral` | app/transform/engine.py:68-70 | text in which no match starts is copied |
| `Template.MatchFreeUnchanged` | app/transform/engine.py:68-70 | text without a placeholder is unchanged |
| `Transform.SplitJoin` | app/transform/engine.py:85-87 | splitting loses nothing and leaves no separator in any part |
| `Transform.JoinSplit` | app/transform/engine.py:85-87 | parts without a separator are the only ones that make up the text: splitting undoes joining |
| `Transform.LookupFollowsWalk` | app/transform/engine.py:86-91 | the walk ends at the end of any chain of fields along the path, and is complete exactly when the chain is |
| `Transform.EvalExpr` | app/transform/engine.py:76-100 | the loop computes the recursive lookup, then the division branch by branch |
| `Transform.EvalCases` | app/transform/engine.py:85-100 | without blanks and cut at slashes and dots: the quotient exactly when the whole path is walked to a number and the part after the slash is a number other than zero, "0" for zero, and the text of the value at the end of the walk in all other cases |
| `Transform.ApplyTemplate` | app/transform/engine.py:63-73 | the template's keys, with every text field a rendering of its tiling over the same payload and every other field copied, or an error if some expression raises |
| `Transform.TemplateCopies` | app/transform/engine.py:66-73 | the result has the template's keys; fields that are not text, or hold no placeholder, are copied |
| `Transform.ApplyPipeline` | app/transform/engine.py:13-60 | yields the end of a chain of payloads through all the steps, or the error of the first step that has no successor, with that step's index |
| `Transform.RunFollowsChain` | app/transform/engine.py:24-60 | a pipeline yields v if and only if a full chain ends in v, and an error if and only if a chain ends before a step that fails with it; a passthrough repeats the payload, a search moves to what it found and stays on null, a template moves to its rendered fields |
| `Transform.StepMoves` | app/transform/engine.py:28-58 | one step succeeds exactly with the payload it moves to, and fails exactly with the error of its missing field, over-long expression, unknown type or raising library call |
| `Transform.Composition` | app/transform/engine.py:24-60 | running p ++ q is running q, numbered on, on the result of p; errors of p come through |
| `Transform.Renumber` | app/transform/engine.py:25-58 | numbering the steps from elsewhere only shifts the index of an error |
| `Transform.DeleteIdle` | app/transform/engine.py:28-52 | deleting a passthrough, or a search that finds nothing there, never changes the outcome up to a later error's index |
| `TransformWorker.ImageFollowsRoutes` | workers/transform_worker.py:119-168 | a message is in an event's image if and only if some route wants the event and the message names event, route and url and carries what the route's pipeline makes of the event's body |
| `TransformWorker.ImageOfOne` | workers/transform_worker.py:123-168 | one route yields that one message, or none; with `ImageSplits` this settles the image of any routes |
| `TransformWorker.ImageSplits` | workers/transform_worker.py:119-120 | the image of a list of routes is that of its parts, in order |
| `TransformWorker.CutIsUnique` | workers/transform_worker.py:119-168 | what is emitted is the image up to the first send that raises, and the send results determine it |
| `TransformWorker.LastCommitIsLast` | workers/transform_worker.py:70-73 | the committed offset is the one after the last message whose commit succeeded and never goes back |
| `TransformWorker.StepKeeps` | workers/transform_worker.py:65-77 | fetch, begin, send, finish, commit and restart at any point keep the invariant on offsets, handlings and topic |
| `TransformWorker.HandlingEmits` | workers/transform_worker.py:80-168 | a handling that comes to its own end emits its cut image, one broken off by a crash a prefix of the image |
| `TransformWorker.CommittedWasHandled` | workers/transform_worker.py:65-77 | over every run each committed offset has a handling that came to its own end, and the topic is the concatenation of what the handlings emitted |
| `TransformWorker.HandledOncePerRestart` | workers/transform_worker.py:65-77 | no message is handled more often than once plus once per restart |
| `TransformWorker.HandleFetched` | workers/transform_worker.py:80-168 | handling a fetched message is a run of these steps that emits its cut image |
| `TransformWorker.TransformWorker.DispatchRoute` | workers/transform_worker.py:123-168 | appends the message that names event, route and url and carries the transformed body, exactly when the filter lets the event through, the pipeline succeeds and the send is not lost |
| `TransformWorker.TransformWorker.ProcessEvent` | workers/transform_worker.py:94-120 | appends the in-order image of the routes, cut at the first send that raises |
| `TransformWorker.TransformWorker.HandleMessage` | workers/transform_worker.py:80-91 | a malformed message or an unknown event emits nothing; otherwise that cut image |
| `TransformWorker.TransformWorker.FetchNext` | workers/transform_worker.py:66-68 | the position moves on with the fetch; on the stop signal the message is dropped |
| `TransformWorker.TransformWorker.Consume` | workers/transform_worker.py:69-73 | emits the message's cut image and commits its offset if the commit succeeds, as steps of the protocol |
| `TransformWorker.TransformWorker.Resume` | workers/transform_worker.py:43-57 | a restart resumes at the committed offset |
| `TransformWorker.TransformWorker.Run` | workers/transform_worker.py:65-77 | emissions in offset order, the offset of the last successful commit, and one message fetched and dropped when the stop signal is noticed |
| `AuthRateLimit.FixedWindowBound` | app/api/auth.py:51-56 | fewer than 2 * limit attempts on a key pass in any half-open 60 s, over every run |
| `AuthRateLimit.FixedWindowBoundIsTight` | app/api/auth.py:51-56 | from any instant on, for every limit, 2 * limit - 1 do pass in 60 s |
| `AuthRateLimit.BoundedAlways` | app/api/auth.py:52-54 | the invariant behind it: what passed, by where the running counter window starts |
| `AuthRateLimit.AuthLimiter.Count` | app/api/auth.py:52-54 | one key's counter after one more attempt, and its verdict |
| `AuthRateLimit.AuthLimiter.Check` | app/api/auth.py:38-56 | keys are counted in turn, each once, until one exceeds the limit; nothing is counted without Redis |

## Left out

- Clients of Kafka, PostgreSQL, Redis, HTTP and DNS; only their state is kept: logs, rows with locks and rollback, keys with deadlines, sorted sets. Their outages and connection errors are not modelled, except for sends, commits and crashes of the relay and of the transform worker.
- Floating point: clocks are whole microseconds, delays are reals, and the text of a quotient is an uninterpreted function.
- Breaker commands: races between the single Redis commands inside `is_open` and `record_failure`. Each method is one step.
- Fixed-window counter: a crash between INCR and EXPIRE, which would leave a counter without a deadline.
- Limiter members: their random names are taken to be distinct, so a set of scores is a sequence.
- Outbox: `last_error` texts, the polling pause, the replay endpoint's direct publishes, and the retry scheduler's appends. The retry scheduler selects events with status "failed", which no code sets. The claim step of the protocol may take any unlocked pending rows; the order by `created_at` is in `Outbox.Select`.
- Delivery: response bodies, durations, headers, methods and timeouts. URL validation and the request count as one outcome, a status or an error. A failing database write or breaker call, which would end a delivery early, is not modelled.
- Delivery worker process: its consumer, its offset commits, and its limit of 50 deliveries at a time, of which any number of processes may run. The sleeps of a delivery are accounted for in `Delivery`; a `Fleet` run may suspend a delivery for any time, and the runs that end stuck leave a second or more for each wait.
- CircuitBreaker.StuckThroughCounterExpiry: the breaker alone, where an admitted delivery may report at any time; `FleetRecovery.StuckWithoutDenialIff` has the exact condition with real limiters.
- Fleet: the limiters' callers may have lagging clocks, the breakers' have the server's.
- FleetRoutes.RouteThrottle: counts requests by the timestamp of their admission too.
- Fleet.GlobalThrottle: counts requests by the timestamp of their admission, not by the instant they are sent; app/delivery/worker.py does nothing that bounds the time between the two.
- Gateway: request headers, the payload stored with the event, detail texts of rejections, and errors the handler does not catch (bytes that are not text, an invalid schema, a signature that is not ASCII), which end in a 500 before anything is stored. A commit that takes effect although its acknowledgement is lost.
- Transform.ApplyTemplate: template bodies are maps, so the order of keys is not kept; step fields have the types the API schema gives them.
- TransformWorker: one partition and one consumer, so no rebalances; reading the database while routes are sent; messages that are not JSON objects; fields of the published message besides event, route, url and body.
- Dead-letter listing: ordering by `received_at`, paging, and the discard and restore endpoints.
- Everything else: workspaces, members and roles, endpoint and route management, tokens and passwords, URL safety checks, configuration, migrations, the dashboard, demos and chaos scripts.
