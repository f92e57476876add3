# Verified model of the fishing game's economy and its supporting protocols

A Dafny model of the parts of the game where a mistake costs a player points, mass or items,
with proofs over every input, every run and every interleaving. `dafny verify dfyconfig.toml`
checks all of it.

| file | what it holds |
|---|---|
| `Basics.dfy` | stock definitions: options, minima and maxima, the mass rule, stripping and lowering |
| `Pricing.dfy` | exact prices and payouts, the searches behind `all`, and how a request is quoted |
| `MassGrammar.dfy` | the mass arguments of chat commands, parsing and printing |
| `ProviderClient.dfy` | how the StreamElements client and its callers classify one HTTP exchange |
| `StubProvider.dfy` | the scripted provider that applies, refuses, or applies and then drops a write |
| `Saga.dfy` | one operation: its row, its outbox row, the processes inside a provider call for it, and every transition |
| `SagaSafety.dfy` | which transitions of an operation can end with it closed halfway, exactly |
| `Sums.dfy`, `Ledger.dfy`, `Conservation.dfy` | all players and operations of a channel, and whole runs |
| `Outcomes.dfy` | what every exchange, worker step and decision makes of an operation, told by what crossed the wire and in the numbers of its rows |
| `Database.dfy`, `EconomyService.dfy`, `Reconciliation.dfy` | the services as classes over the committed rows, each method tied to one transition |
| `EventLog.dfy` | the sequence numbers of an operation's event log |
| `Idempotency.dfy` | at-most-once commits under one idempotency key |
| `DependencyGraph.dfy`, `ItemCatalog.dfy` | the depth-first cycle check and the mutations that rely on it |
| `ChannelReconciler.dfy` | the Twitch membership control loop |
| `ModifierResolver.dfy` | player modifiers: sort, fold, clamp |
| `Robbery.dfy` | robbery defences and the mass transfer |
| `LootTable.dfy` | multi-roll loot with a cached stock, and delivery |

## How the saga is modelled

A step is one database transaction or one provider call; requests, the outbox worker, the lease
recovery and administrators interleave freely, and what is not possible in a state changes nothing.
Mass is counted in 0.01 kg, rates in 1/10000 point per kilogram. What the first half of a request
saw, the balance it read and the Redis lease play no part: any number of requests, with any balance
in hand, may wait at the repeated check under the row lock. Each operation carries the truth beside
the rows: how often the provider applied its write and how much mass moved. The two mutable views,
rows and truth, are tied by the invariants.

Any number of processes can be inside a provider call for one operation: the request that created
it, and one worker for each time its event was claimed. Recovering a lease, or an administrator who
has an operation tried again, stops none of them, and each writes its rows when its answer comes.

Sessions keep what they have loaded across a commit, and only a rollback makes them read again. So a
worker grants a purchase by the `internal_applied_at` it loaded with its claim, and gives up an
unreadable credential by the `compensated_at` it loaded then, while its failure handlers read the
row afresh. Writers of the operation row wait for its lock: a worker holds it from the flush before
its write to its commit or rollback, a purchase's request from the start of its refund to the end.

Keys, the agreement of every operation with its outbox row and lease, and the sums of what the
operations moved hold without any hypothesis (`RowsAgree`). The other results say what they need of
a run, step by step, and each condition is proved to be the exact one.

* *Honest* (`Saga.Honest`): a definite provider error means that the write was not applied, a
  confirmed one that it was, and administrators complete, compensate or dead-letter according to
  what the provider really did. *Harmless* (`Saga.Harmless`): an outbox lease is recovered only when
  every process still inside a call of that operation has had its write applied, and will neither
  refund the provider nor grant the mass of a purchase. Together they carry value conservation.
  `SafeIff` proves for every transition that it leaves all-or-nothing within reach if and only if it
  is honest and harmless, `RecoverySafeIff` spells the condition out for a recovery, and
  `RequestSafeIff` and `WorkerSafeIff` say for which HTTP exchanges the code is honest: not for a body
  that fails to parse after a 2xx write, nor for a failing follow-up balance read.
* *Guarded* (`Saga.Guarded`): while the mass of an operation may still move, its lease is recovered
  only if every live call can do nothing but close the operation (`OnlyCloses`). Any other call may
  move the mass without looking at the row, or give the operation away under a worker that was sent
  to try again and goes by an old timestamp. The mass accounting needs nothing else;
  `MassAccountingIff` proves that it fails after any other recovery.
* *Timely* (`Saga.Timely`): a conversion's lease is recovered only once nobody is inside its call.
  One conversion per player needs nothing else; `MutualExclusionIff` proves that it fails after any
  other recovery.

The lease lasts 60 seconds and the client's timeouts are 3, 8, 5 and 3 seconds, but nothing in the
code enforces their order. The Redis request lease needs no hypothesis at all.

Where the code and its documentation differ, the model follows the code:

* The 404 branch of `get_balance` that answers zero is never reached, because `_request` raises first.
* `apply_mass_mutation` does not only keep a holder from falling through the floor: a holder that
  starts below it is raised to it. A "successful" robbery of such a victim therefore moves mass from
  the attacker to the victim, and creates mass when the attacker has too little
  (`TransferConservesIff`, `MassFromNowhere`).
* The worker treats a confirmed write with an out-of-range balance as a refusal.
* A rejoin requested while a pass joins and parts, after it has read the flag, is lost exactly when
  none of the logins it has to join and to part fails (`RejoinLostIff`). One requested while the pass
  fetches is honoured by that pass or stays pending.
* Multipliers of contributions with the scope `all` may be negative for stats that the requested
  scope does not concern. The result is then monotone exactly when it is overridden, the
  product of the multipliers is not negative, or the bounds leave a single value
  (`ResolvedMonotoneIff`, `NotMonotoneInOtherScopes`).
* A callback that commits and then raises leaves its work each time it is called under one
  idempotency key (`NothingElseIff`, `RaisingAfterCommit`); the integration test of StreamElements
  is one.

## Model

| member | source | states |
|---|---|---|
| Pricing.RoundingBounds | services/game_engine/domain/economy.py:100-113 | a price is the exact value rounded up and a payout the exact value rounded down, each off by less than a point |
| Pricing.BuyMonotone | services/game_engine/domain/economy.py:100-113 | more mass never costs less and never pays less |
| Pricing.SplittingNeverPays | services/game_engine/domain/economy.py:100-113 | splitting a purchase never lowers its cost, splitting a sale never raises its payout |
| Pricing.AffordableIff | services/game_engine/integrations/streamelements/constants.py:51-59 | a mass is affordable exactly up to balance over rate, rounded down to 0.01 kg |
| Pricing.BestBuyIsGreatest | services/game_engine/integrations/streamelements/constants.py:51-59 | the mass chosen for `all` is the greatest affordable one within the limit |
| Pricing.BestSellFits | services/game_engine/integrations/streamelements/constants.py:62-69 | a mass up to the chosen one is exactly a mass whose value fits the headroom, and its payout never passes the provider cap |
| Pricing.MaxBuyMass | services/game_engine/integrations/streamelements/constants.py:51-59 | the loop returns an affordable mass and every larger one within the limit is too dear |
| Pricing.MaxSellMass | services/game_engine/integrations/streamelements/constants.py:62-69 | the loop returns the greatest mass whose value fits the headroom; its body never runs |
| Pricing.SellQuote | services/game_engine/services/economy_service.py:181-198 | a priced sale is within holdings, channel limits and provider cap, and only an exact request can be over the cap; `SellExactIff` and `SellAllIff` say of which mass |
| Pricing.BuyQuote | services/game_engine/services/economy_service.py:340-402 | a priced purchase is within channel limits and balance and costs at least a point |
| Pricing.PriceIsPositive | services/game_engine/domain/economy.py:100-105 | a positive mass at a positive rate never comes free |
| Pricing.BuyAllIsPricedIff | services/game_engine/services/economy_service.py:963-974 | buying `all` is priced exactly when some mass within the limits is affordable |
| Pricing.SellAllNeverHitsTheCap | services/game_engine/services/economy_service.py:946-961 | selling `all` is never refused for the cap: it is priced exactly when the settled mass is worth a point and reaches the minimum |
| Pricing.SellExactIff | services/game_engine/services/economy_service.py:181-264 | an exact sale is of the least of what is asked, held and allowed, paid in whole points; the exact conditions for a price, for being over the cap, and for each refusal, in numbers |
| Pricing.SellAllIff | services/game_engine/services/economy_service.py:946-961 | selling `all` sells the greatest mass within holdings, limit and headroom; the exact conditions for a price and each refusal |
| Pricing.BuyExactIff | services/game_engine/services/economy_service.py:340-402 | an exact purchase is of exactly what is asked; the cap comes before the limits and those before the balance, and each refusal has its exact condition |
| Pricing.BuyAllIff | services/game_engine/services/economy_service.py:963-974 | buying `all` buys the greatest affordable mass within the limit; the exact conditions for a price and each refusal |
| Pricing.DocumentedPrices | tests/unit/test_streamelements_points_cap.py:29-38 | the documented examples at 1000 points per kilogram |
| Text.StripsPadding | services/game_engine/domain/economy.py:58 | any run of blanks around a text is removed, and nothing else |
| Text.StripsBlanks | services/game_engine/domain/economy.py:58 | nothing is left of a text of blanks |
| Text.BlanksAre | services/game_engine/domain/economy.py:58 | which 29 characters are blanks |
| Text.LowerIs | services/game_engine/domain/economy.py:58 | letter by letter what lowering changes |
| MassGrammar.ScanIsFullMatch | services/game_engine/domain/economy.py:19-21 | one left-to-right scan finds a split of the text into amount and unit exactly when the pattern matches, and there is only one |
| MassGrammar.HalfEvenIsNearest | services/game_engine/domain/economy.py:82 | quantizing gives the nearest whole number of 0.01 kg, ties to the even one |
| MassGrammar.NearestIsUnique | services/game_engine/domain/economy.py:82 | there is only one such number |
| MassGrammar.AcceptedIff | services/game_engine/domain/economy.py:66-85 | a text is read as a mass exactly when it spells an amount and a unit above half a quantum and not above the maximum; the mass is the nearest quantum, positive and in range; inputs that round to zero are rejected |
| MassGrammar.AcceptedAmount | services/game_engine/domain/economy.py:78-85 | the same for an amount already split off; the last range check never fires |
| MassGrammar.SameQuantitySameMass | services/game_engine/domain/economy.py:22-29 | two spellings of one quantity, in whatever units, are accepted alike and give the same mass |
| MassGrammar.RoundTrip | services/game_engine/domain/economy.py:50-85 | every mass from 0.01 kg to the maximum, printed exactly in any unit and padded with any blanks, parses back to itself |
| MassGrammar.OneOfEachUnit | services/game_engine/domain/economy.py:22-29 | one of each unit is 1, 1, 10^3, 10^6, 10^9 and 10^12 kilograms |
| MassGrammar.WholeAmounts | services/game_engine/domain/economy.py:22-29 | every whole number with each unit as it is typed, in small or capital letters, is that many kilograms, tonnes, and so on, up to the maximum |
| MassGrammar.Twelve | services/game_engine/domain/economy.py:19-21 | digits count by their place: 12kg is 12 kg |
| MassGrammar.OneAndAHalf | services/game_engine/domain/economy.py:19-21 | so do the digits behind the dot: 1.5t is 1500 kg |
| MassGrammar.HalfwayIsEven | services/game_engine/domain/economy.py:82 | .025 kg, halfway between two quanta, is 0.02 kg |
| MassGrammar.TrailingDot | services/game_engine/domain/economy.py:19-21 | a dot without digits behind it is refused |
| MassGrammar.AllIsNoMass | services/game_engine/domain/economy.py:58-64 | `all` is a mode where it is allowed, an error elsewhere, and never a number; an absent argument is an error |
| ProviderClient.Request | services/game_engine/infrastructure/se_client.py:145-201 | only a write can be ambiguous, and only a status below 400 is success |
| ProviderClient.RequestClaimsIff | services/game_engine/services/economy_service.py:445-513 | the request path concludes rightly about a truthful provider exactly when a confirmed body parses and a needed follow-up read succeeds; `RequestClasses` says which class each exchange falls into |
| ProviderClient.RequestClasses | services/game_engine/services/economy_service.py:445-514 | each of the five classes a request makes of an exchange, exactly by what crossed the wire: not connected or 429 is put off, lost or 5xx is uncertain, any other 4xx and what cannot be read turns the write down |
| ProviderClient.WorkerClaimsIff | services/game_engine/services/eventing/se_job_runner.py:203-265 | the worker concludes rightly exactly when a confirmed body parses and its balance, if any, is in range; `WorkerClasses` says which class each exchange falls into |
| ProviderClient.WorkerClasses | services/game_engine/services/eventing/se_job_runner.py:203-265 | the same for the five classes of the worker |
| ProviderClient.WorkerReadClasses | services/game_engine/services/eventing/se_job_runner.py:170-181 | the balance read before the write lets it begin exactly when it finds a balance in range with room for the points; it is tried again exactly when it was not sent |
| ProviderClient.RefundConfirmedIff | services/game_engine/services/economy_service.py:612-627 | a refund is confirmed exactly when there was room for it under the cap, its write was confirmed and its answer can be read |
| StubProvider.RunInShape | services/streamelements_stub/main.py:95-123 | a script whose steps stay in range runs to its end; balance, number of writes, status and drop follow from its shape |
| StubProvider.PutIs | services/streamelements_stub/main.py:170-186 | balance, reply and number of writes of every script that stays in range: the drop comes before the status, the stub writes once itself if no step has, and reports the balance just after the last write |
| StubProvider.RaisedAt | services/streamelements_stub/main.py:76-83 | any other script is answered with 400: it stops at its first step out of range, with the writes before it applied |
| StubProvider.StaysInRange | services/streamelements_stub/main.py:76-83 | no script takes a balance out of the points range, 0 to 2147483647 |
| StubProvider.HonestIff | services/streamelements_stub/main.py:170-186 | the reply tells the truth about the write exactly when no write precedes a step out of range and, without a drop, a scripted success follows a write and a scripted refusal does not |
| StubProvider.DropIsAmbiguous | services/streamelements_stub/main.py:112-122 | a dropped connection is ambiguous to the client whether the points moved or not |
| StubProvider.StubState.Adjust | services/streamelements_stub/main.py:76-83 | changes one balance, or nothing when out of range |
| StubProvider.StubState.ApplySteps | services/streamelements_stub/main.py:95-123 | the loop does what the script says and touches no other account |
| StubProvider.StubState.PutPoints | services/streamelements_stub/main.py:170-186 | balance, reply and number of writes after one write; the script is consumed |
| Saga.SoundStep | services/game_engine/services/economy_service.py:445-689 | every transition, whenever it comes, keeps operation and outbox row coherent, the lease with a processing event, and what the operation is about; a sale that was never tried stays untouched |
| Saga.BookedStep | services/game_engine/services/economy_service.py:1051-1064 | the timestamps go on accounting for the mass moved, however many calls are alive and whatever timestamps they loaded, unless a lease is recovered under an open-ended call of an operation whose mass may still move |
| Saga.MovesTwice | services/game_engine/services/eventing/se_job_runner.py:238 | after any such recovery some way on moves the mass twice: by an administrator and the late process, or by what a late handler makes of the operation and a worker sent to try again |
| Saga.GoodStep | services/game_engine/services/economy_service.py:445-663 | every honest and harmless transition keeps all-or-nothing, at most one live call, and what is known of the provider |
| Saga.AttendedStep | services/game_engine/services/eventing/se_job_runner.py:369-389 | with timely recoveries a closed conversion is never opened again |
| Saga.RecoveredReopens | services/game_engine/services/eventing/se_job_runner.py:369-389 | any other recovery that the row lock admits lets the conversion be closed and opened again, whatever call was alive and whatever it had heard |
| SagaSafety.GoodStays | services/game_engine/services/economy_service.py:445-663 | the same over every honest and harmless sequence of transitions of one operation |
| SagaSafety.SafeIff | services/game_engine/services/discord_admin_service.py:3186-3235 | for every transition: all honest and harmless ways on that close the operation are all-or-nothing if and only if the transition was honest and harmless |
| SagaSafety.RecoverySafeIff | services/game_engine/services/eventing/se_job_runner.py:369-389 | recovering a lease, once no lock on the row stands against it, is safe exactly when each live call has been answered, its write was applied, and it will neither grant the purchase nor refund the provider |
| SagaSafety.BadRecovery | services/game_engine/services/eventing/se_job_runner.py:369-389 | each other recovery has an honest way on that closes the operation halfway |
| SagaSafety.RejectedAgain | services/game_engine/services/eventing/se_job_runner.py:325-367 | an applied write that was queued again closes as if never applied when the next try is rejected |
| SagaSafety.LateHandlerUndoes | services/game_engine/services/eventing/se_job_runner.py:269-289 | an operation that waits for an administrator with nothing applied, and with a refusal or a retryable error still to be handled, can be tried again, completed, and then closed or queued by that late handler |
| SagaSafety.CanBeClosed | services/game_engine/services/discord_admin_service.py:3128-3235 | from every point some honest and harmless way closes the operation |
| Ledger.InvStep | services/game_engine/services/economy_service.py:836-858 | every step of the channel, without any hypothesis, keeps keys unique, rows coherent, prices fair, and a player's mass and points equal to what other sources brought plus what the operations moved |
| Ledger.SoldKeeps | services/game_engine/services/economy_service.py:179-275 | the transaction that starts a sale keeps all of these |
| Ledger.BoughtKeeps | services/game_engine/services/economy_service.py:338-430 | so does the one that starts a purchase |
| Ledger.BookedKept | services/game_engine/services/economy_service.py:1051-1064 | a guarded step keeps the timestamps of every operation accounting for the mass moved |
| Ledger.GoodKept | services/game_engine/services/economy_service.py:445-663 | an honest and harmless step keeps every operation all-or-nothing |
| Ledger.ExclusiveKept | services/game_engine/services/economy_service.py:836-858 | a timely step keeps the conversions of a player apart, whoever waits at the check |
| Conservation.RowsAgree | services/game_engine/services/economy_service.py:1095-1112 | in every state any run reaches, no key has two operations, every operation agrees with its outbox row and lease, and mass and points are accounted for |
| Conservation.MassAccounting | services/game_engine/services/economy_service.py:242-275 | in every state a guarded run reaches, a player's mass is what other sources brought, plus the purchases granted, minus the sales neither failed nor given back, whatever providers and administrators do |
| Conservation.MassAccountingIff | services/game_engine/services/eventing/se_job_runner.py:369-389 | recovering a lease keeps that accounting for good if and only if the operation moves no mass, has moved it already, or every live call can only close it |
| Conservation.MutualExclusion | services/game_engine/services/economy_service.py:836-858 | in every state a timely run reaches, however many requests wait at the check with expired Redis leases, no player has two active conversions |
| Conservation.MutualExclusionIff | services/game_engine/services/eventing/se_job_runner.py:369-389 | recovering a conversion's lease keeps that for good if and only if nobody is inside its call |
| Conservation.ValueConservation | services/game_engine/services/economy_service.py:445-663 | over every honest and harmless run an operation that is closed moved points and mass both exactly once or neither |
| Conservation.SettledBalances | services/game_engine/services/economy_service.py:445-663 | the mass and the points of a settled player moved by one and the same set of operations |
| Conservation.TradeLoses | services/game_engine/domain/economy.py:100-113 | a carried-out trade valued at a rate between selling and buying never gains, and loses less than a point when the rates are equal |
| Conservation.NoMoneyPump | services/game_engine/domain/economy.py:100-113 | over every honest and harmless run that settles, points plus the worth of the mass never grow; with one rate the loss is less than a point for each trade carried out |
| Conservation.RequestSafeIff | services/game_engine/services/economy_service.py:457-460 | for which HTTP exchanges a request's answer keeps the operation safe, exactly |
| Conservation.WorkerSafeIff | services/game_engine/services/eventing/se_job_runner.py:203-265 | the same for the worker |
| Conservation.WorkerReadSafe | services/game_engine/services/eventing/se_job_runner.py:170-181 | a worker that the balance read turns back never leaves all-or-nothing out of reach |
| Conservation.RefundSafe | services/game_engine/services/economy_service.py:603-663 | nor does the refund of a purchase with a provider that tells the truth, whatever its two exchanges bring |
| Outcomes.SaleExchange | services/game_engine/services/economy_service.py:445-514 | what every exchange makes of a sale, row by row, whatever has become of the rows meanwhile: put off, it is queued with its mass still debited; turned away, the mass is back; and nothing else changes |
| Outcomes.PurchaseExchange | services/game_engine/services/economy_service.py:516-601 | the same for a purchase: turned away it fails, confirmed and committed it is granted, and a local failure leaves the rows to the refund |
| Outcomes.RefundExchange | services/game_engine/services/economy_service.py:603-663 | a purchase is compensated exactly when its refund is confirmed, and waits for an administrator otherwise |
| Outcomes.WorkerExchange | services/game_engine/services/eventing/se_job_runner.py:203-265 | the same for the worker, which grants by the timestamp it has loaded and gives up by the row as it is |
| Outcomes.WorkerTurnsBack | services/game_engine/services/eventing/se_job_runner.py:170-258 | a balance read that forbids the write gives the operation up, unless it was not sent: then it is tried again |
| Outcomes.ClaimBegins | services/game_engine/services/eventing/se_job_runner.py:150-202 | a waiting event is processing under a lease, with its timestamps loaded, and the write begins |
| Outcomes.RecoveryEnds | services/game_engine/services/eventing/se_job_runner.py:369-389 | only a processing event is recovered; it waits for an administrator, its calls go on and nothing moves |
| Outcomes.DeclineEnds | services/game_engine/services/eventing/se_job_runner.py:110-148 | a replaced provider channel leaves a waiting event to an administrator, a missing integration gives it up |
| Outcomes.UnreadableEnds | services/game_engine/services/eventing/se_job_runner.py:154-170 | an unreadable credential gives the operation up by the timestamp loaded with the claim |
| Outcomes.CrashEnds | services/game_engine/services/economy_service.py:107-108 | a crash changes no row |
| Outcomes.RetryEnds | services/game_engine/services/discord_admin_service.py:3186-3190 | an administrator can have only a waiting operation tried again, and nothing moves |
| Outcomes.CompleteEnds | services/game_engine/services/discord_admin_service.py:3192-3201 | or completed, which grants a purchase unless it was granted |
| Outcomes.CompensateEnds | services/game_engine/services/discord_admin_service.py:3203-3229 | or, a sale only, compensated, which refunds it unless it was refunded |
| Outcomes.DeadLetterEnds | services/game_engine/services/discord_admin_service.py:3231-3235 | or dead-lettered, which moves nothing |
| Outcomes.LockExcludes | services/game_engine/services/eventing/se_job_runner.py:202-242 | while a worker writes or has its write confirmed, and while a purchase is refunded, nobody else writes the rows |
| Outcomes.OutOfTurn | services/game_engine/services/eventing/se_job_runner.py:88-153 | nothing is handled that was not answered, nor answered twice, and only a waiting event is claimed |
| Outcomes.ActiveIff | services/game_engine/services/economy_service.py:836-858 | an operation blocks its player exactly while its event is pending, processing or waiting for reconciliation |
| Outcomes.GivesUpAtTheEighth | services/game_engine/services/eventing/se_job_runner.py:269-289 | a write that is never let through is tried again after each of seven attempts and given up at the eighth, with the mass of a sale back |
| Outcomes.TurnedAwayAtTheDoor | services/game_engine/services/economy_service.py:836-858 | a request with a used key, an open operation, or a balance out of range changes nothing |
| Outcomes.SaleBegins | services/game_engine/services/economy_service.py:199-275 | a priced sale takes exactly its mass together with the new rows under a lease; one over the cap is recorded as failed and takes nothing |
| Outcomes.PurchaseBegins | services/game_engine/services/economy_service.py:342-430 | a priced purchase waits for the provider under a lease; one over the cap is recorded as failed, without points |
| Outcomes.RewardBegins | services/game_engine/services/external_action_service.py:11-66 | a reward waits for the worker, whatever else the player has open |
| Outcomes.OtherSources | services/game_engine/domain/logic/mass.py:21-42 | what the rest of the game does to a mass never takes it below zero, and what really changed is booked |
| Outcomes.SellFishEnds | services/game_engine/services/economy_service.py:179-514 | the whole of an exact sale, from the request to its answer: mass, points and state at the end |
| Outcomes.BuyFishEnds | services/game_engine/services/economy_service.py:338-601 | the whole of an exact purchase |
| Conservation.UnreadableBodyKeepsBoth | services/game_engine/infrastructure/se_client.py:203-210 | a body that does not parse after an applied credit gives every sale's mass back and keeps the points |
| Conservation.FailedReadLosesPoints | services/game_engine/services/economy_service.py:527-531 | a refused balance read after a confirmed debit closes every purchase as failed with the points gone |
| Database.Database.ApplyMassMutation | services/game_engine/domain/logic/mass.py:21-42 | the delta with the default floor of zero |
| Database.Database.CreateOperation | services/game_engine/services/economy_service.py:693-750 | one operation and its pending outbox row |
| Database.Database.MarkOutbox | services/game_engine/services/economy_service.py:1095-1112 | the outbox state, with a lease exactly when processing |
| Database.Database.Close | services/game_engine/services/economy_service.py:669-689 | both rows close together and nothing else changes |
| Database.Database.EnterCall | services/game_engine/services/eventing/se_job_runner.py:150-152 | one more process inside a provider call, nothing else |
| Database.Database.ProviderAnswers | services/game_engine/services/economy_service.py:448-457 | the provider's side of a write: the points move if it was applied, no row changes |
| Database.Database.ProviderAnswersRefund | services/game_engine/services/economy_service.py:612-627 | the same for the refund of a purchase |
| Database.Database.ProcessDies | services/game_engine/services/economy_service.py:107-108 | a crash during a call leaves the rows as committed, the lease included |
| Database.Database.CountAttempt | services/game_engine/services/eventing/se_job_runner.py:273 | one more attempt, nothing else |
| Database.Database.ReturnMass | services/game_engine/services/economy_service.py:1051-1059 | the mass of a sale goes back and the timestamp is set, nothing else changes |
| Database.Database.GrantMass | services/game_engine/services/economy_service.py:540-548 | the mass of a purchase arrives and the timestamp is set, nothing else changes |
| EconomyService.EconomyService.HasActiveOperation | services/game_engine/services/economy_service.py:836-858 | true exactly when some operation of the player is active |
| EconomyService.EconomyService.KeyUsed | services/game_engine/services/economy_service.py:1118-1133 | true exactly when the key has an operation |
| EconomyService.EconomyService.QuoteSale | services/game_engine/services/economy_service.py:181-198 | the imperative path with its search gives the sale quote that `SellExactIff` and `SellAllIff` determine |
| EconomyService.EconomyService.QuotePurchase | services/game_engine/services/economy_service.py:340-402 | computes the purchase quote |
| EconomyService.EconomyService.SellFish | services/game_engine/services/economy_service.py:179-275 | one transition of the ledger; refused requests change nothing, accepted ones debit the mass with the insert |
| EconomyService.EconomyService.StartCall | services/game_engine/services/economy_service.py:244-275 | the operation and its leased outbox row are committed before the provider is called |
| EconomyService.EconomyService.RecordFailure | services/game_engine/services/economy_service.py:199-241 | a request over the cap is recorded as failed and never tried |
| EconomyService.EconomyService.BuyFish | services/game_engine/services/economy_service.py:338-430 | one transition of the ledger; refused requests change nothing |
| EconomyService.EconomyService.QueueReward | services/game_engine/services/external_action_service.py:11-66 | one transition of the ledger |
| EconomyService.EconomyService.RestoreSell | services/game_engine/services/economy_service.py:1051-1064 | refund, timestamp and both states in one change |
| EconomyService.EconomyService.QueueRetry | services/game_engine/services/economy_service.py:665-672 | back to queued and pending |
| EconomyService.EconomyService.RequireReconciliation | services/game_engine/services/economy_service.py:674-691 | waits for an administrator |
| EconomyService.EconomyService.SettleSell | services/game_engine/services/economy_service.py:468-511 | the branches write exactly the rows of the sale handler |
| EconomyService.EconomyService.SettleBuy | services/game_engine/services/economy_service.py:539-600 | the branches write exactly the rows of the purchase handler; a local failure commits nothing |
| EconomyService.EconomyService.ExecuteSell | services/game_engine/services/economy_service.py:445-514 | the handler of the k-th call is exactly its transition, whatever has become of the rows meanwhile |
| EconomyService.EconomyService.ExecuteBuy | services/game_engine/services/economy_service.py:516-601 | the same for a purchase, which goes on to a refund after a local failure |
| EconomyService.EconomyService.CompensateBuy | services/game_engine/services/economy_service.py:603-663 | only a confirmed refund closes the purchase |
| Reconciliation.ApplyConfirmedBuyMass | services/game_engine/services/economy_reconciliation.py:13-51 | grants the mass of a purchase unless the timestamp its caller has loaded is set, whatever the row says |
| Reconciliation.RefundSaleUnless | services/game_engine/services/discord_admin_service.py:3221-3224 | refunds a sale unless the timestamp its caller has loaded is set |
| Reconciliation.OutboxWorker.RecoverExpiredLease | services/game_engine/services/eventing/se_job_runner.py:369-389 | an expired event waits for an administrator; calls in flight go on |
| Reconciliation.OutboxWorker.ClaimEvent | services/game_engine/services/eventing/se_job_runner.py:88-153 | claims a pending event under a lease, and keeps the timestamps it has loaded |
| Reconciliation.OutboxWorker.BeginWrite | services/game_engine/services/eventing/se_job_runner.py:187-202 | the flush before the write takes the row lock |
| Reconciliation.OutboxWorker.GiveUpUnreadable | services/game_engine/services/eventing/se_job_runner.py:154-170 | an unreadable credential finalizes at once, by the timestamp loaded with the claim |
| Reconciliation.OutboxWorker.DeclineEvent | services/game_engine/services/eventing/se_job_runner.py:118-148 | a missing integration finalizes, another provider channel reconciles |
| Reconciliation.OutboxWorker.FinalizeFailure | services/game_engine/services/eventing/se_job_runner.py:325-367 | a sale is compensated, and refunded unless the loaded timestamp is set; anything else fails; the event is dead |
| Reconciliation.OutboxWorker.ScheduleRetry | services/game_engine/services/eventing/se_job_runner.py:269-289 | one more attempt, or finalized at the eighth |
| Reconciliation.OutboxWorker.SettleWork | services/game_engine/services/eventing/se_job_runner.py:203-264 | the branches write exactly the rows of the worker's handler: a confirmed purchase is granted by the timestamp loaded with the claim, a failure is finalized by the row read again |
| Reconciliation.OutboxWorker.FinishEvent | services/game_engine/services/eventing/se_job_runner.py:203-264 | the handler of the k-th call is exactly its transition, whatever has become of the rows meanwhile |
| Reconciliation.ReconciliationDesk.RetryOperation | services/game_engine/services/discord_admin_service.py:3186-3190 | possible only for an event waiting for reconciliation |
| Reconciliation.ReconciliationDesk.CompleteOperation | services/game_engine/services/discord_admin_service.py:3192-3201 | completes and grants once |
| Reconciliation.ReconciliationDesk.CompensateOperation | services/game_engine/services/discord_admin_service.py:3203-3229 | only sales, refunded unless the row, read under its lock, says they were |
| Reconciliation.ReconciliationDesk.DeadLetterOperation | services/game_engine/services/discord_admin_service.py:3231-3235 | closes without moving anything |
| EventLog.UniqueAlways | services/game_engine/infrastructure/models.py:621-629 | whatever the sessions do, no number of an operation is stored twice |
| EventLog.OrderedIff | services/game_engine/services/economy_service.py:986-1008 | the pending numbers are in order exactly when the table stays increasing whichever sessions commit or roll back, in whichever order |
| EventLog.OrderedStepIff | services/game_engine/services/economy_service.py:986-1008 | a step keeps them in order exactly when the number it takes, if any, will be refused, or is above all the session sees and shared by whoever else has numbers to store |
| EventLog.IncreasingAlways | services/game_engine/services/economy_service.py:986-1008 | over every interleaving of such steps the stored numbers are strictly increasing in commit order and never rewritten |
| EventLog.ChainedStepIff | services/game_engine/services/economy_service.py:986-1008 | the pending numbers continue the table without a gap exactly as long as no append goes through a counter that is ahead |
| EventLog.NoGaps | services/game_engine/services/economy_service.py:986-1008 | however many sessions are open at once, as long as none appends through a counter left ahead, the table holds 1, 2, 3, ... without a gap |
| EventLog.GapFilledLate | services/game_engine/services/economy_service.py:512-514 | a session that goes on after its rollback leaves a gap that a later commit fills from behind |
| EventLog.SerialIncreases | services/game_engine/services/eventing/se_job_runner.py:195-241 | sessions that do not overlap only ever add numbers above the stored ones, whichever writers they use, in whatever order, and whatever they roll back |
| EventLog.AppendInOrderIff | services/game_engine/services/economy_service.py:986-997 | an append commits in order exactly when its counter was unread or not behind the stored maximum |
| EventLog.SecondWriterAborts | services/game_engine/services/eventing/se_job_runner.py:291-313 | of two handlers that start from one table the second to commit is aborted |
| EventLog.AppendAfterReconciledCollides | services/game_engine/services/economy_reconciliation.py:53-70 | an append through the counter after the reconciliation writer takes the same number |
| EventLog.ReconciledIsStored | services/game_engine/services/economy_reconciliation.py:53-70 | the number of the reconciliation writer is one above all stored and added ones, and the counter stays |
| EventLog.CollisionDropsAll | services/game_engine/infrastructure/models.py:621-629 | a taken number drops everything the session added, for good |
| EventLog.OpensAfresh | services/game_engine/services/economy_service.py:986-997 | an operation that is loaded again forgets its counter |
| EventLog.ClosedIsGone | services/game_engine/services/economy_service.py:986-997 | a closed session stores nothing more |
| EventLog.EventTable.AppendEvent | services/game_engine/services/economy_service.py:986-1008 | the next number from the counter, or from the stored maximum when unread |
| EventLog.EventTable.AppendLocalMassApplied | services/game_engine/services/economy_reconciliation.py:53-70 | flush, then one past the stored maximum; the counter is not touched |
| EventLog.EventTable.CommitSession | services/game_engine/infrastructure/models.py:621-629 | added numbers are stored all together, or not at all when one is taken |
| EventLog.EventTable.RollbackSession | services/game_engine/services/economy_service.py:512-513 | a rollback drops the added events and leaves the counter ahead |
| EventLog.HighestStored | services/game_engine/services/economy_service.py:989-995 | the maximum of the stored numbers, zero when there is none |
| Idempotency.InvStep | services/game_engine/services/idempotency_service.py:31-63 | every request, finish, failure, early commit and purge keeps the record equal to the one execution that became durable with it |
| Idempotency.AtMostOnce | services/game_engine/services/idempotency_service.py:31-63 | over every interleaving and clock exactly one execution of a key is durable with its record while that exists, none otherwise, also after expiry |
| Idempotency.NothingElseIff | services/game_engine/services/streamelements_integration_service.py:158-208 | nothing else of the key is durable exactly when no callback of it committed work of its own since the last deletion |
| Idempotency.RaisingAfterCommit | services/game_engine/services/streamelements_integration_service.py:158-208 | a callback that commits and then raises leaves its work at every call, and no record |
| Idempotency.NothingWhileReplayed | services/game_engine/services/idempotency_service.py:32-49 | until the record expires, and once nobody who missed it is running, nothing of the key becomes durable, whatever callbacks do |
| Idempotency.ExecutionsAreApart | services/game_engine/infrastructure/models.py:981-994 | between any two executions of one key that became durable with their records, the first record was deleted |
| Idempotency.RepliesAreFaithful | services/game_engine/services/idempotency_service.py:32-49 | a replay answers with the durable execution of the same payload, a conflict means another payload, a miss that no unexpired record exists |
| Idempotency.SecondFinishAborts | services/game_engine/infrastructure/models.py:981-994 | of two requests that both missed, the second to finish leaves nothing |
| Idempotency.FirstRequestExecutes | services/game_engine/services/idempotency_service.py:31-63 | a request that finds no record runs, and its answer is recorded for 86400 seconds |
| Idempotency.ReplayedUntil | services/game_engine/services/idempotency_service.py:32-59 | for exactly 24 hours every further request is answered with that response, or with a conflict for another payload |
| Idempotency.PurgedIff | services/game_engine/services/retention/retention_job_runner.py:109-117 | the record is deleted only once the 24 hours are over, and no other one with it |
| Idempotency.IdempotencyService.Lookup | services/game_engine/services/idempotency_service.py:31-49 | replay, conflict or go on, as a transition |
| Idempotency.IdempotencyService.Insert | services/game_engine/services/idempotency_service.py:51-63 | the insert makes the execution durable or takes it down |
| Idempotency.IdempotencyService.CommitOwnWork | services/game_engine/services/streamelements_integration_service.py:172-175 | work of a callback becomes durable before its record |
| Idempotency.IdempotencyService.CallbackRaised | services/game_engine/services/idempotency_service.py:51 | no record, and nothing of the callback's own transaction |
| Idempotency.IdempotencyService.DeleteExpired | services/game_engine/services/retention/retention_job_runner.py:109-117 | only expired records are deleted |
| DependencyGraph.CompleteOrderIsAcyclic | services/game_engine/services/item_dependency_validator.py:77-103 | a search that left every node, successors first, proves that there is no cycle |
| DependencyGraph.PathDescends | services/game_engine/services/item_dependency_validator.py:98-100 | along any path nodes are left in the opposite order |
| DependencyGraph.SubgraphStaysAcyclic | services/game_engine/services/item_dependency_validator.py:95-97 | fewer edges cannot make a cycle |
| DependencyGraph.Search.Enter | services/game_engine/services/item_dependency_validator.py:93-94 | white to grey; grey nodes stay exactly the path |
| DependencyGraph.Search.Leave | services/game_engine/services/item_dependency_validator.py:98-100 | grey to black, once every successor is black |
| DependencyGraph.Search.CycleFrom | services/game_engine/services/item_dependency_validator.py:87-90 | the path named by the exception is a real cycle |
| DependencyGraph.Search.Visit | services/game_engine/services/item_dependency_validator.py:86-100 | terminates on the nodes not on the path; raises with a real cycle or blackens the node and restores the path |
| DependencyGraph.Validate | services/game_engine/services/item_dependency_validator.py:77-103 | raises exactly when the graph restricted to known items has a cycle, and names one |
| ItemCatalog.ItemGraph | services/game_engine/services/item_dependency_validator.py:77-80 | the graph checked before an item is written is the graph after it, also when others already named the new item |
| ItemCatalog.DropGraph | services/game_engine/services/discord_admin_service.py:1180-1188 | the graph checked after a drop is written is the stored one |
| ItemCatalog.EnsuredGraph | services/game_engine/services/discord_admin_service.py:920-945 | creating a pool's table changes no edge |
| ItemCatalog.RemovalsKeepAcyclic | services/game_engine/services/discord_admin_service.py:882-902 | archiving an item or removing a drop cannot make a cycle, though neither is validated |
| ItemCatalog.ValidatedIff | services/game_engine/services/item_dependency_validator.py:59-103 | on an acyclic catalog the validation passes exactly when the requested catalog is acyclic |
| ItemCatalog.AcyclicForever | services/game_engine/services/discord_admin_service.py:1118-1290 | over every sequence of item upserts, archives, drop upserts and removals the graph stays acyclic |
| ItemCatalog.EdgeIff | services/game_engine/services/item_dependency_validator.py:19-56 | what an edge is, by the stored rows: an effect of one item grants the other by name, or rolls an active table with an entry for it |
| ItemCatalog.UpsertItemIff | services/game_engine/services/discord_admin_service.py:795-881 | an item is written at its version, and never into a cycle; the rows after it |
| ItemCatalog.ArchiveItemIff | services/game_engine/services/discord_admin_service.py:882-918 | an item is archived at its version; the rows after it |
| ItemCatalog.UpsertDropIff | services/game_engine/services/discord_admin_service.py:1118-1236 | a drop of an active item is entered at its version or as the first, and never so that it closes a cycle; the rows after it |
| ItemCatalog.RemoveDropIff | services/game_engine/services/discord_admin_service.py:1238-1290 | an entry is removed at its version; the rows after it |
| ItemCatalog.SelfGrantIsRefused | services/game_engine/services/item_dependency_validator.py:31-34 | in every catalog an item that grants itself is refused |
| ItemCatalog.SelfDropIsRefused | services/game_engine/services/item_dependency_validator.py:35-55 | in every catalog a drop into an active table that the item itself rolls is refused |
| ItemCatalog.AppliedOnce | services/game_engine/services/discord_admin_service.py:1118-1290 | no accepted mutation is accepted a second time, save a new item written with version 1 |
| ItemCatalog.Dependencies | services/game_engine/services/item_dependency_validator.py:19-56 | the loop collects exactly the items that `EdgeIff` draws edges to |
| ItemCatalog.CatalogService.ValidateItemDependencyGraph | services/game_engine/services/item_dependency_validator.py:59-103 | raises exactly when the stored graph with one item's effects replaced has a cycle |
| ItemCatalog.CatalogService.UpsertItem | services/game_engine/services/discord_admin_service.py:795-881 | accepted exactly when versions match and the check passes; otherwise nothing changes |
| ItemCatalog.CatalogService.ArchiveItem | services/game_engine/services/discord_admin_service.py:882-918 | accepted exactly when the version matches |
| ItemCatalog.CatalogService.EnsurePoolLootTable | services/game_engine/services/discord_admin_service.py:920-945 | the pool is linked to its table, which is created if missing |
| ItemCatalog.CatalogService.WriteEntry | services/game_engine/services/discord_admin_service.py:1145-1180 | the row of an item in a table, at its version or as the first one |
| ItemCatalog.CatalogService.UpsertDrop | services/game_engine/services/discord_admin_service.py:1118-1236 | accepted exactly when versions match and the check passes; a refusal rolls everything back |
| ItemCatalog.CatalogService.RemoveDrop | services/game_engine/services/discord_admin_service.py:1238-1290 | accepted exactly when the entry exists with the expected version |
| ChannelReconciler.ParseDesired | services/bot_gateway/channel_reconciler.py:222-229 | the desired set has each id once, with the login of its last complete entry, in order of first appearance |
| ChannelReconciler.Reconciler.constructor | services/bot_gateway/channel_reconciler.py:27-43 | starts with the bootstrap logins tracked |
| ChannelReconciler.Reconciler.Track | services/bot_gateway/channel_reconciler.py:134-165 | which join is due, and that one item ends tracked under its own id whatever was renamed |
| ChannelReconciler.Reconciler.JoinIfDue | services/bot_gateway/channel_reconciler.py:134-165 | joins exactly when due, and fails exactly when a due join does; a failure leaves the map as it was or the item tracked |
| ChannelReconciler.Reconciler.JoinMissing | services/bot_gateway/channel_reconciler.py:131-165 | joins the due logins in order, up to the first that fails; logins that are not desired stay tracked exactly under the ids not handled yet |
| ChannelReconciler.Reconciler.PartStale | services/bot_gateway/channel_reconciler.py:167-199 | parts exactly the stale logins and forgets them, a part of them when one fails, and fails exactly when one does |
| ChannelReconciler.Reconciler.Apply | services/bot_gateway/channel_reconciler.py:126-203 | joins exactly desired minus connected (all when forced), each once for distinct logins, parts exactly the stale logins, and ends with connected and tracked logins both equal to the desired ones; it fails exactly when one of these calls does |
| ChannelReconciler.Reconciler.RequestRejoin | services/bot_gateway/channel_reconciler.py:45-54 | a rejoin is pending |
| ChannelReconciler.Reconciler.ReconcileOnce | services/bot_gateway/channel_reconciler.py:80-124 | one pass: over the fetched set, or over the bootstrap logins in an outage before the first fetch, or nothing; it converges exactly when every call goes through and otherwise stops at the first that fails |
| ChannelReconciler.DueJoinsExactly | services/bot_gateway/channel_reconciler.py:134-165 | the joins due are exactly the desired logins not connected, without repeats |
| ChannelReconciler.DueJoinsInOrder | services/bot_gateway/channel_reconciler.py:131-165 | the joins of a longer list are those of its parts, one after the other |
| ChannelReconciler.DueJoinsOfOne | services/bot_gateway/channel_reconciler.py:134-165 | the join of one item, due when forced or when its login is not connected |
| ChannelReconciler.StopsAtTheFirstFailure | services/bot_gateway/channel_reconciler.py:112-120 | a failed pass has made the due joins before the first failing one and no part, or all joins and parts that do not fail |
| ChannelReconciler.BootstrapUntilFetched | services/bot_gateway/channel_reconciler.py:93-109 | while no fetch has succeeded, an outage pass whose calls go through leaves exactly the bootstrap logins connected; otherwise it stops at the first failing one |
| ChannelReconciler.DriftIsRepaired | services/bot_gateway/channel_reconciler.py:126-203 | what the runtime lost or gained by itself, the next successful pass joins or parts again |
| ChannelReconciler.NeverPartsDesired | services/bot_gateway/channel_reconciler.py:167-184 | no pass of any run parts a login of the set it applies |
| ChannelReconciler.DifferenceNeverGrows | services/bot_gateway/channel_reconciler.py:126-203 | no pass, failed or forced, enlarges the difference between connected and desired; a successful one closes it |
| ChannelReconciler.OutageChangesNothing | services/bot_gateway/channel_reconciler.py:86-110 | after the first successful fetch an outage changes no membership and makes no call, for the rest of any run |
| ChannelReconciler.RejoinIsHonoured | services/bot_gateway/channel_reconciler.py:45-58 | a rejoin requested between passes stays pending until a pass succeeds, and that pass joins every desired login |
| ChannelReconciler.RequestIsHonoured | services/bot_gateway/channel_reconciler.py:45-58 | from the moment it is requested |
| ChannelReconciler.RejoinInFetchIsHonoured | services/bot_gateway/channel_reconciler.py:80-114 | a rejoin requested while a pass fetches is honoured by that pass or stays pending |
| ChannelReconciler.RejoinLostIff | services/bot_gateway/channel_reconciler.py:112-114 | a rejoin requested after a pass has read the flag is lost exactly when none of the logins to join and to part fails; the next successful pass then joins only what is missing, otherwise every desired login |
| ChannelReconciler.SecondPassIsQuiet | services/bot_gateway/channel_reconciler.py:126-203 | repeating a successful pass joins and parts nothing, and cannot fail |
| ModifierResolver.Registry | services/game_engine/domain/item_schema.py:153-219 | every stat has a proper range and never the scope `all` |
| ModifierResolver.SortSorts | services/game_engine/domain/modifier_resolver.py:82-90 | sorting permutes the entries into key order |
| ModifierResolver.SortedPicksWinner | services/game_engine/domain/modifier_resolver.py:99-100 | the last override of the sorted list is the one with the greatest key, the latest of equal ones |
| ModifierResolver.SumOfPermutation | services/game_engine/domain/modifier_resolver.py:91-104 | sums, products, minima and maxima do not depend on the order |
| ModifierResolver.OrderIrrelevantIff | services/game_engine/domain/modifier_resolver.py:82-104 | the winning override of a stat's entries is the same for every order of them exactly when the overrides with the greatest key agree; the totals always are |
| ModifierResolver.RelevantOfPermutation | services/game_engine/domain/modifier_resolver.py:73-76 | reordering the contributions only reorders the entries of each stat |
| ModifierResolver.ResolvedOfPermutation | services/game_engine/domain/modifier_resolver.py:65-116 | a resolved stat does not depend on the order of the contributions when the overrides with the greatest key agree |
| ModifierResolver.ResolvedOrderIff | services/game_engine/domain/modifier_resolver.py:65-116 | it is the same for every order of the contributions exactly when those overrides come to one value once bounded and clamped |
| ModifierResolver.OverrideDecides | services/game_engine/domain/modifier_resolver.py:82-116 | a stat with overrides comes to the one with the highest priority, then the last source type in alphabetical order, then the greatest source key, then the latest, up to the bounds |
| ModifierResolver.SomeoneWins | services/game_engine/domain/modifier_resolver.py:99-100 | where there is an override there is such a one |
| ModifierResolver.TotalDecides | services/game_engine/domain/modifier_resolver.py:91-116 | without an override a stat comes to its base plus all additive values, times all multipliers, up to the bounds |
| ModifierResolver.ComesToOne | services/game_engine/domain/modifier_resolver.py:101-116 | raised to the greatest minimum, lowered to the least maximum and brought into range, that is a single value |
| ModifierResolver.FailsIff | services/game_engine/domain/modifier_resolver.py:101-106 | a stat fails exactly when a minimum of it in the requested scope exceeds a maximum |
| ModifierResolver.RangeIff | services/game_engine/domain/item_schema.py:153-219 | the registry ranges in numbers |
| ModifierResolver.ValidateIff | services/game_engine/domain/modifier_resolver.py:132-153 | which contributions are refused, and for which reason |
| ModifierResolver.OtherScopesHaveNoEffect | services/game_engine/domain/modifier_resolver.py:73-76 | contributions of other scopes change no result, only validation |
| ModifierResolver.InRange | services/game_engine/domain/modifier_resolver.py:116 | every resolved stat lies in its registry range |
| ModifierResolver.ConflictIff | services/game_engine/domain/modifier_resolver.py:101-106 | a stat fails exactly when some minimum exceeds some maximum |
| ModifierResolver.ValidMultiplier | services/game_engine/domain/modifier_resolver.py:145-153 | in a scope of the stat the validated multipliers have a product that is not negative |
| ModifierResolver.ResolvedIsMonotone | services/game_engine/domain/modifier_resolver.py:108-116 | in a scope of the stat a higher base or a higher additive value anywhere in the list never lowers the result |
| ModifierResolver.MonotoneIff | services/game_engine/domain/modifier_resolver.py:108-116 | for totals without a conflict a higher base never lowers the value exactly when there is an override, the multiplier is not negative, or the bounds leave a single value |
| ModifierResolver.ResolvedMonotoneIff | services/game_engine/domain/modifier_resolver.py:65-116 | the same for a resolved stat, in any scope |
| ModifierResolver.RisesInScope | services/game_engine/domain/modifier_resolver.py:145-153 | in a scope of the stat that always holds |
| ModifierResolver.NotMonotoneInOtherScopes | services/game_engine/domain/modifier_resolver.py:145-146 | in another scope a negative multiplier passes and a higher base lowers the result |
| ModifierResolver.Accumulate | services/game_engine/domain/modifier_resolver.py:91-104 | the loops compute the totals and the last override |
| ModifierResolver.ResolveStat | services/game_engine/domain/modifier_resolver.py:79-116 | the sorted loop computes the formula that reads the entries in any order |
| ModifierResolver.Group | services/game_engine/domain/modifier_resolver.py:72-76 | fails at the first invalid contribution, otherwise files each under its stat |
| ModifierResolver.Resolve | services/game_engine/domain/modifier_resolver.py:65-129 | succeeds exactly when all contributions are valid and no stat conflicts; then every stat has the formula's value, and one with overrides that of the override that outranks the others |
| Robbery.StopsOnce | services/game_engine/services/fishing_service.py:880-979 | there is only one point at which the loop can stop |
| Robbery.FirstTerminalWins | services/game_engine/services/fishing_service.py:889-896 | at most one terminal defence is executed, and nothing after it |
| Robbery.EligibleIff | services/game_engine/services/fishing_service.py:900-914 | which effects a phase rolls for |
| Robbery.EligibleInOrder | services/game_engine/services/fishing_service.py:889-896 | in stored order |
| Robbery.AbsorbedIff | services/game_engine/services/fishing_service.py:915-949 | a robbery is absorbed exactly when the roll of some terminal defence is below its chance, and the first of these ends the loop |
| Robbery.ExecutedIff | services/game_engine/services/fishing_service.py:915-929 | executed are the effects whose roll is below their chance |
| Robbery.ExecuteIs | services/game_engine/services/fishing_service.py:929-978 | what one executed effect does to the attacker's mass, what it reports and what it costs |
| Robbery.ActionsAddUp | services/game_engine/services/fishing_service.py:934-978 | the reported mass actions add up to the attacker's real change, which never pushes it below the floor |
| Robbery.OnlyExecutedPay | services/game_engine/services/fishing_service.py:929-932 | durability only falls, and only in slots of executed effects |
| Robbery.StolenIsStealable | services/game_engine/domain/logic/formulas.py:76-80 | the amount is never negative and never above what the floor leaves |
| Robbery.StolenIs | services/game_engine/services/fishing/engine.py:527-548 | the amount, from percentage, value, bonus and protection, between zero and what the floor leaves, rounded half up |
| Robbery.HitsIff | services/game_engine/domain/logic/formulas.py:72-75 | which rolls hit |
| Robbery.AttackRollIs | services/game_engine/services/fishing_service.py:843-853 | which roll an attack uses |
| Robbery.MutatedIs | services/game_engine/domain/logic/mass.py:35-39 | a mass after a delta, with the floor |
| Robbery.ConsumedTwice | services/game_engine/infrastructure/repositories/inventory_repo.py:187-230 | paying durability twice is paying the sum once |
| Robbery.ConsumedOne | services/game_engine/infrastructure/repositories/inventory_repo.py:207-222 | the last unit breaks the item by its policy |
| Robbery.DefencesNeverHelpTheAttacker | services/game_engine/domain/logic/formulas.py:59-80 | a higher floor, protection or evasion raises neither the chance nor the amount, and full protection leaves nothing to steal |
| Robbery.TransferConservesIff | services/game_engine/services/fishing_service.py:813-824 | the attacker's gain is the victim's loss exactly when the victim holds its protected mass or the attacker can pay for raising it; the victim never ends below it |
| Robbery.MassFromNowhere | services/game_engine/domain/logic/mass.py:36-39 | a robbery of a victim below its floor that creates mass |
| Robbery.Equipment.ConsumeDurability | services/game_engine/infrastructure/repositories/inventory_repo.py:187-230 | durability after one payment, with the breakage policies |
| Robbery.ApplyMassMutation | services/game_engine/domain/logic/mass.py:21-42 | the clamped mass, the delta that landed and the tracked total |
| Robbery.ExecuteEffect | services/game_engine/services/fishing_service.py:929-978 | one executed effect: durability, attacker mass and reported actions |
| Robbery.ApplyRobberyDefenses | services/game_engine/services/fishing_service.py:880-979 | rolls for the eligible effects up to and including the first passing terminal one, and executes exactly those that pass; no attacker ends below zero |
| Robbery.HandleRobbery | services/game_engine/services/fishing_service.py:747-841 | the caller's object equals the locked attacker on every exit; misses and absorbed robberies leave the victim alone; a success runs the second phase and transfers, the victim ends at least at its floor, and the gain is the loss exactly when the victim held its floor or the attacker can pay for raising it |
| LootTable.Select | services/game_engine/domain/logic/loot_selection.py:97-147 | only a candidate that is in stock in the snapshot is selected, for at least one unit |
| LootTable.RollQuantity | services/game_engine/domain/logic/loot_selection.py:83-94 | the quantity is within the entry's bounds |
| LootTable.QuantityIff | services/game_engine/domain/logic/loot_selection.py:83-94 | every quantity within the bounds is rolled by some choice, and no other one |
| LootTable.SelectsAny | services/game_engine/domain/logic/loot_selection.py:97-147 | any candidate that is not exhausted can be selected, in any quantity within its bounds |
| LootTable.SelectsNothingIff | services/game_engine/domain/logic/loot_selection.py:108-124 | nothing is selected exactly when every candidate is exhausted or none has a weight |
| LootTable.ReservedIs | services/game_engine/infrastructure/repositories/config_repo.py:91-113 | a finite entry gives what is asked for, or all it has, and an exhausted one says so |
| LootTable.UnlimitedGives | services/game_engine/infrastructure/repositories/config_repo.py:102-107 | an unlimited one gives what is asked for |
| LootTable.ExhaustedByOthers | services/game_engine/services/loot_table_service.py:123-136 | a roll can find an entry exhausted by somebody else |
| LootTable.SoundAlways | services/game_engine/services/loot_table_service.py:91-121 | after every roll, whatever other transactions commit in between, the cached stock of each reserved entry is the stored one and its grants never exceed its opening stock |
| LootTable.FreshAlways | services/game_engine/services/loot_table_service.py:110-120 | undisturbed, every cached stock is the stored one, opening stocks are initial stocks and every roll grants something |
| LootTable.EmptyOnlyOnce | services/game_engine/services/loot_table_service.py:123-136 | a roll finds an entry exhausted by others only at its first reservation |
| LootTable.DeliveredExactlyOnce | services/game_engine/services/loot_table_service.py:138-192 | each reserved unit with a known definition ends in the inventory or in the overflow, not both |
| LootTable.LootStore.Reserve | services/game_engine/infrastructure/repositories/config_repo.py:91-113 | reserves what is there, up to the request, and notes stock before and after |
| LootTable.LootStore.Refresh | services/game_engine/services/loot_table_service.py:113-120 | the snapshot entry learns the reserved stock |
| LootTable.LootStore.Roll | services/game_engine/services/loot_table_service.py:91-121 | the loop is the sequence of rolls |
| LootTable.LootStore.Deliver | services/game_engine/services/loot_table_service.py:138-192 | inventory, overflow or failure, and the change it makes |
| LootTable.LootStore.OpenLootbox | services/game_engine/infrastructure/repositories/inventory_repo.py:494-520 | what leaves an entry's stock is in the inventory or parked, unit for unit |

## Left out

- RecoverySafeIff: a recovery and a worker's commit that wait for each other's row are a deadlock, which the database ends by aborting one; it appears as a commit that failed (`Broken`), or as a recovery that did not happen.
- ClaimEvent: of what a worker has loaded only the two timestamps are kept, since it tests nothing else of the row again.
- ExecuteBuy: a late handler whose event number was taken meanwhile fails to commit; it appears as the local failure `Broken`, not as a consequence of the event log.
- IncreasingAlways: an append that is not in order is ruled out step by step, by the condition of `OrderedStepIff`; `NoGaps` and `SerialIncreases` give sessions that meet it, `GapFilledLate` one that does not.
- NothingElseIff: what a callback commits on its own, such as the health rows of an integration, is one entry without contents.
- Resolve: the resolved value of each stat, not the explanatory totals stored beside it.
- ApplyRobberyDefenses: messages and the texts of the random trace; the roll, its threshold and its effect are kept.
- HandleRobbery: the choice of the victim and the modifier snapshots; the case without a victim, which changes nothing.
- ConsumeDurability: the overflow claimed after an item breaks.
- DeleteExpired: the retention job also waits a configured number of days; the model may delete any expired record.
- UpsertDrop: weights, quantities and stock of the drop, which carry no edge.
- Roll: the weights of the candidates; any candidate that is in stock may be chosen.
- Deliver: an unknown or archived item makes the grant raise and the whole transaction roll back.
- Decimal context precision: amounts of more than 28 significant digits are rounded before they are quantized; the model is exact. Masses and mass deltas are whole numbers of 0.01 kg outside the grammar.
- Unicode beyond ASCII letters, the Kelvin sign and the blanks that `strip` removes.
- A provider write that is still on its way when its process dies counts as applied or not at that moment.
- Operations whose player row was deleted, and the reconciliation they require.
- The provider attempts table, stored responses, `external_applied` and the version numbers of reconciled rows.
- The administrator's idempotency wrapper around catalog mutations, audit rows and permissions.
- `AdminService.upsert_item_definition`, which validates without the channel lock, and table edits outside the Discord mutations.
- Archives and drop removals take no channel lock in the code; they only take edges away, so their place in the sequence does not matter.
- Membership changes of the chat runtime in the middle of a pass; between passes they are modelled.
- Casts, cooldowns, travel, leaderboards, message templates, health scheduling, metrics, credentials and encryption: table lookups and I/O with no property that spans steps.
