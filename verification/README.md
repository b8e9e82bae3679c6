# Verification of the opod backend's ledgers and queues

This project models the parts of the backend where money, credits and background work meet, and proves what they
promise over every run. Each database transaction that runs under an advisory lock is one step; everything outside the
tables (providers, the agent, the clock, chance) is an arbitrary input of the step.

**Credits.** No balance is stored. `Waterfall` computes what every grant still has available from recovery and refund
locks, `Allocation` is the greedy allocator, `CreditRules` states the transactions on the tables, and `CreditsService`
is the service itself, whose loops and updates are proved against those rules. `Solvency` follows reservations over
every run of the engine, and `Charges` the usage ledger that captures write. `CreditEffects` proves that no credit is
lost or made up, when each transaction succeeds and what it costs.

**Purchases.** `PurchaseRules` and `PurchasesService` do the same for payments, user refunds, provider refunds and
reversals. `PurchaseCredits` ties refund rows to the debt that the ledger later shows, `RefundFlight` follows a user
refund from its request on, `RefundRuns` follows cumulative refunds over whole runs, `MixedRefunds` mixes them with user
refunds, and `PaymentOnce` follows a purchase through deliveries, replays and reconciliations. `PaymentEffects` says
exactly when requests, reports and events are accepted and what accepted ones do.

**Reply jobs.** `ReplyJobs` is the lease queue of chat replies, which has no fencing token and is coupled to credit
reservations; workers may come back late, crash, and race with users' retries. `ReplyContext` is the ordering of the
conversation handed to the agent, and `ReplyEffects` the way of one message from its sending to its reply.
`ReplyServices` holds the services, and `ReplyCredits` runs the queue together with the credit engine.

**Character social activity.** `SocialActivity` is one activity under its daily quotas, `FollowScan` the paged scan for
authors to follow, `SocialJobs` the queue that is fenced by lease tokens, and `SocialServices` the services.
`SocialEffects` says exactly when jobs open and activities take effect, and how far an activity goes.

**Follow notifications.** `FollowNotifications` is the bounded merge of two sources and its watermarks, which
notify no item twice and, while no sync is truncated, lose none.

A service class keeps its tables as fields of a database object. Its methods are proved to leave exactly the state that
a rule function gives, and the theorems are about those functions and the runs made of them. The table below lists the
theorems, and of the service methods those whose contract says more than their statements: loops, transactions that roll
back, and methods that compose others. The remaining methods of `CreditsService`, `PurchasesService`, `ReplyServices`,
`SocialServices` and `FollowNotifications` are proved equal to their rule and have no row of their own.

Statements that hold only under a condition come with it:

- Solvency needs that no grant passes its expiry (`Solvency.ExpiryBreaksSolvency`).
- The debt on a refund row is the debt the ledger later shows exactly when no plain free credit, one linked to the
  purchase without a promotion code, is left or the recovery fits (`PurchaseCredits.RowDebtExact`,
  `PurchaseCredits.PlainFreeBreaksDebt`).
- A refund in flight makes every credit of its purchase unspendable exactly when the purchase has no plain free credit
  (`PurchaseCredits.RefundInFlight`, `PurchaseCredits.PlainFreeShieldsPaid`).
- The money paid back stays within the net amount exactly when a user refund finds room for it
  (`MixedRefunds.UserRefundWithinNet`, `MixedRefunds.UserRefundBeyondNet`).
- Reply jobs and their reservations stay in agreement exactly when no worker gives up a job that has been retried since
  it was claimed (`ReplyJobs.HoldsFollowExactly`, `ReplyJobs.LateWorkerStrandsReservation`).
- A post or story found by a sync is ever notified exactly when it is among the newest fifty found
  (`FollowNotifications.NowOrNever`).

Where code and documentation disagree the code is followed: a forced reversal recovers every credit that was ever
granted for the purchase, whatever earlier refunds recovered (`src/purchases/purchases.service.ts:926`).

## Model

| member | source | states |
|---|---|---|
| `Waterfall.PoolsClosedForm` | src/credits/credits.service.ts:784-801 | after any prefix of the grants, the recovery and the lock still owed by a purchase depend only on how much its grants held in total |
| `Waterfall.AvailableClosedForm` | src/credits/credits.service.ts:784-802 | per purchase, max(0, held - recovery - lock) is left available in all |
| `Waterfall.SnapshotClosedForm` | src/credits/credits.service.ts:784-802 | one grant's availability is the difference of that closed form with and without the grant; unlinked grants keep all they hold |
| `Waterfall.OrderIndependent` | src/credits/credits.service.ts:713-725 | availability per purchase and leftover debt are the same for every order of the grants |
| `Waterfall.DebtOnlyWhenDrained` | src/credits/credits.service.ts:804-810 | a purchase with leftover debt has nothing available on any of its grants |
| `Waterfall.LighterPools` | src/credits/credits.service.ts:784-810 | smaller recoveries and locks leave every single grant at least as much |
| `Waterfall.MoreGrants` | src/credits/credits.service.ts:784-810 | a further grant anywhere in the order lowers no class of availability and raises no debt |
| `Waterfall.SameWeightPools` | src/credits/credits.service.ts:784-810 | moving an amount from lock to recovery of a purchase changes the availability of no grant |
| `Waterfall.TakingCommutes` | src/credits/credits.service.ts:784-810 | taking from the available amounts and running the waterfall again takes exactly that from each grant and leaves the same debt |
| `Allocation.TakesMaximal` | src/credits/credits.service.ts:681-706 | the allocator respects availability, cap and amount, and falls short only when all free and all paid credit up to the cap is used |
| `Allocation.TakesSound` | src/credits/credits.service.ts:681-706 | an allocation that does not throw sums exactly to the amount and is feasible |
| `Allocation.SucceedsExactlyWhenFeasible` | src/credits/credits.service.ts:704 | it succeeds if and only if some feasible allocation exists, which is a comparison of two sums |
| `Allocation.LeastAfterEveryCut` | src/credits/credits.service.ts:691-703 | for every cut of the grant order, no feasible allocation takes less from the part after the cut |
| `Allocation.RowsCharge` | src/credits/credits.service.ts:203-211 | the credit_usage rows stored for an allocation charge each grant with exactly what was taken from it |
| `CreditRules.InsertKeepsOrder` | src/credits/credits.service.ts:720-725 | granting keeps the query order (kind, expiry with nulls last, creation, id), the key, and every other grant |
| `CreditRules.AvailableWithinGrant` | src/credits/credits.service.ts:784-803 | every snapshot belongs to its grant and lies between zero and the granted amount |
| `CreditRules.SpendingCommutes` | src/credits/credits.service.ts:681-811 | once an allocation's rows are stored, recomputing at the same clock gives every grant its old availability minus the take, the same debt, and balances lower by exactly the paid and free takes |
| `CreditRules.AllocationSound` | src/credits/credits.service.ts:681-706 | what the service allocates is feasible for the recomputed grant state and the paid balance |
| `CreditRules.AllocationFailsExactly` | src/credits/credits.service.ts:686-704 | allocation throws exactly when the amount exceeds the free balance plus the non-negative part of the paid balance |
| `CreditRules.AllocatesEarliestFirst` | src/credits/credits.service.ts:681-725 | in the order of the grant query no way to pay the amount spends less beyond the free grants that expire by any given time, or beyond the free grants altogether |
| `CreditRules.AllocatesFewestPaid` | src/credits/credits.service.ts:681-725 | no way to pay the amount spends fewer paid credits |
| `CreditRules.BalancesOfState` | src/credits/credits.service.ts:813-857 | with the adjustments that are ever written, the free balance is what is available free, and the paid one is covered by what is available paid |
| `CreditRules.SettledStays` | src/credits/credits.service.ts:164-260 | a captured or expired reservation stays as it is: capturing again, or releasing, changes nothing or throws |
| `CreditRules.ReleasedStays` | src/credits/credits.service.ts:173-260 | a released reservation can no longer be captured; releasing a captured one leaves it captured |
| `CreditRules.GrantOncePerReference` | src/credits/credits.service.ts:286-348 | granting again under the same external reference grants nothing more |
| `CreditsService.CreditsService.GrantState` | src/credits/credits.service.ts:708-811 | the computed state is the one the waterfall theorems speak of, with and without refund locks |
| `CreditsService.CreditsService.Waterfall` | src/credits/credits.service.ts:783-803 | the loop that rewrites both maps refines the recursive waterfall |
| `CreditsService.CreditsService.Absorb` | src/credits/credits.service.ts:785-802 | one grant's turn, recovery before lock, equals one step of the waterfall |
| `CreditsService.CreditsService.SumDebt` | src/credits/credits.service.ts:806-809 | the final reduce is the debt over the purchases that have recovery rows |
| `CreditsService.CreditsService.AllocateUsage` | src/credits/credits.service.ts:681-706 | returns the grants that give something, or throws exactly when the allocator falls short |
| `CreditsService.CreditsService.TakeGreedily` | src/credits/credits.service.ts:688-705 | the loop with its early exit and skipped grants computes the same takes as the full allocation |
| `CreditsService.CreditsService.RecordUsage` | src/credits/credits.service.ts:193-211 | one usage row and the rows of its allocation are stored, and nothing else changes |
| `CreditsService.CreditsService.CaptureReservationInTx` | src/credits/credits.service.ts:164-217 | every status has its outcome: captured stays, released throws, expired is released, open is charged |
| `Solvency.SpendKeepsSolvent` | src/credits/credits.service.ts:460-503 | spending leaves enough for every active reservation |
| `Solvency.CaptureKeepsSolvent` | src/credits/credits.service.ts:164-217 | capturing one reservation leaves the others backed |
| `Solvency.GrantKeepsSolvent` | src/credits/credits.service.ts:286-348 | granting never endangers a reservation or a refund lock |
| `Solvency.RequestKeepsSolvent` | src/purchases/purchases.service.ts:405-450 | locking a refund is only possible while nothing is reserved, and its lock is covered |
| `Solvency.CompleteKeepsSolvent` | src/purchases/purchases.service.ts:987-1055 | turning a lock into recovery keeps every reservation backed |
| `Solvency.CaptureNeverFails` | src/credits/credits.service.ts:164-217 | in a solvent state an active reservation can be captured |
| `Solvency.CaptureFailsExactly` | src/credits/credits.service.ts:188-192 | in any state, solvent or not, when a capture throws for lack of credits |
| `Solvency.SolventOverRuns` | src/credits/credits.service.ts:98-260 | over every run of grants, reservations, spending, captures, releases and user refunds, active reservations stay backed by non-negative paid plus free balances and each can be captured |
| `Solvency.EmptyIsSolvent` | src/credits/credits.service.ts:708-811 | a user without rows is a starting point of such runs |
| `Solvency.ExpiryBreaksSolvency` | src/credits/credits.service.ts:786-789 | without the clock condition it is false: a grant that expires under a reservation makes the capture fail |
| `Charges.ChargedExactlyOverRuns` | src/credits/credits.service.ts:164-217 | in every state of every run a captured reservation has exactly one usage ledger row, of its amount, to which its credit_usage rows sum; any other reservation has none, and no usage row names anything else |
| `CreditEffects.WaterfallConserves` | src/credits/credits.service.ts:784-803 | every credit the waterfall meets is available afterwards, or has paid off recovery, or is held by a lock |
| `CreditEffects.BalancesAreConserved` | src/credits/credits.service.ts:708-857 | paid plus free balance plus what locks withhold is what the grants still hold, less every recovery ever written, corrected by the adjustments, although neither the order of the grants nor the split into debt and availability appears in it |
| `CreditEffects.FreeGrantExactly` | src/credits/credits.service.ts:742-803 | a grant pays nothing from the instant it expires; until then a grant without a purchase pays exactly what usage has left of it |
| `CreditEffects.AllocationPaysFreeFirst` | src/credits/credits.service.ts:681-706 | an allocation takes from free credits all they can pay and only the rest from paid ones |
| `CreditEffects.SpendSucceedsExactly` | src/credits/credits.service.ts:460-503 | a spend succeeds if and only if its amount is positive, nothing is owed, and balances less reservations cover it |
| `CreditEffects.SpendCostsExactly` | src/credits/credits.service.ts:460-503 | an accepted spend lowers the balances by exactly its amount, free credits first, adds one usage row of that amount to which its credit_usage rows sum, and changes no grant, recovery, refund, reservation or earlier charge |
| `CreditEffects.CaptureCostsExactly` | src/credits/credits.service.ts:164-217 | an accepted capture of an active reservation does the same with the reserved amount under the reservation's reference, and closes that reservation alone |
| `CreditEffects.UnchargedCaptures` | src/credits/credits.service.ts:164-260 | what captures and releases do to unknown, released, captured and expired reservations |
| `CreditEffects.ReserveSucceedsExactly` | src/credits/credits.service.ts:98-138 | a new chat reservation succeeds if and only if nothing is owed and 2 credits are neither spent nor reserved; it lowers what is available by 2, the balances not at all, and ends after 5 minutes, at the time asked for, or never |
| `CreditEffects.ReserveOnce` | src/credits/credits.service.ts:98-138 | reserving again under a reference keeps the reservation or is a conflict |
| `CreditEffects.ReleaseFrees` | src/credits/credits.service.ts:234-260 | releasing an active reservation gives exactly its amount back to what is available |
| `CreditEffects.GrantAddsExactly` | src/credits/credits.service.ts:286-348 | a grant under a new reference succeeds if and only if its amount is positive and paid and promotional credits name a purchase; it adds that one row and raises the balances by its amount; free credits end after 30 days by default |
| `CreditEffects.GrantAgainExactly` | src/credits/credits.service.ts:286-348 | a second grant under a reference is the first one or, when it differs, a conflict |
| `CreditEffects.DebtLowersPaid` | src/credits/credits.service.ts:804-857 | recovery that finds nothing left of its purchase lowers the paid balance by its amount and nothing else |
| `CreditEffects.RecoveryLowersBalances` | src/credits/credits.service.ts:784-857 | without a lock on the purchase any recovery lowers the balances together by exactly its amount |
| `PurchaseRules.PendingRefund` | src/purchases/purchases.service.ts:769-782 | the oldest refund of the purchase that waits for the provider, or none exactly when none waits |
| `PurchaseCredits.RecoveryRaisesDebt` | src/credits/credits.service.ts:784-810 | a recovery row raises the recomputed debt by what it asks beyond what the purchase had left |
| `PurchaseCredits.LeftAfterRecovery` | src/credits/credits.service.ts:621-678 | what refunds can take plus the plain free credits is what recovery left of the purchase |
| `PurchaseCredits.RowDebtExact` | src/purchases/purchases.service.ts:836-875 | a stored debt computed against the refundable credits is the rise of the recomputed debt if and only if no plain free credit is left or the recovery fits |
| `PurchaseCredits.CumulativeDebtExact` | src/purchases/purchases.service.ts:841-875 | the same for the row of a cumulative provider refund |
| `PurchaseCredits.ReversalDebtExact` | src/purchases/purchases.service.ts:913-979 | the same for the row of a forced reversal |
| `PurchaseCredits.PlainFreeBreaksDebt` | src/purchases/purchases.service.ts:913-979 | a concrete purchase for which the stored debt is not the recomputed rise |
| `PurchaseCredits.UserRefundDebtExact` | src/purchases/purchases.service.ts:397-489 | a user refund, prepared, answered and completed, raises the debt by exactly the debt on its row |
| `PurchaseCredits.LeftWithinGranted` | src/credits/credits.service.ts:621-678 | of no class of a purchase's credits is more left than was granted |
| `PurchaseCredits.QuoteWithinPayment` | src/purchases/purchases.service.ts:1057-1136 | a refund never exceeds what was paid, fee and refund make up the gross amount, an eligible one returns at least half before the fee and everything when nothing was used, any other returns nothing |
| `PurchaseCredits.EligibleQuote` | src/purchases/purchases.service.ts:1088-1099 | an eligible quote asks back exactly what recovery and spending left refundable, and only while nothing is locked |
| `PurchaseCredits.UnspendableExactly` | src/credits/credits.service.ts:784-803 | no grant of a purchase has anything available if and only if recovery and locks ask for at least all that its grants hold |
| `PurchaseCredits.RefundInFlight` | src/purchases/purchases.service.ts:419-446 | a prepared user refund locks exactly what is refundable; what stays spendable of the whole purchase sums to its plain free credits, so none of its grants has anything available if and only if it has no such credit; every other grant keeps its availability |
| `PurchaseCredits.PlainFreeShieldsPaid` | src/purchases/purchases.service.ts:419-446 | with a plain free credit on the purchase the paid credit that is being refunded stays spendable: a concrete purchase |
| `PurchaseCredits.CompletionIsNeutral` | src/purchases/purchases.service.ts:987-1055 | completing it changes no grant's availability, no debt and no balance |
| `RefundFlight.UnspendableOverRuns` | src/purchases/purchases.service.ts:405-489 | once recovery and locks ask for all that a purchase holds, no grant of it has anything available in any later state of any run, whatever is spent, captured, granted elsewhere, refunded, answered or completed, until it is granted credits again or its refund fails |
| `RefundFlight.NothingSpentInFlight` | src/purchases/purchases.service.ts:405-489 | so from the request of a refund on, of a purchase without plain free credits nothing can be spent in any state of the flight |
| `RefundFlight.CompletionIsNeutralOverRuns` | src/purchases/purchases.service.ts:987-1055 | in every state of every run, completing any refund that waits changes no availability, no debt and no balance |
| `PaymentEffects.QuoteExactly` | src/purchases/purchases.service.ts:1057-1136 | when a quote is refused, and that an accepted one is eligible if and only if the purchase is complete, unlocked, and at least half of its paid credits are left |
| `PaymentEffects.QuoteIsShare` | src/purchases/purchases.service.ts:1100-1113 | the gross amount is the payment's share of the credits left, rounded down |
| `PaymentEffects.RequestOpensOnce` | src/purchases/purchases.service.ts:405-450 | a request under a new key opens a refund if and only if its quote is eligible; under the same key none is opened twice |
| `PaymentEffects.RequestRecords` | src/purchases/purchases.service.ts:419-446 | the row records the parts that provider reports later count as recovered |
| `PaymentEffects.AnswerDecidesLock` | src/purchases/purchases.service.ts:473-482 | a failed or canceled answer restores availability, debt and balances of before the request; an accepted one keeps the lock |
| `PaymentEffects.CompletionCloses` | src/purchases/purchases.service.ts:987-1055 | a completed refund closes its purchase: once only, closed to reversals and to further refunds |
| `PaymentEffects.ReportAcceptedExactly` | src/purchases/purchases.service.ts:734-792 | a cumulative report is accepted if and only if its amounts make sense, agree with the stored ones, do not go back and leave room for a waiting refund; otherwise it is refused without an error |
| `PaymentEffects.ReportRecoversShare` | src/purchases/purchases.service.ts:794-911 | for a purchase that only its provider refunds every agreeing report is accepted and recovers its share, and a report of the full net amount recovers every paid credit granted |
| `PaymentEffects.ReportTakesFreePromotion` | src/purchases/purchases.service.ts:816-875 | a report that adds money takes back every free promotional credit that is left |
| `PaymentEffects.ReportSettlesPending` | src/purchases/purchases.service.ts:769-800 | a report that finds a user refund waiting completes it first, recovers its credits and books its money, and adds a row of its own if and only if it reports more |
| `PaymentEffects.ReportSetsStatus` | src/purchases/purchases.service.ts:880-911 | payment and purchase are reversed exactly when all of the net amount has left, and partially refunded otherwise |
| `PaymentEffects.ReversalTakesAll` | src/purchases/purchases.service.ts:913-979 | a reversal recovers every paid and promotional credit ever granted for the purchase, once; without plain free credits nothing of the purchase can be spent afterwards |
| `PaymentEffects.PaidAcceptedExactly` | src/purchases/purchases.service.ts:565-612 | a paid event is accepted if and only if it agrees with a payment that is open, or repeats the transaction of one that is paid |
| `PaymentEffects.PaidGrantsCredits` | src/purchases/purchases.service.ts:612-645 | an accepted one grants the purchase's credits as paid credits without expiry and raises the balances by them; on a paid payment it changes nothing |
| `PaymentEffects.PaidRecords` | src/purchases/purchases.service.ts:618-658 | it records the money and the amounts that later events are compared with |
| `PaymentEffects.FirstDeliveryWorks` | src/purchases/purchases.service.ts:501-714 | which first deliveries do their work and which are declined without a trace but the inbox row, event type by event type |
| `PaymentEffects.DeliveryThrowsExactly` | src/purchases/purchases.service.ts:501-560 | when a delivery throws and when it is a replay, which changes nothing |
| `PaymentEffects.CheckoutIsHandedBack` | src/purchases/purchases.service.ts:1259-1317 | only a pending checkout is claimed, and handing it back undoes the claim but nothing that an event wrote meanwhile |
| `PurchasesService.PurchasesService.ApplyCumulative` | src/purchases/purchases.service.ts:728-911 | refusals in their order, settlement of a waiting refund, then the increase |
| `PurchasesService.PurchasesService.ApplyProviderEvent` | src/purchases/purchases.service.ts:501-714 | the inbox decides between replay, conflict and work; an error leaves no trace |
| `RefundRuns.PromotionTargetBounds` | src/purchases/purchases.service.ts:821-829 | the promotion target lies within one above its own floor share and within the promotion |
| `RefundRuns.PromotionTargetFalls` | src/purchases/purchases.service.ts:829 | the promotion target is not monotone in the refunded amount |
| `RefundRuns.RowTargets` | src/purchases/purchases.service.ts:816-855 | the base and paid promotion parts of a refund row are what the two targets ask beyond earlier recoveries |
| `RefundRuns.RatchetAdvances` | src/purchases/purchases.service.ts:816-835 | the maximum with earlier recoveries keeps both recoveries within their bounds as the refund grows |
| `RefundRuns.OneMoreHappens` | src/purchases/purchases.service.ts:830-834 | recovering one credit more than the floor share does occur |
| `RefundRuns.MoneyMatchesReport` | src/purchases/purchases.service.ts:755-904 | after an accepted cumulative refund, with or without a user refund settled inside it, refunds and chargebacks sum to exactly the reported amount, which has not fallen and is within the net amount |
| `RefundRuns.RedeliveryAddsNothing` | src/purchases/purchases.service.ts:764-791 | reporting the same amount again under any event id adds no money and, with no refund waiting, changes nothing |
| `RefundRuns.RecoveredOverRuns` | src/purchases/purchases.service.ts:816-875 | over any run of reports and unrelated credit activity, base recovery is exactly its floor share, paid recovery its floor share or one more, never above what was granted, and all of it at the full net amount |
| `RefundRuns.UnrefundedStarts` | src/purchases/purchases.service.ts:801-820 | a purchase without refunds is where such runs start |
| `RefundRuns.MoneyOverRuns` | src/purchases/purchases.service.ts:755-767 | over any such run the refunded money only grows and stays within the net amount |
| `MixedRefunds.MoneyGrowsOverRuns` | src/purchases/purchases.service.ts:755-767 | over any run that mixes reports with user refunds being requested, answered and completed, the money that has left a purchase never falls |
| `MixedRefunds.ReportSettlesAnyRun` | src/purchases/purchases.service.ts:764-792 | a report accepted after any such run brings the sum to exactly the reported amount, within the net amount and covering all that had left before |
| `MixedRefunds.UserRefundWithinNet` | src/purchases/purchases.service.ts:987-1055 | a user refund completed outside a report keeps the sum within the net amount if and only if what has left before leaves room for it |
| `MixedRefunds.UserRefundBeyondNet` | src/purchases/purchases.service.ts:1107-1113 | a user refund after a partial provider refund can exceed the net amount: of 100 paid, 103 leaves |
| `PaymentOnce.PaidKeepsOnce` | src/purchases/purchases.service.ts:605-645 | a paid event on an unpaid payment writes the first grant and the first capture row together and leaves the unpaid statuses |
| `PaymentOnce.GrantedOnceOverRuns` | src/purchases/purchases.service.ts:501-714 | over every run of deliveries, checkouts, store purchases and credit activity, a purchase has as many grants as capture rows, at most one, of its own amount, and a payment never re-enters the unpaid statuses |
| `PaymentOnce.ProcessedEventIsReplay` | src/purchases/purchases.service.ts:521-560 | a processed event delivered again is reported as a replay and changes nothing |
| `ReplyServices.FirstOfEachServes` | src/messages/message-reply.worker.ts:134-177 | picking the first polled row of each conversation leaves no polled conversation out and adds none |
| `ReplyServices.FirstOfEachDiffer` | src/messages/message-reply.worker.ts:134-177 | and serves no conversation twice |
| `ReplyServices.MessageReplyWorker.FirstPerConversation` | src/messages/message-reply.worker.ts:134-177 | the loop over a seen-set keeps exactly the first of these rows, in poll order, up to the limit |
| `ReplyServices.MessageReplyWorker.CompleteJob` | src/messages/message-reply.worker.ts:363-399 | closing, reply and capture happen together or, when the capture throws, not at all |
| `ReplyJobs.RunningIsUncaptured` | src/messages/message-reply.worker.ts:367-397 | a worker that still finds its job running, however late, holds a reservation that was never captured |
| `ReplyJobs.AccountedOverRuns` | src/messages/message-reply.worker.ts:363-399 | the accounting of replies and captured reservations is kept by every step of every run |
| `ReplyJobs.ExactlyOnceAlways` | src/messages/message-reply.worker.ts:363-399 | in every reachable state a completed job has exactly one reply and exactly one captured reservation of all ever attached to it, and any other job has none of either |
| `ReplyJobs.SerialOverRuns` | src/messages/message-reply.worker.ts:210-224 | at most one job of a conversation runs under a live lease |
| `ReplyJobs.StepFollowsExactly` | src/messages/message-reply.worker.ts:363-480 | for every step of workers however late: job states and current reservations stay in agreement if and only if the step is not a worker giving up a job that has been retried since it was claimed |
| `ReplyJobs.OutdatedCannotComplete` | src/messages/message-reply.worker.ts:363-399 | a late completion under an earlier reservation of the job throws |
| `ReplyJobs.HoldsFollowExactly` | src/messages/message-reply.worker.ts:363-480 | over every run from the empty tables, every state has each open job's current reservation reserved, each completed one's captured and each failed one's released, if and only if no step of the run is such a late failure |
| `ReplyJobs.HoldsFollowAlways` | src/messages/message-reply.worker.ts:401-480 | workers that act before their lease expires or never take no such step, so for them it holds in every reachable state |
| `ReplyJobs.LateWorkerStrandsReservation` | src/messages/message-reply.worker.ts:448-470 | without that condition a failed job can keep a reserved reservation: a run that gets there |
| `ReplyEffects.ClaimExactly` | src/messages/message-reply.worker.ts:179-254 | when a job is claimed, and that the deadline is that of its first claim |
| `ReplyEffects.CompletionExactly` | src/messages/message-reply.worker.ts:363-399 | when a completion takes effect, when it throws and when it does nothing |
| `ReplyEffects.FailureExactly` | src/messages/message-reply.worker.ts:401-480 | a failure is final exactly when it is not worth retrying, out of attempts or late; only then the reservation is freed |
| `ReplyEffects.RetryExactly` | src/messages/messages.service.ts:182-233 | exactly a failed job is reopened, with all its attempts and a deadline to come |
| `ReplyEffects.LostRequestReleases` | src/messages/messages.service.ts:158-233 | a retry that comes too late and a message that cannot be saved give their reservation back and change nothing else |
| `ReplyEffects.ReplyArrives` | src/messages/message-reply.worker.ts:179-399 | a waiting job whose turn it is, claimed and completed in time, ends with one reply and one charge |
| `ReplyEffects.SentMessageIsAnswered` | src/messages/messages.service.ts:117-148 | from the reservation to the reply: the message is stored, answered once and charged once |
| `ReplyEffects.TurnsStoredOverRuns` | src/messages/messages.service.ts:126-148 | over every run each job has exactly one message of its user, however often it was retried |
| `ReplyEffects.AttemptsLeftOverRuns` | src/messages/message-reply.worker.ts:401-447 | with punctual workers no job ever waits for another attempt once its attempts are used up |
| `ReplyCredits.CaptureRefines` | src/credits/credits.service.ts:164-217 | capturing a chat reservation in the reply queue throws exactly when the credit engine's capture does, and otherwise leaves both in agreement |
| `ReplyCredits.AgreeOverRuns` | src/messages/message-reply.worker.ts:363-480 | over every run of the reply queue together with the credit engine the two agree on every chat reservation, the ledger stays solvent and replies stay exactly once |
| `ReplyCredits.RepliesAreFunded` | src/messages/message-reply.worker.ts:393-397 | in every state of such a run a reserved chat reservation can be captured, so a running job completes without failing for lack of credits |
| `ReplyContext.BuildContext` | src/messages/message-reply.worker.ts:309-355 | filtering, sorting and mapping give the context of the job |
| `ReplyContext.SortSorts` | src/messages/message-reply.worker.ts:324-342 | sorting by the comparator orders distinct rows strictly and loses none |
| `Sorting.OrderedIsUnique` | src/messages/message-reply.worker.ts:324-342 | two arrangements of the same rows that a strict order puts in order are the same |
| `ReplyContext.ContextIgnoresRowOrder` | src/messages/message-reply.worker.ts:294-342 | the context is the same for every row order the database may return |
| `ReplyContext.ContextFollowsJobs` | src/messages/message-reply.worker.ts:309-342 | it holds exactly the rows in scope, in reply-job order, users' messages before the reply |
| `ReplyContext.ContextExactly` | src/messages/message-reply.worker.ts:294-355 | the context has one turn, with role and text, for each message of the job or an earlier one, or sent by the turn when it has no job, each once and no other, ordered by group, then user before character, then time and id |
| `ReplyContext.OwnMessageIsAnswered` | src/messages/message-reply.worker.ts:294-355 | the message to be answered is in the context, and is its last turn while every other message belongs to another job |
| `ReplyContext.EarlierContextIsPrefix` | src/messages/message-reply.worker.ts:309-342 | an earlier job's context is a prefix of a later job's over the same messages |
| `ReplyContext.LinkedHistoryHasNoneBetween` | src/messages/message-reply.worker.ts:310-316 | the condition of the prefix theorem holds of every history whose messages are linked to jobs |
| `SocialTables.InsertedRows` | src/character-social/character-post-view.repository.ts:20-31 | an insert that ignores conflicts keeps old rows and times and dates the new ones |
| `SocialTables.FreshIds` | src/character-social/character-post-view.repository.ts:28-30 | it returns exactly the ids that had no row |
| `SocialTables.InsertedCount` | src/character-social/character-post-view.repository.ts:11-18 | the day's count grows by exactly the rows inserted on that day |
| `SocialActivity.WindowIsAnArc` | src/character-social/character-social-activity-policy.service.ts:29-34 | the window test, with its wrap past midnight, is membership in the arc from start to end |
| `SocialActivity.VisitWithinQuota` | src/character-social/character-social-activity-policy.service.ts:59-72 | one activity takes no daily count over its limit, and does not raise one that is over it |
| `SocialActivity.QuotaOverVisits` | src/character-social/character-social-activity-application.service.ts:92-135 | over every run of activities the day's views, likes and follows never exceed their limits if they started within them |
| `SocialActivity.LikesFirstViewed` | src/posts/post-reaction.service.ts:12-23 | every new like is on a post first viewed in the same activity |
| `SocialActivity.LikesFirstViewedOverVisits` | src/posts/post-reaction.service.ts:12-23 | over every run, a post liked in it was first viewed in it, at the time of the like |
| `SocialActivity.FollowsAreEarned` | src/posts/post-reaction.repository.ts:48-69 | whoever is newly followed is another, active character with enough liked posts |
| `SocialActivity.FollowsAreComplete` | src/character-social/character-follow.service.ts:18-51 | an activity with follows to spare leaves no such character unfollowed |
| `SocialActivity.FollowsAreEarnedOverVisits` | src/posts/post-reaction.repository.ts:48-69 | over every run of activities whoever was followed is another character with enough posts that stay liked |
| `FollowScan.AfterIsRest` | src/posts/post-reaction.repository.ts:54-63 | the page after a cursor starts right behind the author the cursor names |
| `FollowScan.CharacterFollowService.ScanPages` | src/character-social/character-follow.service.ts:25-49 | the paged scan ends and selects exactly the first `limit` qualified authors of the whole list, for every length and page boundary |
| `FollowScan.CharacterFollowService.FollowQualifiedAuthors` | src/character-social/character-follow.service.ts:18-51 | and follows exactly those |
| `SocialJobs.ClaimsTheFirst` | src/character-social/character-social-activity-job.service.ts:32-61 | the job claimed is the first candidate that is eligible and has an attempt left; none is claimed only when there is none |
| `SocialJobs.StepKeepsKeys` | src/core/database/schema.ts:1213-1250 | every transaction keeps the lease check, the finish check and both unique indexes |
| `SocialJobs.SecondPassAddsNothing` | src/character-social/character-social-activity-application.service.ts:29-60 | a second scheduling pass at the same time changes nothing |
| `SocialJobs.StepKeepsCounted` | src/character-social/character-social-activity-job.repository.ts:70-85 | attempts count the claims handed out, never above maxAttempts, and a running job's token is that of its last claim |
| `SocialJobs.EffectsOnceOverRuns` | src/character-social/character-social-activity-application.service.ts:74-142 | over every interleaving a job is claimed at most maxAttempts times, its effects commit once if it is completed and otherwise never, and the feeds hold those effects and nothing else |
| `SocialJobs.EffectsOnlyByHolder` | src/character-social/character-social-activity-application.service.ts:82-139 | effects appear only in the step that completes their job, by the holder of the live token, for the first time, and touch no other character |
| `SocialJobs.OldClaimsAreFenced` | src/character-social/character-social-activity-job.repository.ts:97-134 | a claim whose token is no longer on the job changes nothing |
| `SocialJobs.QuotaOverRuns` | src/character-social/character-social-activity-policy.service.ts:59-72 | in every reachable state of the queue the daily counts are within the largest limits the character's policy had |
| `SocialJobs.LikesFirstViewedOverRuns` | src/posts/post-reaction.service.ts:12-23 | in every reachable state every liked post was first viewed by the same character at the time of the like |
| `SocialJobs.FollowsAreEarnedOverRuns` | src/posts/post-reaction.repository.ts:48-69 | in every reachable state of the queue a character follows only others of whom it likes enough posts |
| `SocialEffects.CanActExactly` | src/character-social/character-social-activity-policy.service.ts:29-57 | a character may act if and only if its policy is enabled, it is active in a valid time zone with a day, and its local time lies on the arc of its window |
| `SocialEffects.ScheduleOpensExactly` | src/character-social/character-social-activity-application.service.ts:39-56 | a due policy opens a job if and only if its character may act and the indexes admit it, and moves on either way |
| `SocialEffects.ClaimExactly` | src/character-social/character-social-activity-job.service.ts:24-62 | when a candidate is leased, when it is failed and when it is left alone |
| `SocialEffects.FailExactly` | src/character-social/character-social-activity-job.repository.ts:97-134 | a claim gives its job up exactly while it holds the live token, for good on the last attempt |
| `SocialEffects.ProcessExactly` | src/character-social/character-social-activity-application.service.ts:74-142 | an activity takes effect if and only if its claim is live at both readings of the clock and its character may act; a live claim of one that may not cancels the job |
| `SocialEffects.StepActsInWindow` | src/character-social/character-social-activity-application.service.ts:82-139 | in any step, effects and new jobs appear only for a character that may act then |
| `SocialEffects.ActsInWindowOverRuns` | src/character-social/character-social-activity-application.service.ts:82-139 | over every run each committed activity happened inside the activity window of an enabled policy, of an active character, on its local day |
| `SocialEffects.AllowancesExactly` | src/character-social/character-social-activity-policy.service.ts:59-72 | what the day leaves of views, likes and follows |
| `SocialEffects.ViewsExactly` | src/character-social/character-social-activity-application.service.ts:92-112 | a post of the pool is newly viewed if and only if fewer unseen posts are ahead of it than day and run allow |
| `SocialEffects.LikesAreComplete` | src/posts/post-reaction.service.ts:12-23 | an activity with likes to spare has liked every post it newly viewed whose coin came up heads |
| `SocialEffects.FollowsGoAllTheWay` | src/character-social/character-follow.service.ts:18-51 | an activity with follows to spare follows every other active author with enough liked posts |
| `SocialServices.CharacterSocialActivityJobService.ClaimNext` | src/character-social/character-social-activity-job.service.ts:24-62 | the loop over the candidates stops at the first lease |
| `SocialServices.CharacterSocialActivityApplicationService.ScheduleDueActivities` | src/character-social/character-social-activity-application.service.ts:29-60 | the pass over the characters, returning exactly the number of jobs opened |
| `SocialServices.CharacterSocialActivityApplicationService.Act` | src/character-social/character-social-activity-application.service.ts:92-135 | views, likes and follows in the source's order leave the feed of the activity theorems |
| `SocialServices.CharacterSocialActivityApplicationService.ProcessClaimedActivity` | src/character-social/character-social-activity-application.service.ts:74-142 | effects and the end of the job commit together, or the exception undoes both |
| `SocialServices.CharacterSocialActivityApplicationService.ProcessNextActivity` | src/character-social/character-social-activity-application.service.ts:62-72 | claim, process, and on an exception fail the claim |
| `Sorting.SortOrders` | src/notifications/notifications.service.ts:221-223 | a stable sort puts its input in a strict order whenever the comparator refines it and the rows it ties already stand in it |
| `FollowNotifications.SelectsHeadOfFullMerge` | src/notifications/notifications.service.ts:178-226 | although each source is cut to 51 rows and merged by the millisecond, the selection is exactly the first 50 of the full merge, and truncation is reported exactly when there are more |
| `FollowNotifications.SyncMatchesFullMerge` | src/notifications/notifications.service.ts:225-254 | the rows written and the counts reported, against the full merge |
| `FollowNotifications.UntruncatedSyncMissesNothing` | src/notifications/notifications.service.ts:156-202 | a sync that reports no truncation leaves no unseen post or live story without a notification |
| `FollowNotifications.NotifiedOnceOverRuns` | src/notifications/notifications.service.ts:239-252 | over any run of syncs, follows, unfollows and publications under a monotone clock no item is notified twice |
| `FollowNotifications.SyncNotifiesOnlyNew` | src/notifications/notifications.service.ts:125-256 | every notification of a sync is of a post or live story of a followed active character, later than that character's last sync and not later than this one |
| `FollowNotifications.SyncMovesExactly` | src/notifications/notifications.service.ts:239-252 | a sync moves exactly the watermarks of followed active characters to its own time and keeps all else but the notifications it adds |
| `FollowNotifications.NothingIsLost` | src/notifications/notifications.service.ts:125-256 | over every run, what a followed active character publishes after a sync is notified by the sync that first reaches it, unless that one is truncated or the story has expired |
| `FollowNotifications.NothingIsLostSinceFollow` | src/notifications/notifications.service.ts:125-256 | the same from the first follow on, even when the user follows again |
| `FollowNotifications.NowOrNever` | src/notifications/notifications.service.ts:225-252 | a sync decides for good: an item it finds is notified in every later state of every run if it is among the newest fifty found, and otherwise in none |

## Left out

- Locks and isolation: each transaction under an advisory lock is one atomic step; blocking, deadlocks and reads outside transactions are not modelled.
- One user, one character or one purchase at a time: the credit tables hold the rows of a single user, and other users' rows do not occur.
- Clocks: a credit transaction reads the clock once and takes it as a parameter; the several `new Date()` calls of one transaction are the same instant.
- Solvency.SolventOverRuns: runs in which a grant passes its expiry, a provider reverses a payment, or an adjustment is written are excluded, because the statement is false there or the writer is outside the model.
- RefundRuns.RecoveredOverRuns: forced reversals and user refunds of the same purchase are excluded, because a forced reversal recovers the full original amount again.
- PurchasesService.PurchasesService.RecordProviderAnswer: the status written after the provider has answered is unguarded in the code; runs in which an event overtakes it are excluded by the step's guard.
- RefundRuns.MoneyOverRuns: bounds runs without user refunds of the purchase; `MixedRefunds` has the runs with them, for which the bound is false.
- RefundFlight.UnspendableOverRuns: ends with a new grant to the purchase or a failed or canceled answer, which give credits back by design.
- SocialJobs.FollowsAreEarnedOverRuns: assumes that each activity's query counted the likes that were stored, because authorship of posts is not a table of the model.
- CreditsService.CreditsService.ReserveCredits: a reference generated for a caller that gives none is a parameter.
- CreditsService.CreditsService.GrantCreditsWithClient: a grant under the reference of a usage or recovery row, which the code refuses and no caller asks for, is not refused.
- ReplyServices.MessagesService.AppendMessage: text, experience and the time of the conversation's last message are not modelled.
- PurchasesService.PurchasesService.RefundQuote: the fields that are only displayed (minimum credits, balance after the refund, expected debt) are not modelled.
- FollowNotifications.NotifiedOnceOverRuns: assumes a clock that does not go back and items that keep their id, character and time.
- FollowNotifications.NothingIsLost: an item that is stored after a sync under an earlier time is not followed, because the code accepts that it is missed.
- CreditEffects.GrantAddsExactly: a grant to a purchase under a refund lock is left to `CreditEffects.BalancesAreConserved`, because the lock withholds part of it.
- CreditEffects.SpendSucceedsExactly: assumes that adjustments of free credits sum to zero and those of paid ones to at most zero; the one writer of adjustments, the transfer of an identity's debt, writes negative paid ones.
- PaymentEffects.PaidAcceptedExactly: assumes that a purchase is of at least one credit, as every product is.
- PaymentEffects.ReportRecoversShare: a purchase that also has user refunds or a reversal is left to `PaymentEffects.ReportSettlesPending`, `PaymentEffects.ReversalTakesAll` and `MixedRefunds`.
- ReplyEffects.AttemptsLeftOverRuns: workers that come back after their lease are excluded, because a late failure can requeue a job with the attempts it remembers.
- ReplyContext.EarlierContextIsPrefix: messages without a job must not fall between the two jobs; the worker scopes those by the turn's own time and the linked ones by their job.
- Providers and the agent: events, refund answers and replies are arbitrary values; signatures, HTTP and SDKs are not part of this model.
- Looking up a payment by transaction key: an event carries the payment it resolves to, or none.
- Currency normalisation (trim, upper case), trimming and generating references, and environment assertions.
- The refund fee of 0.05 is an integer division by 20, and products are assumed to stay below 2^53.
- Notifications to users, console logs and event recording that ride along with a transaction.
- Ids are natural numbers, and comparing them stands for `localeCompare` and uuid order.
- Legacy reply jobs without a reservation reference.
- Chance: which viewed posts are liked is an arbitrary subset; the probability itself is not modelled.
- The in-place sort of the reply context and of the notification candidates is a sort on sequences.
- SQL queries are functions on tables; indexes, query plans and microsecond paging are not part of this model.
- Character job rows after they are closed: nothing deletes or reopens them.
- Timers and poll loops of the workers: steps happen in any order instead.
- Check-in bonuses, sign-up bonuses, account withdrawal, listing and paging endpoints, posts, stories, feeds, search and reports: single branches or queries.
