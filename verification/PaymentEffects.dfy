/** When the purchase service accepts a request or an event, and what an accepted one does. */
module PaymentEffects {
  import opened Prelude
  import opened Tables
  import opened Waterfall
  import opened CreditRules
  import opened PurchaseRules
  import opened PurchaseCredits
  import opened RefundRuns
  import CreditEffects
  import PaymentOnce

  // ----- quotes and user refunds

  /** A quote is refused exactly when the purchase is unknown, not bought on the web, some reservation is active, or
      the provider has not told its net amount. It is eligible exactly when the purchase is complete, nothing of it is
      locked, and at least half of its paid credits, of which there are some, are left. */
  lemma QuoteExactly(s: Store, now: int, p: nat)
    ensures QuoteFor(s, now, p).Ok? <==>
            && p in s.payments && s.payments[p].channel == Web
            && (forall i | 0 <= i < |s.ledger.reservations| :: !Active(s.ledger.reservations[i], now))
            && (s.payments[p].provider == "polar" ==> s.payments[p].netAmount.Some?)
    ensures QuoteFor(s, now, p).Err? ==> QuoteFor(s, now, p).error == if p in s.payments then Conflict else NotFound
    ensures QuoteFor(s, now, p).Ok? ==>
              var c := SnapshotOf(s.ledger, now, p);
              QuoteFor(s, now, p).value.eligible <==>
              && s.payments[p].purchaseStatus == PurchaseCompleted && LockedFor(s.ledger, p) == 0
              && c.originalPaid + c.originalPaidPromotion > 0
              && (c.remainingPaid + c.remainingPaidPromotion) * 2 >= c.originalPaid + c.originalPaidPromotion
  {
  }

  /** The gross amount of an eligible quote is the payment's share of the paid credits left, rounded down. */
  lemma QuoteIsShare(s: Store, now: int, p: nat, q: Quote, amount: nat)
    requires QuoteFor(s, now, p) == Ok(q) && q.eligible
    requires var payment := s.payments[p];
             Some(amount as int) == if payment.provider == "polar" then payment.netAmount else payment.amount
    ensures var c := SnapshotOf(s.ledger, now, p);
            var left, granted := c.remainingPaid + c.remainingPaidPromotion, c.originalPaid + c.originalPaidPromotion;
            granted * q.grossAmount <= amount * left < granted * (q.grossAmount + 1)
  {
    var c := SnapshotOf(s.ledger, now, p);
    DivBounds(amount * (c.remainingPaid + c.remainingPaidPromotion), c.originalPaid + c.originalPaidPromotion);
  }

  /** A request under a new key opens a refund exactly when its quote is eligible; under the same key it opens no
      second one. */
  lemma RequestOpensOnce(s: Store, now: int, p: nat, key: string, later: int)
    ensures FindRefundByKey(s.ledger.refunds, p, key).None? ==>
              (PrepareRefund(s, now, p, key).Ok? <==> QuoteFor(s, now, p).Ok? && QuoteFor(s, now, p).value.eligible)
    ensures PrepareRefund(s, now, p, key).Ok? ==>
              var t := PrepareRefund(s, now, p, key).value;
              PrepareRefund(t, later, p, key) == Ok(t)
  {
  }

  /** What the row of a request records: the parts that later provider reports count as recovered. */
  lemma RequestRecords(s: Store, now: int, p: nat, key: string)
    requires FindRefundByKey(s.ledger.refunds, p, key).None? && PrepareRefund(s, now, p, key).Ok?
    ensures var row := PrepareRefund(s, now, p, key).value.ledger.refunds[|s.ledger.refunds|];
            var c := SnapshotOf(s.ledger, now, p);
            && row.creditAmount == c.remainingPaid
            && row.promotionAmount - row.freePromotionAmount == c.remainingPaidPromotion
            && row.debtAmount == 0 && row.grossAmount == row.feeAmount + row.refundAmount
  {
    LeftAfterRecovery(s.ledger, now, p);
  }

  /** A refund that its provider fails or cancels gives everything back: availability, debt and balances are as before
      the request. One that it accepts keeps its lock. */
  lemma AnswerDecidesLock(s: Store, now: int, p: nat, key: string, answer: ProviderAnswer)
    requires FindRefundByKey(s.ledger.refunds, p, key).None? && PrepareRefund(s, now, p, key).Ok?
    ensures var requested := PrepareRefund(s, now, p, key).value;
            var answered := RecordAnswer(requested, |s.ledger.refunds|, answer);
            && answered.ledger.refunds[|s.ledger.refunds|].status
               == (match answer case Succeeds => PaymentSucceeded case Processes => PaymentProcessing
                                case Fails => Failed case Cancels => Canceled)
            && (answer in {Fails, Cancels} ==>
                  && StateOf(answered.ledger, now, true) == StateOf(s.ledger, now, true)
                  && BalanceOf(answered.ledger, now) == BalanceOf(s.ledger, now)
                  && LockedFor(answered.ledger, p) == 0)
            && (answer in {Succeeds, Processes} ==>
                  && StateOf(answered.ledger, now, true) == StateOf(requested.ledger, now, true)
                  && LockedFor(answered.ledger, p) == LockedFor(requested.ledger, p) > 0)
  {
    var requested := PrepareRefund(s, now, p, key).value;
    var answered := RecordAnswer(requested, |s.ledger.refunds|, answer);
    RefundInFlight(s, now, p, key);
    forall q: nat
      ensures answer in {Fails, Cancels} ==> LockedFor(answered.ledger, q) == LockedFor(s.ledger, q)
      ensures answer in {Succeeds, Processes} ==> LockedFor(answered.ledger, q) == LockedFor(requested.ledger, q)
    {
      AnsweredLock(s, now, p, key, answer, q);
    }
    SameLocks(answered.ledger, if answer in {Fails, Cancels} then s.ledger else requested.ledger, now);
  }

  lemma AnsweredLock(s: Store, now: int, p: nat, key: string, answer: ProviderAnswer, q: nat)
    requires FindRefundByKey(s.ledger.refunds, p, key).None? && PrepareRefund(s, now, p, key).Ok?
    ensures var requested := PrepareRefund(s, now, p, key).value;
            var answered := RecordAnswer(requested, |s.ledger.refunds|, answer);
            && (answer in {Fails, Cancels} ==> LockedFor(answered.ledger, q) == LockedFor(s.ledger, q))
            && (answer in {Succeeds, Processes} ==> LockedFor(answered.ledger, q) == LockedFor(requested.ledger, q))
  {
    var requested, i := PrepareRefund(s, now, p, key).value, |s.ledger.refunds|;
    LockAppended(s.ledger.refunds, requested.ledger.refunds[i], q);
    LockUpdated(requested.ledger.refunds, i, AnswerStatus(answer), q);
  }

  lemma SameLocks(a: Ledger, b: Ledger, now: int)
    requires a == b.(refunds := a.refunds, nextId := a.nextId)
    requires forall q: nat :: LockedFor(a, q) == LockedFor(b, q)
    ensures StateOf(a, now, true) == StateOf(b, now, true) && BalanceOf(a, now) == BalanceOf(b, now)
  {
    forall q: nat ensures Get(PoolsOf(a, true).lock, q) == Get(PoolsOf(b, true).lock, q) {
      assert LockedFor(a, q) == LockedFor(b, q);
    }
    SameWeightPools(Holdings(a.grants, a.usages, now), PoolsOf(a, true), PoolsOf(b, true));
    DebtIgnoresRefunds(a, b, now);
    assert DebtOf(a, now) == DebtOf(b, now);
    SameStateSameBalance(a, b, now);
  }

  /** Completing a waiting refund closes the purchase: payment and purchase are refunded, its row waits no longer, doing
      it again changes nothing, a later reversal takes nothing, and no further refund is eligible. */
  lemma CompletionCloses(s: Store, i: nat, event: Option<string>, now: int, other: Event)
    requires i < |s.ledger.refunds| && s.ledger.refunds[i].status != Completed
    requires s.ledger.refunds[i].purchase in s.payments
    ensures CompleteRefund(s, i, event).Ok?
    ensures var p := s.ledger.refunds[i].purchase;
            var t := CompleteRefund(s, i, event).value;
            && p in t.payments && t.payments[p].status == Refunded && t.payments[p].purchaseStatus == PurchaseRefunded
            && t.ledger.refunds == s.ledger.refunds[i := s.ledger.refunds[i].(status := Completed)]
            && t.ledger.recoveries
               == s.ledger.recoveries + [Recovery(p, s.ledger.refunds[i].recoveryAmount, s.ledger.refunds[i].id)]
            && t.money == s.money + [Money(p, RefundOut, Some(s.ledger.refunds[i].refundAmount), event)]
            && CompleteRefund(t, i, event) == Ok(t)
            && ForceReversal(t, now, p, other) == t
            && (QuoteFor(t, now, p).Ok? ==> !QuoteFor(t, now, p).value.eligible)
  {
  }

  // ----- provider reports

  /** A cumulative report is accepted exactly when its amounts make sense, agree with what is stored, do not go back,
      and leave room for a user refund that waits; otherwise it is refused and never fails. */
  lemma ReportAcceptedExactly(s: Store, now: int, p: nat, event: Event, net: int, refunded: int)
    requires p in s.payments
    ensures Accepted(ApplyCumulativeRefund(s, now, p, event, net, refunded)) <==>
            && 0 < refunded <= net
            && (s.payments[p].netAmount.Some? ==> s.payments[p].netAmount.value == net)
            && (s.payments[p].taxAmount.Some? && event.taxAmount.Some? ==> s.payments[p].taxAmount == event.taxAmount)
            && (event.currency.Some? ==> s.payments[p].currency == event.currency)
            && RefundedMoney(s.money, p) <= refunded
            && (forall i | PendingRefund(s.ledger.refunds, p) == Some(i) ::
                  RefundedMoney(s.money, p) + s.ledger.refunds[i].refundAmount <= refunded)
    ensures var r := ApplyCumulativeRefund(s, now, p, event, net, refunded);
            r.Ok? && (!Accepted(r) ==> r.value.code == "refund_amount_mismatch" || r.value.code == "currency_mismatch")
  {
  }

  ghost predicate Agrees(payment: Payment, event: Event) {
    && (payment.taxAmount.Some? && event.taxAmount.Some? ==> payment.taxAmount == event.taxAmount)
    && (event.currency.Some? ==> payment.currency == event.currency)
  }

  /** A purchase that only its provider refunds: every report that agrees and does not go back is accepted, and leaves
      the money at the report and the recovery at its share; a report of the whole net amount recovers every paid credit
      that was granted. */
  lemma ReportRecoversShare(s: Store, now: int, p: nat, event: Event, net: int, refunded: int,
                            base: nat, promotion: nat)
    requires ProviderRefunded(s, p, net, base, promotion) && Agrees(s.payments[p], event)
    requires 0 < refunded && RefundedMoney(s.money, p) <= refunded <= net
    ensures Accepted(ApplyCumulativeRefund(s, now, p, event, net, refunded))
    ensures var t := ApplyCumulativeRefund(s, now, p, event, net, refunded).value.store;
            var recovered := CompletedBase(t.ledger.refunds, p) + CompletedPaidPromotion(t.ledger.refunds, p);
            && RefundedMoney(t.money, p) == refunded
            && CompletedBase(t.ledger.refunds, p) == base * refunded / net
            && (|| recovered == (base + promotion) * refunded / net
                || recovered == (base + promotion) * refunded / net + 1)
            && (refunded == net ==> recovered == base + promotion)
            && RecoveredFor(t.ledger, p) == recovered + CompletedFreePromotion(t.ledger.refunds, p)
  {
    ReportAcceptedExactly(s, now, p, event, net, refunded);
    var t := ApplyCumulativeRefund(s, now, p, event, net, refunded).value.store;
    var report := Report(now, event, net, refunded);
    assert Perform(s, p, report) == t;
    MoneyMatchesReport(s, now, p, event, net, refunded);
    RecoveredOverRuns(s, p, net, base, promotion, [report], t);
  }

  /** What a report beyond what has already left records about payment and purchase. */
  lemma ReportSetsStatus(s: Store, now: int, p: nat, event: Event, net: int, refunded: int)
    requires p in s.payments && PendingRefund(s.ledger.refunds, p).None?
    requires Accepted(ApplyCumulativeRefund(s, now, p, event, net, refunded)) && RefundedMoney(s.money, p) < refunded
    requires s.payments[p].status != Refunded && s.payments[p].purchaseStatus != PurchaseRefunded
    ensures var t := ApplyCumulativeRefund(s, now, p, event, net, refunded).value.store;
            && p in t.payments && t.payments[p].netAmount == Some(net)
            && t.payments[p].taxAmount == (if event.taxAmount.Some? then event.taxAmount else s.payments[p].taxAmount)
            && (t.payments[p].status == Reversed <==> RefundedMoney(t.money, p) == net)
            && (t.payments[p].purchaseStatus == PurchaseReversed <==> RefundedMoney(t.money, p) == net)
            && (t.payments[p].status == PartiallyRefunded <==> RefundedMoney(t.money, p) < net)
            && (t.payments[p].purchaseStatus == PurchaseCompleted <==> RefundedMoney(t.money, p) < net)
  {
    MoneyMatchesReport(s, now, p, event, net, refunded);
  }

  /** A report that finds a user refund waiting settles it first: the refund is completed and its credits recovered,
      whatever the report asks beyond it. A report of exactly that refund completes it and does nothing else. */
  lemma ReportSettlesPending(s: Store, now: int, p: nat, event: Event, net: int, refunded: int, i: nat)
    requires p in s.payments && PendingRefund(s.ledger.refunds, p) == Some(i)
    requires Accepted(ApplyCumulativeRefund(s, now, p, event, net, refunded))
    ensures var t := ApplyCumulativeRefund(s, now, p, event, net, refunded).value.store;
            var refund := s.ledger.refunds[i];
            && t.ledger.refunds[..|s.ledger.refunds|] == s.ledger.refunds[i := refund.(status := Completed)]
            && |t.ledger.recoveries| > |s.ledger.recoveries|
            && t.ledger.recoveries[..|s.ledger.recoveries| + 1]
               == s.ledger.recoveries + [Recovery(p, refund.recoveryAmount, refund.id)]
            && t.money[..|s.money| + 1]
               == s.money + [Money(p, RefundOut, Some(refund.refundAmount), Some(event.id))]
            && p in t.payments && t.payments[p].status == Refunded && t.payments[p].purchaseStatus == PurchaseRefunded
            && (refunded == RefundedMoney(s.money, p) + refund.refundAmount <==>
                  |t.ledger.refunds| == |s.ledger.refunds|)
            && (refunded == RefundedMoney(s.money, p) + refund.refundAmount ==>
                  Ok(t) == CompleteRefund(s, i, Some(event.id)))
  {
    SettlesThenIncreases(s, now, p, event, net, refunded, i);
    CompletionCloses(s, i, Some(event.id), now, event);
    IncreaseAppends(CompleteRefund(s, i, Some(event.id)).value, now, p, event, net, refunded);
  }

  lemma SettlesThenIncreases(s: Store, now: int, p: nat, event: Event, net: int, refunded: int, i: nat)
    requires p in s.payments && PendingRefund(s.ledger.refunds, p) == Some(i)
    requires Accepted(ApplyCumulativeRefund(s, now, p, event, net, refunded))
    ensures net > 0 && CompleteRefund(s, i, Some(event.id)).Ok?
    ensures var settled := CompleteRefund(s, i, Some(event.id)).value;
            && p in settled.payments
            && ApplyCumulativeRefund(s, now, p, event, net, refunded).value.store
               == if refunded == RefundedMoney(s.money, p) + s.ledger.refunds[i].refundAmount then settled
                  else RefundIncrease(settled, now, p, event, net, refunded)
  {
  }

  /** What an increase leaves of the rows before it, and of a purchase that a user refund has closed. */
  lemma IncreaseAppends(s: Store, now: int, p: nat, event: Event, net: int, refunded: int)
    requires p in s.payments && net > 0
    ensures var t := RefundIncrease(s, now, p, event, net, refunded);
            && |t.ledger.refunds| == |s.ledger.refunds| + 1
            && t.ledger.refunds[..|s.ledger.refunds|] == s.ledger.refunds
            && |t.ledger.recoveries| >= |s.ledger.recoveries|
            && t.ledger.recoveries[..|s.ledger.recoveries|] == s.ledger.recoveries
            && |t.money| == |s.money| + 1 && t.money[..|s.money|] == s.money
            && p in t.payments
            && (s.payments[p].status == Refunded ==> t.payments[p].status == Refunded)
            && (s.payments[p].purchaseStatus == PurchaseRefunded ==> t.payments[p].purchaseStatus == PurchaseRefunded)
  {
  }

  /** The first report beyond what has left takes back every free promotional credit that is left. */
  lemma ReportTakesFreePromotion(s: Store, now: int, p: nat, event: Event, net: int, refunded: int)
    requires p in s.payments && PendingRefund(s.ledger.refunds, p).None?
    requires Accepted(ApplyCumulativeRefund(s, now, p, event, net, refunded)) && RefundedMoney(s.money, p) < refunded
    ensures var t := ApplyCumulativeRefund(s, now, p, event, net, refunded).value.store;
            CompletedFreePromotion(t.ledger.refunds, p)
            == CompletedFreePromotion(s.ledger.refunds, p)
               + Total(StateOf(s.ledger, now, false).snapshots, FreePromotion(p))
  {
    CumulativeFreePromotion(s, now, p, event, net, refunded);
    IncreaseSums(s, now, p, event, net, refunded);
  }

  lemma CumulativeFreePromotion(s: Store, now: int, p: nat, event: Event, net: int, refunded: int)
    requires net > 0
    ensures CumulativeRow(s, now, p, event, net, refunded).freePromotionAmount
         == Total(StateOf(s.ledger, now, false).snapshots, FreePromotion(p))
  {
    TotalSplit(StateOf(s.ledger, now, false).snapshots, PaidPromotion(p), FreePromotion(p), Promotion(p));
  }

  // ----- reversals

  function GrantedRefundable(l: Ledger, p: nat): nat {
    Total(Originals(l.grants), Refundable(p))
  }

  /** A forced reversal recovers every paid and promotional credit that was ever granted for the purchase, closes it,
      and takes nothing a second time; of a purchase without plain free grants nothing can be spent afterwards. */
  lemma ReversalTakesAll(s: Store, now: int, p: nat, event: Event, later: int, again: Event)
    requires p in s.payments && s.payments[p].status !in {Reversed, Refunded}
    ensures var t := ForceReversal(s, now, p, event);
            && RecoveredFor(t.ledger, p) == RecoveredFor(s.ledger, p) + GrantedRefundable(s.ledger, p)
            && p in t.payments && t.payments[p].status == Reversed && t.payments[p].purchaseStatus == PurchaseReversed
            && t.money == s.money + [Money(p, Chargeback,
                 if event.amount.Some? then event.amount else s.payments[p].amount, Some(event.id))]
            && ForceReversal(t, later, p, again) == t
            && (Total(Originals(s.ledger.grants), PlainFree(p)) == 0 ==> Unspendable(t.ledger, now, p))
  {
    var t := ForceReversal(s, now, p, event);
    var row := ReversalRow(s, now, p, event);
    var granted := Originals(s.ledger.grants);
    TotalSplit(granted, BasePaid(p), Promotion(p), Refundable(p));
    TotalSplit(granted, Refundable(p), PlainFree(p), Linked(p));
    assert row.recoveryAmount == GrantedRefundable(s.ledger, p);
    RecoverRowAdds(s.ledger, row);
    HoldingsBelowOriginals(s.ledger.grants, s.ledger.usages, now);
    TotalMonotone(Holdings(s.ledger.grants, s.ledger.usages, now), granted, Linked(p));
    UnspendableExactly(t.ledger, now, p);
  }

  // ----- paid events

  /** What a paid event says agrees with the payment: its product; its amounts with each other and with the amount
      expected, which is the net or the gross one; its currency. */
  ghost predicate PaidAgrees(payment: Payment, event: Event) {
    && (event.productId.Some? ==> event.productId.value == payment.productId)
    && (event.netAmount.Some? && event.taxAmount.Some? && event.amount.Some? ==>
          event.amount.value == event.netAmount.value + event.taxAmount.value)
    && (event.netAmount.Some? || event.amount.Some? ==>
          payment.amount.Some? && (payment.amount == event.netAmount || payment.amount == event.amount))
    && (event.currency.Some? ==> payment.currency == event.currency)
  }

  /** A paid event is accepted exactly when it agrees with a payment that is still open, or repeats the transaction of
      one that is paid. */
  lemma PaidAcceptedExactly(s: Store, now: int, p: nat, event: Event)
    requires PaymentOnce.Once(s) && p in s.payments && s.payments[p].creditAmount > 0
    ensures Accepted(ApplyPaid(s, now, p, event)) <==>
            && PaidAgrees(s.payments[p], event)
            && (|| s.payments[p].status in {Pending, Verified, Processing}
                || (s.payments[p].status == PaidUp
                    && (event.transactionId.Some? && s.payments[p].transactionId.Some? ==>
                          event.transactionId == s.payments[p].transactionId)))
    ensures ApplyPaid(s, now, p, event).Ok?
  {
    assert PaymentOnce.OnceFor(s, p);
    PaymentOnce.FoundIsGranted(s.ledger.grants, p);
  }

  /** What an accepted paid event on an open payment records: the money, the completed purchase, and the transaction and
      amounts that later events are compared with, where the event tells them. */
  lemma PaidRecords(s: Store, now: int, p: nat, event: Event)
    requires p in s.payments && s.payments[p].status != PaidUp && Accepted(ApplyPaid(s, now, p, event))
    ensures var t := ApplyPaid(s, now, p, event).value.store;
            && t.payments == s.payments[p := s.payments[p].(
                 status := PaidUp,
                 purchaseStatus := PurchaseCompleted,
                 transactionId := if event.transactionId.Some? then event.transactionId
                                  else s.payments[p].transactionId,
                 netAmount := if event.netAmount.Some? then event.netAmount else s.payments[p].netAmount,
                 taxAmount := if event.taxAmount.Some? then event.taxAmount else s.payments[p].taxAmount)]
            && t.money == s.money + [Money(p, CaptureIn,
                 if event.amount.Some? then event.amount else s.payments[p].amount, Some(event.id))]
  {
  }

  /** An accepted paid event on an open payment grants the purchase's credits as paid credits that never expire and
      raises the balances by them; on a paid payment it changes nothing. */
  lemma PaidGrantsCredits(s: Store, now: int, p: nat, event: Event)
    requires PaymentOnce.Once(s) && p in s.payments && s.payments[p].creditAmount > 0
    requires forall i | 0 <= i < |s.ledger.usages| :: s.ledger.usages[i].grant < s.ledger.nextId
    requires LockedFor(s.ledger, p) == 0
    requires Accepted(ApplyPaid(s, now, p, event))
    ensures var t := ApplyPaid(s, now, p, event).value.store;
            && (s.payments[p].status == PaidUp ==> t == s)
            && (s.payments[p].status != PaidUp ==>
                  && multiset(t.ledger.grants) == multiset(s.ledger.grants) + multiset{
                       Grant(s.ledger.nextId, Paid, Some(p), false, s.payments[p].creditAmount, None, now,
                             Some(PurchaseGrant(p)))}
                  && BalanceOf(t.ledger, now).paid + BalanceOf(t.ledger, now).free
                     == BalanceOf(s.ledger, now).paid + BalanceOf(s.ledger, now).free + s.payments[p].creditAmount)
  {
    assert PaymentOnce.OnceFor(s, p);
    PaymentOnce.FoundIsGranted(s.ledger.grants, p);
    if s.payments[p].status != PaidUp {
      PaidLedger(s, now, p, event);
      CreditEffects.GrantAddsExactly(s.ledger, now, PurchaseGrantInput(p, s.payments[p].creditAmount));
    }
  }

  lemma PaidLedger(s: Store, now: int, p: nat, event: Event)
    requires p in s.payments && s.payments[p].status != PaidUp && Accepted(ApplyPaid(s, now, p, event))
    ensures Ok(ApplyPaid(s, now, p, event).value.store.ledger)
         == AddGrant(s.ledger, now, PurchaseGrantInput(p, s.payments[p].creditAmount))
  {
  }

  /** Only a pending checkout is claimed; handing it back undoes the claim, and undoes nothing that an event wrote in
      between. */
  lemma CheckoutIsHandedBack(s: Store, p: nat)
    requires p in s.payments
    ensures ClaimCheckout(s, p) != s <==> s.payments[p].status == Pending
    ensures s.payments[p].status == Pending ==>
              && p in ClaimCheckout(s, p).payments && ClaimCheckout(s, p).payments[p].status == Processing
              && ReturnCheckout(ClaimCheckout(s, p), p) == s
    ensures s.payments[p].status != Processing ==> ReturnCheckout(s, p) == s
  {
    if s.payments[p].status == Pending {
      var claimed := ClaimCheckout(s, p);
      assert claimed.payments[p].status == Processing;
      assert ReturnCheckout(claimed, p).payments == s.payments;
    }
  }

  // ----- deliveries

  /** An event delivered for the first time, for a payment of its provider. */
  ghost predicate FirstDelivery(s: Store, event: Event) {
    && (event.provider, event.id) !in s.inbox
    && event.payment.Some? && event.payment.value in s.payments
    && s.payments[event.payment.value].provider == event.provider
  }

  /** The delivery did its work and will not be repeated. */
  ghost predicate Worked(s: Store, now: int, event: Event, t: Store) {
    ApplyEvent(s, now, event)
    == Ok(Receipt(t.(inbox := t.inbox[(event.provider, event.id) := Inbox(event.eventType, Processed)]), false, None))
  }

  /** The delivery was refused: nothing but the inbox has changed, and it may come again. */
  ghost predicate Declined(s: Store, now: int, event: Event) {
    && ApplyEvent(s, now, event).Ok? && ApplyEvent(s, now, event).value.error.Some?
    && ApplyEvent(s, now, event).value.store
       == s.(inbox := s.inbox[(event.provider, event.id) := Inbox(event.eventType, Rejected)])
  }

  /** A delivery throws exactly when its id was seen with another type, or when it is to do something and its payment is
      unknown or another provider's; the one exception is a repetition, which only polar looks up before it answers. */
  lemma DeliveryThrowsExactly(s: Store, now: int, event: Event)
    requires PaymentOnce.Once(s) && forall p | p in s.payments :: s.payments[p].creditAmount > 0
    ensures var key := (event.provider, event.id);
            var done := key in s.inbox && s.inbox[key].status == Processed;
            var known := event.payment.Some? && event.payment.value in s.payments
                         && s.payments[event.payment.value].provider == event.provider;
            && (ApplyEvent(s, now, event).Err? <==>
                  || (key in s.inbox && s.inbox[key].eventType != event.eventType)
                  || (event.eventType != IgnoredEvent && !known && (done ==> event.provider == "polar")))
            && (ApplyEvent(s, now, event).Ok? ==>
                  (ApplyEvent(s, now, event).value.replay <==>
                     done && !(event.provider == "polar" && event.eventType == IgnoredEvent)))
            && (ApplyEvent(s, now, event).Ok? && ApplyEvent(s, now, event).value.replay ==>
                  ApplyEvent(s, now, event).value.store == s)
  {
    if event.payment.Some? && event.payment.value in s.payments {
      var p := event.payment.value;
      match event.eventType
      case PaidEvent => PaidAcceptedExactly(s, now, p, event);
      case RefundedEvent =>
        if event.netAmount.Some? && event.refundedAmount.Some? {
          ReportAcceptedExactly(s, now, p, event, event.netAmount.value, event.refundedAmount.value);
        }
      case _ =>
    }
  }

  /** First deliveries, type by type: a paid event and a cumulative report work exactly when they are accepted and are
      declined otherwise; a reversal takes everything back unless that has happened; a failure closes an open payment;
      a refund without amounts completes the refund that waits, or else is a reversal. */
  lemma FirstDeliveryWorks(s: Store, now: int, event: Event)
    requires FirstDelivery(s, event) && PaymentOnce.Once(s) && s.payments[event.payment.value].creditAmount > 0
    ensures var p := event.payment.value;
            match event.eventType
            case PaidEvent =>
              var r := ApplyPaid(s, now, p, event);
              if Accepted(r) then Worked(s, now, event, r.value.store) else Declined(s, now, event)
            case ReversedEvent => Worked(s, now, event, ForceReversal(s, now, p, event))
            case FailedEvent =>
              Worked(s, now, event,
                     if s.payments[p].status !in {Pending, Verified, Processing} then s
                     else s.(payments := s.payments[
                               p := s.payments[p].(status := PaymentFailed, purchaseStatus := PurchaseFailed)]))
            case IgnoredEvent => Worked(s, now, event, s)
            case RefundedEvent =>
              if event.netAmount.Some? && event.refundedAmount.Some? then
                var r := ApplyCumulativeRefund(s, now, p, event, event.netAmount.value, event.refundedAmount.value);
                if Accepted(r) then Worked(s, now, event, r.value.store) else Declined(s, now, event)
              else match PendingRefund(s.ledger.refunds, p)
                case Some(i) => CompleteRefund(s, i, Some(event.id)).Ok?
                                && Worked(s, now, event, CompleteRefund(s, i, Some(event.id)).value)
                case None => Worked(s, now, event, ForceReversal(s, now, p, event))
  {
    var p := event.payment.value;
    match event.eventType
    case PaidEvent => PaidAcceptedExactly(s, now, p, event);
    case RefundedEvent =>
      if event.netAmount.Some? && event.refundedAmount.Some? {
        ReportAcceptedExactly(s, now, p, event, event.netAmount.value, event.refundedAmount.value);
      }
    case _ =>
  }
}
