/** The purchase service over the shared database. */
module PurchasesService {
  import opened Prelude
  import opened Tables
  import opened CreditRules
  import opened PurchaseRules
  import D = Database
  import C = CreditsService

  function StoreAfter(before: Store, r: Result<Store, Error>): Store {
    match r
    case Ok(s) => s
    case Err(_) => before
  }

  /** The store an event leaves: a refusal writes nothing but its inbox mark, an error nothing at all. */
  function AfterOutcome(before: Store, r: Result<Outcome, Error>): Store {
    match r
    case Ok(Done(s)) => s
    case Ok(Refused(_)) => before
    case Err(_) => before
  }

  /** What a service method reports: a thrown error, a refusal code, or nothing. */
  datatype Report = Fine | Refusal(code: string) | Thrown(error: Error)

  function ReportOf(r: Result<Outcome, Error>): Report {
    match r
    case Ok(Done(_)) => Fine
    case Ok(Refused(code)) => Refusal(code)
    case Err(e) => Thrown(e)
  }

  class PurchasesService {
    const database: D.Database
    const credits: C.CreditsService

    ghost predicate Valid() {
      credits.database == database
    }

    constructor (database: D.Database, credits: C.CreditsService)
      requires credits.database == database
      ensures Valid() && this.database == database
    {
      this.database := database;
      this.credits := credits;
    }

    method RefundQuote(now: int, p: nat) returns (r: Result<Quote, Error>)
      requires Valid()
      ensures r == QuoteFor(database.Contents(), now, p)
    {
      if p !in database.payments {
        return Err(NotFound);
      }
      var payment := database.payments[p];
      if payment.channel != Web {
        return Err(Conflict);
      }
      if AnyActive(database.reservations, now) {
        return Err(Conflict);
      }
      var paymentAmount := if payment.provider == "polar" then payment.netAmount else payment.amount;
      if payment.provider == "polar" && paymentAmount.None? {
        return Err(Conflict);
      }
      var c := credits.GetPurchaseCreditSnapshot(now, p);
      var refundable := if c.locked == 0 then c.remainingPaid else 0;
      var original := c.originalPaid + c.originalPaidPromotion;
      var remaining := refundable + c.remainingPaidPromotion;
      var eligible :=
        payment.purchaseStatus == PurchaseCompleted && c.locked == 0 && original > 0 && remaining * 2 >= original;
      var gross := if eligible && paymentAmount.Some? then paymentAmount.value * remaining / original else 0;
      var fee := gross / 20;
      return Ok(Quote(eligible, refundable, c.remainingPromotion,
                      Monus(c.remainingPromotion, c.remainingPaidPromotion), gross, fee, gross - fee));
    }

    /** The transaction that opens a refund and locks its credits. */
    method PrepareUserRefund(now: int, p: nat, key: string) returns (r: Result<(), Error>)
      requires Valid()
      modifies database`refunds, database`nextId
      ensures var spec := PrepareRefund(old(database.Contents()), now, p, key);
              && database.Contents() == StoreAfter(old(database.Contents()), spec)
              && r == (match spec case Err(e) => Err(e) case Ok(_) => Ok(()))
    {
      if FindRefundByKey(database.refunds, p, key).Some? {
        return Ok(());
      }
      var quote := RefundQuote(now, p);
      if quote.Err? {
        return Err(quote.error);
      }
      var q := quote.value;
      if !q.eligible {
        return Err(Conflict);
      }
      database.refunds := database.refunds + [UserRefund(database.nextId, p, key, q)];
      database.nextId := database.nextId + 1;
      return Ok(());
    }

    method RecordProviderAnswer(i: nat, answer: ProviderAnswer)
      requires Valid()
      requires i < |database.refunds|
      modifies database`refunds
      ensures database.Contents() == RecordAnswer(old(database.Contents()), i, answer)
    {
      database.refunds := database.refunds[i := database.refunds[i].(status := AnswerStatus(answer))];
    }

    method CompleteRefundWithClient(i: nat, event: Option<string>) returns (r: Result<(), Error>)
      requires Valid()
      requires i < |database.refunds|
      modifies database`recoveries, database`refunds, database`money, database`payments
      ensures var spec := CompleteRefund(old(database.Contents()), i, event);
              && database.Contents() == StoreAfter(old(database.Contents()), spec)
              && r == (match spec case Err(e) => Err(e) case Ok(_) => Ok(()))
    {
      var refund := database.refunds[i];
      var p := refund.purchase;
      if p !in database.payments {
        return Err(Conflict);
      }
      if refund.status == Completed {
        return Ok(());
      }
      credits.RecordRefundRecovery(p, refund.recoveryAmount, refund.id);
      database.money := database.money + [Money(p, RefundOut, Some(refund.refundAmount), event)];
      database.payments := database.payments[p := database.payments[p].(status := Refunded)];
      database.payments := database.payments[p := database.payments[p].(purchaseStatus := PurchaseRefunded)];
      database.refunds := database.refunds[i := refund.(status := Completed)];
      return Ok(());
    }

    /** Inserts a provider refund row and, when it recovers anything, its recovery. */
    method InsertRefundRow(row: Refund)
      requires Valid()
      requires row.id == database.nextId
      modifies database`refunds, database`nextId, database`recoveries
      ensures database.CreditTables() == RecoverRow(old(database.CreditTables()), row)
    {
      database.refunds := database.refunds + [row];
      database.nextId := database.nextId + 1;
      if row.recoveryAmount > 0 {
        credits.RecordRefundRecovery(row.purchase, row.recoveryAmount, row.id);
      }
    }

    /** The recovery of a cumulative refund, computed from the ledger. */
    method CumulativeRecovery(now: int, p: nat, event: Event, net: int, refunded: int) returns (row: Refund)
      requires Valid()
      requires net > 0
      ensures row == CumulativeRow(database.Contents(), now, p, event, net, refunded)
    {
      var c := credits.GetPurchaseCreditSnapshot(now, p);
      var previousBase := Max(0, CompletedBase(database.refunds, p));
      var previousPromotion := Max(0, CompletedPaidPromotion(database.refunds, p));
      var targetPaid := (c.originalPaid + c.originalPaidPromotion) * refunded / net;
      var targetBase := c.originalPaid * refunded / net;
      var base := Monus(targetBase, previousBase);
      var promotion := Monus(targetPaid - targetBase, previousPromotion);
      var freePromotion := Monus(c.remainingPromotion, c.remainingPaidPromotion);
      var debt := Monus(base + promotion, c.remainingPaid + c.remainingPaidPromotion);
      var increase := refunded - RefundedMoney(database.money, p);
      row := Refund(database.nextId, p, "provider:" + event.id, Completed,
                    base, promotion + freePromotion, freePromotion, 0, base + promotion + freePromotion,
                    debt, increase, 0, increase);
    }

    method WriteIncrease(now: int, p: nat, event: Event, net: int, refunded: int)
      requires Valid()
      requires p in database.payments && net > 0
      modifies database`refunds, database`nextId, database`recoveries, database`payments, database`money
      ensures database.Contents() == RefundIncrease(old(database.Contents()), now, p, event, net, refunded)
    {
      var payment := database.payments[p];
      var row := CumulativeRecovery(now, p, event, net, refunded);
      InsertRefundRow(row);
      var full := refunded == net;
      var status :=
        if payment.status == Refunded then Refunded else if full then Reversed else PartiallyRefunded;
      database.payments := database.payments[p := payment.(netAmount := Some(net),
                                                           taxAmount := OrElse(event.taxAmount, payment.taxAmount),
                                                           status := status)];
      database.money := database.money + [Money(p, RefundOut, Some(row.refundAmount), Some(event.id))];
      if payment.purchaseStatus != PurchaseRefunded {
        database.payments := database.payments[
          p := database.payments[p].(purchaseStatus := if full then PurchaseReversed else PurchaseCompleted)];
      }
    }

    method ApplyCumulative(now: int, p: nat, event: Event, net: int, refunded: int) returns (report: Report)
      requires Valid()
      requires p in database.payments
      modifies database`refunds, database`nextId, database`recoveries, database`payments, database`money
      ensures var spec := ApplyCumulativeRefund(old(database.Contents()), now, p, event, net, refunded);
              database.Contents() == AfterOutcome(old(database.Contents()), spec) && report == ReportOf(spec)
    {
      var payment := database.payments[p];
      if net <= 0 || refunded <= 0 || refunded > net
         || (payment.netAmount.Some? && payment.netAmount.value != net)
         || (payment.taxAmount.Some? && event.taxAmount.Some? && payment.taxAmount != event.taxAmount)
      {
        return Refusal("refund_amount_mismatch");
      }
      if CurrencyMismatch(payment, event) {
        return Refusal("currency_mismatch");
      }
      var previous := RefundedMoney(database.money, p);
      if refunded < previous {
        return Refusal("refund_amount_mismatch");
      }
      var pending := PendingRefund(database.refunds, p);
      if pending.Some? {
        var amount := database.refunds[pending.value].refundAmount;
        if refunded - previous < amount {
          return Refusal("refund_amount_mismatch");
        }
        var settled := CompleteRefundWithClient(pending.value, Some(event.id));
        if settled.Err? {
          return Thrown(settled.error);
        }
        previous := previous + amount;
      }
      if refunded == previous {
        return Fine;
      }
      WriteIncrease(now, p, event, net, refunded);
      return Fine;
    }

    method ForceReversalOf(now: int, p: nat, event: Event)
      requires Valid()
      requires p in database.payments
      modifies database`refunds, database`nextId, database`recoveries, database`payments, database`money
      ensures database.Contents() == ForceReversal(old(database.Contents()), now, p, event)
    {
      var payment := database.payments[p];
      if payment.status == Reversed || payment.status == Refunded {
        return;
      }
      var c := credits.GetPurchaseCreditSnapshot(now, p);
      var recovery := c.originalPaid + c.originalPromotion;
      var locked := c.remainingPaid + c.remainingPromotion;
      var gross := match OrElse(event.amount, payment.amount) case Some(a) => a case None => 0;
      var row := Refund(database.nextId, p, "provider:" + event.id, Completed,
                        c.originalPaid, c.originalPromotion, 0, locked, recovery,
                        Monus(recovery, locked), gross, 0, gross);
      assert row == ReversalRow(database.Contents(), now, p, event);
      InsertRefundRow(row);
      database.payments := database.payments[p := payment.(status := Reversed, purchaseStatus := PurchaseReversed)];
      database.money := database.money + [Money(p, Chargeback, OrElse(event.amount, payment.amount), Some(event.id))];
    }

    method ApplyPaidEvent(now: int, p: nat, event: Event) returns (report: Report)
      requires Valid()
      requires p in database.payments
      modifies database`grants, database`nextId, database`payments, database`money
      ensures var spec := ApplyPaid(old(database.Contents()), now, p, event);
              database.Contents() == AfterOutcome(old(database.Contents()), spec) && report == ReportOf(spec)
    {
      var payment := database.payments[p];
      if event.productId.Some? && event.productId.value != payment.productId {
        return Refusal("product_mismatch");
      }
      if AmountMismatch(payment, event) {
        return Refusal("amount_mismatch");
      }
      if CurrencyMismatch(payment, event) {
        return Refusal("currency_mismatch");
      }
      if payment.status == PaidUp && event.transactionId.Some? && payment.transactionId.Some?
         && event.transactionId != payment.transactionId
      {
        return Refusal("duplicate_capture");
      }
      if payment.status != PaidUp {
        if !Unpaid(payment.status) {
          return Refusal("invalid_transition");
        }
        var granted := credits.GrantCreditsWithClient(now, PurchaseGrantInput(p, payment.creditAmount));
        if granted.Err? {
          return Thrown(granted.error);
        }
        database.payments := database.payments[
          p := payment.(status := PaidUp,
                        transactionId := OrElse(event.transactionId, payment.transactionId),
                        netAmount := OrElse(event.netAmount, payment.netAmount),
                        taxAmount := OrElse(event.taxAmount, payment.taxAmount))];
        database.money := database.money + [Money(p, CaptureIn, OrElse(event.amount, payment.amount), Some(event.id))];
        database.payments := database.payments[p := database.payments[p].(purchaseStatus := PurchaseCompleted)];
      }
      return Fine;
    }

    method ApplyToPaymentRow(now: int, p: nat, event: Event) returns (report: Report)
      requires Valid()
      requires p in database.payments
      modifies database`grants, database`refunds, database`nextId, database`recoveries, database`payments,
               database`money
      ensures var spec := ApplyToPayment(old(database.Contents()), now, p, event);
              database.Contents() == AfterOutcome(old(database.Contents()), spec) && report == ReportOf(spec)
    {
      match event.eventType
      case PaidEvent => report := ApplyPaidEvent(now, p, event);
      case FailedEvent =>
        var payment := database.payments[p];
        if Unpaid(payment.status) {
          database.payments := database.payments[
            p := payment.(status := PaymentFailed, purchaseStatus := PurchaseFailed)];
        }
        report := Fine;
      case RefundedEvent =>
        if event.netAmount.Some? && event.refundedAmount.Some? {
          report := ApplyCumulative(now, p, event, event.netAmount.value, event.refundedAmount.value);
        } else {
          var pending := PendingRefund(database.refunds, p);
          if pending.Some? {
            var settled := CompleteRefundWithClient(pending.value, Some(event.id));
            report := if settled.Err? then Thrown(settled.error) else Fine;
          } else {
            ForceReversalOf(now, p, event);
            report := Fine;
          }
        }
      case ReversedEvent =>
        ForceReversalOf(now, p, event);
        report := Fine;
      case IgnoredEvent => report := Fine;
    }

    /** One delivery: the inbox row first, then the payment, then the inbox status; an error rolls the row back. */
    method ApplyProviderEvent(now: int, event: Event) returns (r: Result<(bool, Option<string>), Error>)
      requires Valid()
      modifies database`grants, database`refunds, database`nextId, database`recoveries, database`payments,
               database`money, database`inbox
      ensures match ApplyEvent(old(database.Contents()), now, event)
              case Err(e) => r == Err(e) && database.Contents() == old(database.Contents())
              case Ok(receipt) =>
                r == Ok((receipt.replay, receipt.error)) && database.Contents() == receipt.store
    {
      var key := (event.provider, event.id);
      var before := database.inbox;
      if key !in before {
        database.inbox := before[key := Inbox(event.eventType, Received)];
      }
      var row := database.inbox[key];
      if row.eventType != event.eventType {
        database.inbox := before;
        return Err(Conflict);
      }
      if row.status == Processed && event.provider != "polar" {
        return Ok((true, None));
      }
      if event.eventType == IgnoredEvent {
        database.inbox := before[key := Inbox(event.eventType, Processed)];
        return Ok((false, None));
      }
      if event.payment.None? || event.payment.value !in database.payments
         || database.payments[event.payment.value].provider != event.provider
      {
        database.inbox := before;
        return Err(NotFound);
      }
      if row.status == Processed {
        return Ok((true, None));
      }
      database.inbox := before;
      var report := ApplyToPaymentRow(now, event.payment.value, event);
      match report
      case Thrown(e) => return Err(e);
      case Refusal(code) =>
        database.inbox := database.inbox[key := Inbox(event.eventType, Rejected)];
        return Ok((false, Some(code)));
      case Fine =>
        database.inbox := database.inbox[key := Inbox(event.eventType, Processed)];
        return Ok((false, None));
    }
  }
}
