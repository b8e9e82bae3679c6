/** What the purchase service does to the payment and credit tables. */
module PurchaseRules {
  import opened Prelude
  import opened Tables
  import opened CreditRules

  // ----- user refunds

  datatype Quote = Quote(
    eligible: bool,
    refundableCredits: nat,
    promotionCredits: nat,
    freePromotionCredits: nat,
    grossAmount: int,
    feeAmount: int,
    refundAmount: int)

  predicate AnyActive(rows: seq<Reservation>, now: int) {
    exists i | 0 <= i < |rows| :: Active(rows[i], now)
  }

  function QuoteFor(s: Store, now: int, p: nat): Result<Quote, Error> {
    if p !in s.payments then Err(NotFound)
    else
      var payment := s.payments[p];
      var paymentAmount := if payment.provider == "polar" then payment.netAmount else payment.amount;
      if payment.channel != Web then Err(Conflict)
      else if AnyActive(s.ledger.reservations, now) then Err(Conflict)
      else if payment.provider == "polar" && paymentAmount == None then Err(Conflict)
      else
        var c := SnapshotOf(s.ledger, now, p);
        var refundable := if c.locked == 0 then c.remainingPaid else 0;
        var original := c.originalPaid + c.originalPaidPromotion;
        var remaining := refundable + c.remainingPaidPromotion;
        var eligible :=
          payment.purchaseStatus == PurchaseCompleted && c.locked == 0 && original > 0 && remaining * 2 >= original;
        var gross := if eligible && paymentAmount.Some? then paymentAmount.value * remaining / original else 0;
        var fee := gross / 20;
        Ok(Quote(eligible, refundable, c.remainingPromotion,
                 Monus(c.remainingPromotion, c.remainingPaidPromotion), gross, fee, gross - fee))
  }

  function FindRefundByKey(refunds: seq<Refund>, p: nat, key: string): (found: Option<nat>)
    ensures found.Some? ==>
              found.value < |refunds| && refunds[found.value].purchase == p && refunds[found.value].key == key
    ensures found.None? ==> forall i | 0 <= i < |refunds| :: !(refunds[i].purchase == p && refunds[i].key == key)
  {
    if refunds == [] then None
    else if refunds[|refunds| - 1].purchase == p && refunds[|refunds| - 1].key == key then Some(|refunds| - 1)
    else FindRefundByKey(refunds[..|refunds| - 1], p, key)
  }

  function UserRefund(id: nat, p: nat, key: string, q: Quote): Refund {
    Refund(id, p, key, PaymentProcessing,
           q.refundableCredits, q.promotionCredits, q.freePromotionCredits,
           q.refundableCredits + q.promotionCredits,
           q.refundableCredits + q.promotionCredits,
           0, q.grossAmount, q.feeAmount, q.refundAmount)
  }

  function AppendRefund(l: Ledger, refund: Refund): Ledger {
    l.(refunds := l.refunds + [refund], nextId := l.nextId + 1)
  }

  /** The first transaction of a refund request: an existing key is returned as it is. */
  function PrepareRefund(s: Store, now: int, p: nat, key: string): Result<Store, Error> {
    if FindRefundByKey(s.ledger.refunds, p, key).Some? then Ok(s)
    else
      match QuoteFor(s, now, p)
      case Err(e) => Err(e)
      case Ok(q) =>
        if !q.eligible then Err(Conflict)
        else Ok(s.(ledger := AppendRefund(s.ledger, UserRefund(s.ledger.nextId, p, key, q))))
  }

  datatype ProviderAnswer = Succeeds | Processes | Fails | Cancels

  function AnswerStatus(answer: ProviderAnswer): RefundStatus {
    match answer
    case Succeeds => PaymentSucceeded
    case Processes => PaymentProcessing
    case Fails => Failed
    case Cancels => Canceled
  }

  /** The status written after the provider has answered. */
  function RecordAnswer(s: Store, i: nat, answer: ProviderAnswer): Store
    requires i < |s.ledger.refunds|
  {
    var row := s.ledger.refunds[i].(status := AnswerStatus(answer));
    s.(ledger := s.ledger.(refunds := s.ledger.refunds[i := row]))
  }

  /** Recovers the locked credits, writes the refund to the money ledger and closes payment and purchase. */
  function CompleteRefund(s: Store, i: nat, event: Option<string>): Result<Store, Error>
    requires i < |s.ledger.refunds|
  {
    var refund := s.ledger.refunds[i];
    if refund.purchase !in s.payments then Err(Conflict)
    else if refund.status == Completed then Ok(s)
    else
      var l := Recover(s.ledger, refund.purchase, refund.recoveryAmount, refund.id);
      var payment := s.payments[refund.purchase];
      Ok(s.(ledger := l.(refunds := l.refunds[i := refund.(status := Completed)]),
            money := s.money + [Money(refund.purchase, RefundOut, Some(refund.refundAmount), event)],
            payments := s.payments[
              refund.purchase := payment.(status := Refunded, purchaseStatus := PurchaseRefunded)]))
  }

  // ----- provider events

  datatype Event = Event(
    id: string,
    provider: string,
    eventType: EventType,
    payment: Option<nat>,
    transactionId: Option<string>,
    productId: Option<string>,
    netAmount: Option<int>,
    taxAmount: Option<int>,
    refundedAmount: Option<int>,
    amount: Option<int>,
    currency: Option<string>)

  function OrElse<T>(a: Option<T>, b: Option<T>): Option<T> {
    if a.Some? then a else b
  }

  /** Money that has left for a purchase: refunds and chargebacks. */
  function RefundedMoney(rows: seq<Money>, p: nat): int {
    if rows == [] then 0
    else
      var last := rows[|rows| - 1];
      RefundedMoney(rows[..|rows| - 1], p)
      + if last.purchase == p && last.flow in {RefundOut, Chargeback} && last.amount.Some? then last.amount.value else 0
  }

  /** The oldest refund of the purchase that waits for the provider. */
  function PendingRefund(refunds: seq<Refund>, p: nat): (found: Option<nat>)
    ensures found.Some? ==>
              && found.value < |refunds|
              && refunds[found.value].purchase == p
              && refunds[found.value].status in {PaymentProcessing, PaymentSucceeded}
              && forall i | 0 <= i < found.value ::
                   !(refunds[i].purchase == p && refunds[i].status in {PaymentProcessing, PaymentSucceeded})
    ensures found.None? ==>
              forall i | 0 <= i < |refunds| ::
                !(refunds[i].purchase == p && refunds[i].status in {PaymentProcessing, PaymentSucceeded})
  {
    if refunds == [] then None
    else if refunds[0].purchase == p && refunds[0].status in {PaymentProcessing, PaymentSucceeded} then Some(0)
    else
      match PendingRefund(refunds[1..], p)
      case None => None
      case Some(i) => Some(i + 1)
  }

  function CompletedBase(refunds: seq<Refund>, p: nat): nat {
    if refunds == [] then 0
    else
      var last := refunds[|refunds| - 1];
      CompletedBase(refunds[..|refunds| - 1], p)
      + if last.purchase == p && last.status == Completed then last.creditAmount else 0
  }

  /** Promotion credits of completed refunds, the free ones not counted. */
  function CompletedPaidPromotion(refunds: seq<Refund>, p: nat): int {
    if refunds == [] then 0
    else
      var last := refunds[|refunds| - 1];
      CompletedPaidPromotion(refunds[..|refunds| - 1], p)
      + if last.purchase == p && last.status == Completed
        then last.promotionAmount - last.freePromotionAmount else 0
  }

  datatype Outcome = Done(store: Store) | Refused(code: string)

  predicate CurrencyMismatch(payment: Payment, event: Event) {
    event.currency.Some? && payment.currency != event.currency
  }

  /** Recovery targets of a cumulative refund of `refunded` out of `net`. */
  function BaseTarget(base: nat, refunded: int, net: int): int
    requires net > 0
  {
    base * refunded / net
  }

  function PromotionTarget(base: nat, promotion: nat, refunded: int, net: int): int
    requires net > 0
  {
    (base + promotion) * refunded / net - base * refunded / net
  }

  /** The refund row of a provider's cumulative refund. */
  function CumulativeRow(s: Store, now: int, p: nat, event: Event, net: int, refunded: int): Refund
    requires net > 0
  {
    var c := SnapshotOf(s.ledger, now, p);
    var base := Monus(BaseTarget(c.originalPaid, refunded, net), CompletedBase(s.ledger.refunds, p));
    var promotion := Monus(PromotionTarget(c.originalPaid, c.originalPaidPromotion, refunded, net),
                           Max(0, CompletedPaidPromotion(s.ledger.refunds, p)));
    var freePromotion := Monus(c.remainingPromotion, c.remainingPaidPromotion);
    var increase := refunded - RefundedMoney(s.money, p);
    Refund(s.ledger.nextId, p, "provider:" + event.id, Completed,
           base, promotion + freePromotion, freePromotion, 0, base + promotion + freePromotion,
           Monus(base + promotion, c.remainingPaid + c.remainingPaidPromotion),
           increase, 0, increase)
  }

  function RecoverRow(l: Ledger, row: Refund): Ledger {
    var added := AppendRefund(l, row);
    if row.recoveryAmount > 0 then Recover(added, row.purchase, row.recoveryAmount, row.id) else added
  }

  /** The part of a cumulative refund that goes beyond what is already on the money ledger. */
  function RefundIncrease(s: Store, now: int, p: nat, event: Event, net: int, refunded: int): Store
    requires p in s.payments && net > 0
  {
    var row := CumulativeRow(s, now, p, event, net, refunded);
    var payment := s.payments[p];
    var full := refunded == net;
    var status :=
      if payment.status == Refunded then Refunded else if full then Reversed else PartiallyRefunded;
    var purchaseStatus :=
      if payment.purchaseStatus == PurchaseRefunded then PurchaseRefunded
      else if full then PurchaseReversed else PurchaseCompleted;
    s.(ledger := RecoverRow(s.ledger, row),
       payments := s.payments[p := payment.(netAmount := Some(net),
                                            taxAmount := OrElse(event.taxAmount, payment.taxAmount),
                                            status := status,
                                            purchaseStatus := purchaseStatus)],
       money := s.money + [Money(p, RefundOut, Some(row.refundAmount), Some(event.id))])
  }

  function ApplyCumulativeRefund(s: Store, now: int, p: nat, event: Event, net: int, refunded: int)
    : Result<Outcome, Error>
    requires p in s.payments
  {
    var payment := s.payments[p];
    if net <= 0 || refunded <= 0 || refunded > net
       || (payment.netAmount.Some? && payment.netAmount.value != net)
       || (payment.taxAmount.Some? && event.taxAmount.Some? && payment.taxAmount != event.taxAmount)
    then Ok(Refused("refund_amount_mismatch"))
    else if CurrencyMismatch(payment, event) then Ok(Refused("currency_mismatch"))
    else
      var previous := RefundedMoney(s.money, p);
      if refunded < previous then Ok(Refused("refund_amount_mismatch"))
      else
        match PendingRefund(s.ledger.refunds, p)
        case None =>
          Ok(Done(if refunded == previous then s else RefundIncrease(s, now, p, event, net, refunded)))
        case Some(i) =>
          if refunded - previous < s.ledger.refunds[i].refundAmount then Ok(Refused("refund_amount_mismatch"))
          else
            match CompleteRefund(s, i, Some(event.id))
            case Err(e) => Err(e)
            case Ok(settled) =>
              if refunded == previous + s.ledger.refunds[i].refundAmount then Ok(Done(settled))
              else Ok(Done(RefundIncrease(settled, now, p, event, net, refunded)))
  }

  /** The refund row of a forced reversal: everything that was ever granted for the purchase. */
  function ReversalRow(s: Store, now: int, p: nat, event: Event): Refund
    requires p in s.payments
  {
    var c := SnapshotOf(s.ledger, now, p);
    var recovery := c.originalPaid + c.originalPromotion;
    var locked := c.remainingPaid + c.remainingPromotion;
    var gross := match OrElse(event.amount, s.payments[p].amount) case Some(a) => a case None => 0;
    Refund(s.ledger.nextId, p, "provider:" + event.id, Completed,
           c.originalPaid, c.originalPromotion, 0, locked, recovery, Monus(recovery, locked), gross, 0, gross)
  }

  function ForceReversal(s: Store, now: int, p: nat, event: Event): Store
    requires p in s.payments
  {
    var payment := s.payments[p];
    if payment.status in {Reversed, Refunded} then s
    else
      s.(ledger := RecoverRow(s.ledger, ReversalRow(s, now, p, event)),
         payments := s.payments[p := payment.(status := Reversed, purchaseStatus := PurchaseReversed)],
         money := s.money + [Money(p, Chargeback, OrElse(event.amount, payment.amount), Some(event.id))])
  }

  predicate Unpaid(status: PaymentStatus) {
    status in {Pending, Verified, Processing}
  }

  predicate AmountMismatch(payment: Payment, event: Event) {
    || (event.netAmount.Some? && event.taxAmount.Some? && event.amount.Some?
        && event.amount.value != event.netAmount.value + event.taxAmount.value)
    || ((event.netAmount.Some? || event.amount.Some?)
        && (payment.amount.None? || (payment.amount != event.netAmount && payment.amount != event.amount)))
  }

  function PurchaseGrantInput(p: nat, creditAmount: int): GrantInput {
    GrantInput(creditAmount, Paid, Some(p), false, Some(PurchaseGrant(p)), None)
  }

  /** A paid event: the grant, the capture row and the statuses are written together. */
  function ApplyPaid(s: Store, now: int, p: nat, event: Event): Result<Outcome, Error>
    requires p in s.payments
  {
    var payment := s.payments[p];
    if event.productId.Some? && event.productId.value != payment.productId then Ok(Refused("product_mismatch"))
    else if AmountMismatch(payment, event) then Ok(Refused("amount_mismatch"))
    else if CurrencyMismatch(payment, event) then Ok(Refused("currency_mismatch"))
    else if payment.status == PaidUp && event.transactionId.Some? && payment.transactionId.Some?
            && event.transactionId != payment.transactionId
    then Ok(Refused("duplicate_capture"))
    else if payment.status == PaidUp then Ok(Done(s))
    else if !Unpaid(payment.status) then Ok(Refused("invalid_transition"))
    else
      match AddGrant(s.ledger, now, PurchaseGrantInput(p, payment.creditAmount))
      case Err(e) => Err(e)
      case Ok(l) =>
        var paid := payment.(status := PaidUp,
                             purchaseStatus := PurchaseCompleted,
                             transactionId := OrElse(event.transactionId, payment.transactionId),
                             netAmount := OrElse(event.netAmount, payment.netAmount),
                             taxAmount := OrElse(event.taxAmount, payment.taxAmount));
        Ok(Done(s.(ledger := l,
                   payments := s.payments[p := paid],
                   money := s.money + [Money(p, CaptureIn, OrElse(event.amount, payment.amount), Some(event.id))])))
  }

  function ApplyFailed(s: Store, p: nat): Store
    requires p in s.payments
  {
    var payment := s.payments[p];
    if Unpaid(payment.status)
    then s.(payments := s.payments[p := payment.(status := PaymentFailed, purchaseStatus := PurchaseFailed)])
    else s
  }

  function ApplyToPayment(s: Store, now: int, p: nat, event: Event): Result<Outcome, Error>
    requires p in s.payments
  {
    match event.eventType
    case PaidEvent => ApplyPaid(s, now, p, event)
    case FailedEvent => Ok(Done(ApplyFailed(s, p)))
    case RefundedEvent =>
      if event.netAmount.Some? && event.refundedAmount.Some? then
        ApplyCumulativeRefund(s, now, p, event, event.netAmount.value, event.refundedAmount.value)
      else (
        match PendingRefund(s.ledger.refunds, p)
        case Some(i) =>
          (match CompleteRefund(s, i, Some(event.id))
           case Err(e) => Err(e)
           case Ok(settled) => Ok(Done(settled)))
        case None => Ok(Done(ForceReversal(s, now, p, event))))
    case ReversedEvent => Ok(Done(ForceReversal(s, now, p, event)))
    case IgnoredEvent => Ok(Done(s))
  }

  function Mark(s: Store, event: Event, status: InboxStatus): Store {
    s.(inbox := s.inbox[(event.provider, event.id) := Inbox(event.eventType, status)])
  }

  datatype Receipt = Receipt(store: Store, replay: bool, error: Option<string>)

  /** One delivery of a provider event, in one transaction; an error leaves the store as it was. */
  function ApplyEvent(s: Store, now: int, event: Event): Result<Receipt, Error> {
    var key := (event.provider, event.id);
    if key in s.inbox && s.inbox[key].eventType != event.eventType then Err(Conflict)
    else
      var processed := key in s.inbox && s.inbox[key].status == Processed;
      if processed && event.provider != "polar" then Ok(Receipt(s, true, None))
      else if event.eventType == IgnoredEvent then Ok(Receipt(Mark(s, event, Processed), false, None))
      else if event.payment.None? || event.payment.value !in s.payments
              || s.payments[event.payment.value].provider != event.provider then Err(NotFound)
      else if processed then Ok(Receipt(s, true, None))
      else
        match ApplyToPayment(s, now, event.payment.value, event)
        case Err(e) => Err(e)
        case Ok(Refused(code)) => Ok(Receipt(Mark(s, event, Rejected), false, Some(code)))
        case Ok(Done(after)) => Ok(Receipt(Mark(after, event, Processed), false, None))
  }

  // ----- opening payments

  /** Checkout preparation: the payment row starts pending. */
  function OpenCheckout(s: Store, p: nat, payment: Payment): Store {
    s.(payments := s.payments[p := payment.(channel := Web, status := Pending, purchaseStatus := PurchasePending)])
  }

  /** Claiming a checkout before asking the provider for it. */
  function ClaimCheckout(s: Store, p: nat): Store
    requires p in s.payments
  {
    if s.payments[p].status == Pending
    then s.(payments := s.payments[p := s.payments[p].(status := Processing)]) else s
  }

  /** Handing a claimed checkout back once the provider has answered. */
  function ReturnCheckout(s: Store, p: nat): Store
    requires p in s.payments
  {
    if s.payments[p].status == Processing
    then s.(payments := s.payments[p := s.payments[p].(status := Pending)]) else s
  }

  /** A verified store purchase: payment, capture and grant in one transaction. */
  function OpenVerified(s: Store, now: int, p: nat, payment: Payment): Result<Store, Error> {
    match AddGrant(s.ledger, now, PurchaseGrantInput(p, payment.creditAmount))
    case Err(e) => Err(e)
    case Ok(l) =>
      Ok(s.(ledger := l,
            payments := s.payments[p := payment.(status := PaidUp, purchaseStatus := PurchaseCompleted)],
            money := s.money + [Money(p, CaptureIn, payment.amount, None)]))
  }
}
