/** A purchase's paid credits are granted once, together with its only capture row. */
module PaymentOnce {
  import opened Prelude
  import opened Tables
  import opened CreditRules
  import opened PurchaseRules
  import Solvency

  datatype Step =
    | Deliver(now: int, event: Event)
    | Open(p: nat, payment: Payment)
    | Claim(p: nat)
    | Return(p: nat)
    | Verify(now: int, p: nat, payment: Payment)
    | Credits(now: int, step: Solvency.Step)

  /** Purchases are opened under new ids, and nobody else grants under a purchase's own reference. */
  predicate Enabled(s: Store, step: Step) {
    match step
    case Deliver(_, _) => true
    case Open(p, _) => p !in s.payments
    case Claim(p) => p in s.payments
    case Return(p) => p in s.payments
    case Verify(_, p, _) => p !in s.payments
    case Credits(now, c) =>
      && Solvency.Enabled(Solvency.System(s, now), c)
      && (c.DoGrant? ==> c.input.reference.None? || c.input.reference.value.External?)
  }

  function Next(s: Store, step: Step): Store
    requires Enabled(s, step)
  {
    match step
    case Deliver(now, event) => (match ApplyEvent(s, now, event) case Err(_) => s case Ok(r) => r.store)
    case Open(p, payment) => OpenCheckout(s, p, payment)
    case Claim(p) => ClaimCheckout(s, p)
    case Return(p) => ReturnCheckout(s, p)
    case Verify(now, p, payment) => (match OpenVerified(s, now, p, payment) case Err(_) => s case Ok(t) => t)
    case Credits(now, c) => Solvency.Next(Solvency.System(s, now), c).store
  }

  ghost predicate Run(s: Store, steps: seq<Step>, z: Store)
    decreases |steps|
  {
    if steps == [] then s == z
    else Enabled(s, steps[0]) && Run(Next(s, steps[0]), steps[1..], z)
  }

  function Captures(rows: seq<Money>, p: nat): nat {
    if rows == [] then 0
    else
      var last := rows[|rows| - 1];
      Captures(rows[..|rows| - 1], p) + if last.purchase == p && last.flow == CaptureIn then 1 else 0
  }

  /** Credits granted under the purchase's own reference, and how often. */
  function Granted(grants: seq<Grant>, p: nat): (nat, nat) {
    if grants == [] then (0, 0)
    else
      var last := grants[|grants| - 1];
      var before := Granted(grants[..|grants| - 1], p);
      if last.reference == Some(PurchaseGrant(p)) then (before.0 + 1, before.1 + last.amount) else before
  }

  /** As many grants as capture rows, at most one; none while the payment is unpaid or absent; and the amount is the
      purchase's. */
  ghost predicate OnceFor(s: Store, p: nat) {
    && Granted(s.ledger.grants, p).0 == Captures(s.money, p) <= 1
    && (Captures(s.money, p) == 1 ==>
          && p in s.payments && !Unpaid(s.payments[p].status)
          && Granted(s.ledger.grants, p).1 == s.payments[p].creditAmount)
    && (Captures(s.money, p) == 0 ==> Granted(s.ledger.grants, p).1 == 0)
  }

  ghost predicate Once(s: Store) {
    forall p: nat :: OnceFor(s, p)
  }

  /** Payments stay, keep their credit amount, and never go back to an unpaid status. */
  ghost predicate Forward(s: Store, t: Store) {
    forall p: nat | p in s.payments ::
      && p in t.payments
      && t.payments[p].creditAmount == s.payments[p].creditAmount
      && (!Unpaid(s.payments[p].status) ==> !Unpaid(t.payments[p].status))
  }

  lemma CapturesAppended(rows: seq<Money>, row: Money, p: nat)
    ensures Captures(rows + [row], p) == Captures(rows, p) + if row.purchase == p && row.flow == CaptureIn then 1 else 0
  {
    assert (rows + [row])[..|rows|] == rows;
  }

  lemma {:induction false} GrantedConcat(a: seq<Grant>, b: seq<Grant>, p: nat)
    ensures Granted(a + b, p) == (Granted(a, p).0 + Granted(b, p).0, Granted(a, p).1 + Granted(b, p).1)
  {
    if b == [] {
      assert a + b == a;
    } else {
      var n := |b| - 1;
      assert (a + b)[..|a + b| - 1] == a + b[..n];
      GrantedConcat(a, b[..n], p);
    }
  }

  lemma GrantedBetween(a: seq<Grant>, g: Grant, b: seq<Grant>, p: nat)
    ensures Granted(a + [g] + b, p)
         == if g.reference == Some(PurchaseGrant(p))
            then (Granted(a + b, p).0 + 1, Granted(a + b, p).1 + g.amount) else Granted(a + b, p)
  {
    GrantedConcat(a, b, p);
    GrantedConcat(a + [g], b, p);
    assert (a + [g])[..|a|] == a;
  }

  lemma GrantedInserted(grants: seq<Grant>, g: Grant, p: nat)
    ensures Granted(Insert(grants, g), p)
         == if g.reference == Some(PurchaseGrant(p))
            then (Granted(grants, p).0 + 1, Granted(grants, p).1 + g.amount) else Granted(grants, p)
  {
    var k := Slot(grants, g);
    assert grants == grants[..k] + grants[k..];
    GrantedBetween(grants[..k], g, grants[k..], p);
  }

  lemma {:induction false} FoundIsGranted(grants: seq<Grant>, p: nat)
    ensures FindGrant(grants, PurchaseGrant(p)).Some? ==> Granted(grants, p).0 > 0
  {
    if grants != [] {
      assert grants == [grants[0]] + grants[1..];
      assert [grants[0]][..0] == [];
      FoundIsGranted(grants[1..], p);
      GrantedConcat([grants[0]], grants[1..], p);
    }
  }

  /** Granting and capturing together, for a purchase that has neither, keeps the account straight. */
  lemma CaptureKeepsOnce(s: Store, now: int, p: nat, payment: Payment, row: Money, t: Store)
    requires Once(s) && Captures(s.money, p) == 0
    requires AddGrant(s.ledger, now, PurchaseGrantInput(p, payment.creditAmount)).Ok?
    requires row.purchase == p && row.flow == CaptureIn && !Unpaid(payment.status)
    requires t.ledger == AddGrant(s.ledger, now, PurchaseGrantInput(p, payment.creditAmount)).value
    requires t.money == s.money + [row] && t.payments == s.payments[p := payment]
    ensures Once(t)
    ensures Captures(t.money, p) == 1 && Granted(t.ledger.grants, p) == (1, payment.creditAmount)
  {
    var input := PurchaseGrantInput(p, payment.creditAmount);
    assert OnceFor(s, p);
    FoundIsGranted(s.ledger.grants, p);
    forall q: nat
      ensures OnceFor(t, q)
      ensures q == p ==> Captures(t.money, q) == 1 && Granted(t.ledger.grants, q) == (1, payment.creditAmount)
    {
      assert OnceFor(s, q);
      CapturesAppended(s.money, row, q);
      GrantedInserted(s.ledger.grants, NewGrant(s.ledger, now, input), q);
    }
  }

  /** Steps that write no capture row and no purchase grant. */
  lemma QuietKeepsOnce(s: Store, t: Store)
    requires Once(s) && Forward(s, t)
    requires forall q: nat :: Captures(t.money, q) == Captures(s.money, q)
    requires forall q: nat :: Granted(t.ledger.grants, q) == Granted(s.ledger.grants, q)
    ensures Once(t)
  {
    forall q: nat
      ensures OnceFor(t, q)
    {
      assert OnceFor(s, q);
    }
  }

  lemma PaidKeepsOnce(s: Store, now: int, p: nat, event: Event)
    requires Once(s) && p in s.payments
    requires ApplyPaid(s, now, p, event).Ok? && ApplyPaid(s, now, p, event).value.Done?
    ensures Once(ApplyPaid(s, now, p, event).value.store)
    ensures Forward(s, ApplyPaid(s, now, p, event).value.store)
    ensures !Unpaid(ApplyPaid(s, now, p, event).value.store.payments[p].status)
    ensures Unpaid(s.payments[p].status) ==>
              && Captures(s.money, p) == 0 && Granted(s.ledger.grants, p).0 == 0
              && Captures(ApplyPaid(s, now, p, event).value.store.money, p) == 1
              && Granted(ApplyPaid(s, now, p, event).value.store.ledger.grants, p) == (1, s.payments[p].creditAmount)
  {
    var t := ApplyPaid(s, now, p, event).value.store;
    assert OnceFor(s, p);
    if Unpaid(s.payments[p].status) {
      CaptureKeepsOnce(s, now, p, t.payments[p], t.money[|s.money|], t);
    }
  }

  lemma CompleteIsQuiet(s: Store, i: nat, event: Option<string>)
    requires i < |s.ledger.refunds| && CompleteRefund(s, i, event).Ok?
    ensures var t := CompleteRefund(s, i, event).value;
            && Forward(s, t)
            && t.ledger.grants == s.ledger.grants
            && forall q: nat :: Captures(t.money, q) == Captures(s.money, q)
  {
    var refund := s.ledger.refunds[i];
    forall q: nat
      ensures Captures(CompleteRefund(s, i, event).value.money, q) == Captures(s.money, q)
    {
      CapturesAppended(s.money, Money(refund.purchase, RefundOut, Some(refund.refundAmount), event), q);
    }
  }

  lemma IncreaseIsQuiet(s: Store, now: int, p: nat, event: Event, net: int, refunded: int)
    requires p in s.payments && net > 0
    ensures var t := RefundIncrease(s, now, p, event, net, refunded);
            && Forward(s, t)
            && t.ledger.grants == s.ledger.grants
            && forall q: nat :: Captures(t.money, q) == Captures(s.money, q)
  {
    var row := CumulativeRow(s, now, p, event, net, refunded);
    forall q: nat
      ensures Captures(RefundIncrease(s, now, p, event, net, refunded).money, q) == Captures(s.money, q)
    {
      CapturesAppended(s.money, Money(p, RefundOut, Some(row.refundAmount), Some(event.id)), q);
    }
  }

  lemma CumulativeIsQuiet(s: Store, now: int, p: nat, event: Event, net: int, refunded: int)
    requires p in s.payments
    requires ApplyCumulativeRefund(s, now, p, event, net, refunded).Ok?
    requires ApplyCumulativeRefund(s, now, p, event, net, refunded).value.Done?
    ensures var t := ApplyCumulativeRefund(s, now, p, event, net, refunded).value.store;
            && Forward(s, t)
            && t.ledger.grants == s.ledger.grants
            && forall q: nat :: Captures(t.money, q) == Captures(s.money, q)
  {
    match PendingRefund(s.ledger.refunds, p)
    case None => IncreaseIsQuiet(s, now, p, event, net, refunded);
    case Some(i) =>
      CompleteIsQuiet(s, i, Some(event.id));
      IncreaseIsQuiet(CompleteRefund(s, i, Some(event.id)).value, now, p, event, net, refunded);
  }

  lemma ReversalIsQuiet(s: Store, now: int, p: nat, event: Event)
    requires p in s.payments
    ensures var t := ForceReversal(s, now, p, event);
            && Forward(s, t)
            && t.ledger.grants == s.ledger.grants
            && forall q: nat :: Captures(t.money, q) == Captures(s.money, q)
  {
    forall q: nat
      ensures Captures(ForceReversal(s, now, p, event).money, q) == Captures(s.money, q)
    {
      CapturesAppended(s.money, Money(p, Chargeback, OrElse(event.amount, s.payments[p].amount), Some(event.id)), q);
    }
  }

  lemma ApplyKeepsOnce(s: Store, now: int, p: nat, event: Event)
    requires Once(s) && p in s.payments
    requires ApplyToPayment(s, now, p, event).Ok? && ApplyToPayment(s, now, p, event).value.Done?
    ensures Once(ApplyToPayment(s, now, p, event).value.store)
    ensures Forward(s, ApplyToPayment(s, now, p, event).value.store)
  {
    var t := ApplyToPayment(s, now, p, event).value.store;
    match event.eventType
    case PaidEvent => PaidKeepsOnce(s, now, p, event);
    case FailedEvent => QuietKeepsOnce(s, t);
    case IgnoredEvent =>
    case ReversedEvent =>
      ReversalIsQuiet(s, now, p, event);
      QuietKeepsOnce(s, t);
    case RefundedEvent =>
      if event.netAmount.Some? && event.refundedAmount.Some? {
        CumulativeIsQuiet(s, now, p, event, event.netAmount.value, event.refundedAmount.value);
      } else if PendingRefund(s.ledger.refunds, p).Some? {
        CompleteIsQuiet(s, PendingRefund(s.ledger.refunds, p).value, Some(event.id));
      } else {
        ReversalIsQuiet(s, now, p, event);
      }
      QuietKeepsOnce(s, t);
  }

  lemma MarkKeepsOnce(s: Store, event: Event, status: InboxStatus)
    requires Once(s)
    ensures Once(Mark(s, event, status)) && Forward(s, Mark(s, event, status))
  {
    QuietKeepsOnce(s, Mark(s, event, status));
  }

  lemma DeliverKeepsOnce(s: Store, now: int, event: Event)
    requires Once(s)
    requires ApplyEvent(s, now, event).Ok?
    ensures Once(ApplyEvent(s, now, event).value.store)
    ensures Forward(s, ApplyEvent(s, now, event).value.store)
  {
    MarkKeepsOnce(s, event, Processed);
    MarkKeepsOnce(s, event, Rejected);
    if event.payment.Some? && event.payment.value in s.payments {
      var p := event.payment.value;
      if ApplyToPayment(s, now, p, event).Ok? && ApplyToPayment(s, now, p, event).value.Done? {
        ApplyKeepsOnce(s, now, p, event);
        MarkKeepsOnce(ApplyToPayment(s, now, p, event).value.store, event, Processed);
      }
    }
  }

  lemma OtherGrantIsQuiet(l: Ledger, now: int, input: GrantInput)
    requires input.reference.None? || input.reference.value.External?
    requires AddGrant(l, now, input).Ok?
    ensures forall q: nat :: Granted(AddGrant(l, now, input).value.grants, q) == Granted(l.grants, q)
  {
    var g := NewGrant(l, now, input);
    forall q: nat
      ensures Granted(Insert(l.grants, g), q) == Granted(l.grants, q)
    {
      GrantedInserted(l.grants, g, q);
    }
  }

  lemma CreditsKeepOnce(s: Store, now: int, c: Solvency.Step)
    requires Once(s) && Enabled(s, Credits(now, c))
    ensures Once(Next(s, Credits(now, c))) && Forward(s, Next(s, Credits(now, c)))
  {
    var t := Next(s, Credits(now, c));
    if c.DoGrant? && AddGrant(s.ledger, now, c.input).Ok? {
      OtherGrantIsQuiet(s.ledger, now, c.input);
    } else if c.DoCompleteRefund? && CompleteRefund(s, c.refund, None).Ok? {
      CompleteIsQuiet(s, c.refund, None);
    }
    QuietKeepsOnce(s, t);
  }

  lemma StepKeepsOnce(s: Store, step: Step)
    requires Once(s) && Enabled(s, step)
    ensures Once(Next(s, step)) && Forward(s, Next(s, step))
  {
    var t := Next(s, step);
    match step
    case Deliver(now, event) => if ApplyEvent(s, now, event).Ok? { DeliverKeepsOnce(s, now, event); }
    case Verify(now, p, payment) =>
      assert OnceFor(s, p);
      if OpenVerified(s, now, p, payment).Ok? {
        CaptureKeepsOnce(s, now, p, t.payments[p], t.money[|s.money|], t);
      }
    case Credits(now, c) => CreditsKeepOnce(s, now, c);
    case Open(p, payment) => assert OnceFor(s, p); QuietKeepsOnce(s, t);
    case Claim(p) => QuietKeepsOnce(s, t);
    case Return(p) => QuietKeepsOnce(s, t);
  }

  /** Over every run: one grant per capture, at most one of each per purchase, for the purchase's amount; and a
      payment that has left the unpaid statuses never re-enters them. */
  lemma {:induction false} GrantedOnceOverRuns(s: Store, steps: seq<Step>, z: Store)
    requires Once(s) && Run(s, steps, z)
    ensures Once(z) && Forward(s, z)
    decreases |steps|
  {
    if steps != [] {
      StepKeepsOnce(s, steps[0]);
      GrantedOnceOverRuns(Next(s, steps[0]), steps[1..], z);
    }
  }

  /** A delivered event that was processed changes nothing when it is delivered again. */
  lemma ProcessedEventIsReplay(s: Store, now: int, event: Event, later: int)
    requires ApplyEvent(s, now, event).Ok?
    requires ApplyEvent(s, now, event).value.error.None?
    requires event.eventType != IgnoredEvent
    ensures var after := ApplyEvent(s, now, event).value.store;
            ApplyEvent(after, later, event) == Ok(Receipt(after, true, None))
  {
    if event.payment.Some? && event.payment.value in s.payments {
      var p := event.payment.value;
      if ApplyToPayment(s, now, p, event).Ok? && ApplyToPayment(s, now, p, event).value.Done? {
        ApplyKeepsProvider(s, now, p, event);
      }
    }
  }

  lemma CumulativeKeepsProvider(s: Store, now: int, p: nat, event: Event, net: int, refunded: int)
    requires p in s.payments
    requires ApplyCumulativeRefund(s, now, p, event, net, refunded).Ok?
    requires ApplyCumulativeRefund(s, now, p, event, net, refunded).value.Done?
    ensures var t := ApplyCumulativeRefund(s, now, p, event, net, refunded).value.store;
            p in t.payments && t.payments[p].provider == s.payments[p].provider && t.inbox == s.inbox
  {
  }

  lemma ApplyKeepsProvider(s: Store, now: int, p: nat, event: Event)
    requires p in s.payments
    requires ApplyToPayment(s, now, p, event).Ok? && ApplyToPayment(s, now, p, event).value.Done?
    ensures var t := ApplyToPayment(s, now, p, event).value.store;
            p in t.payments && t.payments[p].provider == s.payments[p].provider && t.inbox == s.inbox
  {
    if event.eventType == RefundedEvent && event.netAmount.Some? && event.refundedAmount.Some? {
      CumulativeKeepsProvider(s, now, p, event, event.netAmount.value, event.refundedAmount.value);
    }
  }
}
