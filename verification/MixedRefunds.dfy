/** Runs that mix provider reports with user refunds of the same purchase: the money that leaves. */
module MixedRefunds {
  import opened Prelude
  import opened Tables
  import opened CreditRules
  import opened PurchaseRules
  import opened PurchaseCredits
  import opened RefundRuns
  import Solvency

  /** What was paid, and what refunds ask back, are amounts of money. */
  ghost predicate NonNegative(s: Store) {
    && (forall q | q in s.payments ::
          && (s.payments[q].amount.Some? ==> s.payments[q].amount.value >= 0)
          && (s.payments[q].netAmount.Some? ==> s.payments[q].netAmount.value >= 0))
    && (forall i | 0 <= i < |s.ledger.refunds| :: s.ledger.refunds[i].refundAmount >= 0)
  }

  /** Any credit step, user refunds of this purchase included. */
  predicate Possible(s: Store, p: nat, a: Activity) {
    p in s.payments && (a.Credits? ==> Solvency.Enabled(Solvency.System(s, a.clock), a.step))
  }

  function PerformAny(s: Store, p: nat, a: Activity): Store
    requires Possible(s, p, a)
  {
    match a
    case Report(at, event, reported, refunded) =>
      (match ApplyCumulativeRefund(s, at, p, event, reported, refunded)
       case Ok(Done(after)) => after
       case _ => s)
    case Credits(clock, step) => Solvency.Next(Solvency.System(s, clock), step).store
  }

  ghost predicate MixedRun(s: Store, p: nat, run: seq<Activity>, z: Store)
    decreases |run|
  {
    if run == [] then s == z
    else Possible(s, p, run[0]) && MixedRun(PerformAny(s, p, run[0]), p, run[1..], z)
  }

  // ----- one step

  lemma QuoteNonNegative(s: Store, now: int, p: nat, q: Quote)
    requires NonNegative(s) && QuoteFor(s, now, p) == Ok(q)
    ensures q.refundAmount >= 0
  {
    var payment := s.payments[p];
    var paid := if payment.provider == "polar" then payment.netAmount else payment.amount;
    if paid.Some? {
      QuoteWithinPayment(s, now, p, q, paid.value);
    }
  }

  lemma RequestStaysNonNegative(s: Store, now: int, p: nat, key: string)
    requires NonNegative(s) && PrepareRefund(s, now, p, key).Ok?
    ensures NonNegative(PrepareRefund(s, now, p, key).value)
    ensures PrepareRefund(s, now, p, key).value.money == s.money
  {
    if FindRefundByKey(s.ledger.refunds, p, key).None? {
      QuoteNonNegative(s, now, p, QuoteFor(s, now, p).value);
    }
  }

  lemma CompleteStaysNonNegative(s: Store, i: nat, event: Option<string>, p: nat)
    requires NonNegative(s) && i < |s.ledger.refunds| && CompleteRefund(s, i, event).Ok?
    ensures NonNegative(CompleteRefund(s, i, event).value)
    ensures RefundedMoney(s.money, p) <= RefundedMoney(CompleteRefund(s, i, event).value.money, p)
  {
    var row := s.ledger.refunds[i];
    RefundedAppended(s.money, Money(row.purchase, RefundOut, Some(row.refundAmount), event), p);
  }

  lemma IncreaseStaysNonNegative(s: Store, now: int, p: nat, event: Event, net: int, refunded: int)
    requires NonNegative(s) && p in s.payments && net > 0 && RefundedMoney(s.money, p) <= refunded
    ensures NonNegative(RefundIncrease(s, now, p, event, net, refunded))
  {
    var row := CumulativeRow(s, now, p, event, net, refunded);
    assert row.refundAmount == refunded - RefundedMoney(s.money, p);
    assert RefundIncrease(s, now, p, event, net, refunded).ledger.refunds == s.ledger.refunds + [row];
  }

  lemma ReportStaysNonNegative(s: Store, now: int, p: nat, event: Event, net: int, refunded: int)
    requires NonNegative(s) && p in s.payments
    requires Accepted(ApplyCumulativeRefund(s, now, p, event, net, refunded))
    ensures NonNegative(ApplyCumulativeRefund(s, now, p, event, net, refunded).value.store)
  {
    AcceptedAmounts(s, now, p, event, net, refunded);
    match PendingRefund(s.ledger.refunds, p)
    case None => IncreaseStaysNonNegative(s, now, p, event, net, refunded);
    case Some(i) =>
      var settled := CompleteRefund(s, i, Some(event.id)).value;
      CompleteStaysNonNegative(s, i, Some(event.id), p);
      SettledMoney(s, i, Some(event.id));
      IncreaseStaysNonNegative(settled, now, p, event, net, refunded);
  }

  /** Steps that neither open nor complete a refund. */
  lemma CreditsStayNonNegative(s: Store, clock: int, step: Solvency.Step)
    requires NonNegative(s) && Solvency.Enabled(Solvency.System(s, clock), step)
    requires !step.DoRequestRefund? && !step.DoCompleteRefund?
    ensures NonNegative(Solvency.Next(Solvency.System(s, clock), step).store)
    ensures Solvency.Next(Solvency.System(s, clock), step).store.money == s.money
  {
    match step
    case DoReserve(action, reference, expiry) => ReservingFrame(s.ledger, clock, action, reference, expiry);
    case DoRelease(reference) => ReservingFrame(s.ledger, clock, ChatReply, reference, Never);
    case DoCapture(reference) => SpendingFrame(s.ledger, clock, 0, reference);
    case DoSpend(amount) => SpendingFrame(s.ledger, clock, amount, "");
    case DoGrant(_) =>
    case DoAnswer(_, _) =>
    case DoTick(_) =>
  }

  lemma ReportGrows(s: Store, p: nat, a: Activity)
    requires NonNegative(s) && p in s.payments && a.Report?
    ensures NonNegative(PerformAny(s, p, a))
    ensures RefundedMoney(s.money, p) <= RefundedMoney(PerformAny(s, p, a).money, p)
  {
    if Accepted(ApplyCumulativeRefund(s, a.at, p, a.event, a.reported, a.refunded)) {
      ReportStaysNonNegative(s, a.at, p, a.event, a.reported, a.refunded);
      MoneyMatchesReport(s, a.at, p, a.event, a.reported, a.refunded);
    }
  }

  lemma RefundGrows(s: Store, p: nat, clock: int, step: Solvency.Step)
    requires NonNegative(s) && Solvency.Enabled(Solvency.System(s, clock), step)
    requires step.DoRequestRefund? || step.DoCompleteRefund?
    ensures var t := Solvency.Next(Solvency.System(s, clock), step).store;
            NonNegative(t) && RefundedMoney(s.money, p) <= RefundedMoney(t.money, p)
  {
    match step
    case DoRequestRefund(q, key) =>
      if PrepareRefund(s, clock, q, key).Ok? {
        RequestStaysNonNegative(s, clock, q, key);
      }
    case DoCompleteRefund(i) =>
      if CompleteRefund(s, i, None).Ok? {
        CompleteStaysNonNegative(s, i, None, p);
      }
  }

  lemma StepGrows(s: Store, p: nat, a: Activity)
    requires NonNegative(s) && Possible(s, p, a)
    ensures NonNegative(PerformAny(s, p, a))
    ensures RefundedMoney(s.money, p) <= RefundedMoney(PerformAny(s, p, a).money, p)
  {
    match a
    case Report(_, _, _, _) => ReportGrows(s, p, a);
    case Credits(clock, step) =>
      if step.DoRequestRefund? || step.DoCompleteRefund? {
        RefundGrows(s, p, clock, step);
      } else {
        CreditsStayNonNegative(s, clock, step);
      }
  }

  // ----- runs

  /** Whatever mixes reports, user refunds and credit activity, the money that has left a purchase never falls. */
  lemma {:induction false} MoneyGrowsOverRuns(s: Store, p: nat, run: seq<Activity>, z: Store)
    requires NonNegative(s) && MixedRun(s, p, run, z)
    ensures NonNegative(z) && RefundedMoney(s.money, p) <= RefundedMoney(z.money, p)
    decreases |run|
  {
    if run != [] {
      StepGrows(s, p, run[0]);
      MoneyGrowsOverRuns(PerformAny(s, p, run[0]), p, run[1..], z);
    }
  }

  /** A report accepted at the end of any such run brings the sum to exactly the reported amount, which is within the
      net amount and covers all that had left before the run. */
  lemma ReportSettlesAnyRun(s: Store, p: nat, run: seq<Activity>, z: Store, now: int, event: Event, net: int,
                            refunded: int)
    requires NonNegative(s) && MixedRun(s, p, run, z) && p in z.payments
    requires Accepted(ApplyCumulativeRefund(z, now, p, event, net, refunded))
    ensures var after := ApplyCumulativeRefund(z, now, p, event, net, refunded).value.store;
            && RefundedMoney(after.money, p) == refunded <= net
            && RefundedMoney(s.money, p) <= RefundedMoney(z.money, p) <= refunded
  {
    MoneyGrowsOverRuns(s, p, run, z);
    MoneyMatchesReport(z, now, p, event, net, refunded);
  }

  // ----- user refunds and the net amount

  /** A user refund that completes outside a report keeps the sum within the net amount exactly when what has left
      before leaves room for it. */
  lemma UserRefundWithinNet(s: Store, i: nat, net: int)
    requires i < |s.ledger.refunds| && s.ledger.refunds[i].status != Completed
    requires s.ledger.refunds[i].purchase in s.payments
    ensures var row := s.ledger.refunds[i];
            CompleteRefund(s, i, None).Ok?
            && (RefundedMoney(CompleteRefund(s, i, None).value.money, row.purchase) <= net
                <==> RefundedMoney(s.money, row.purchase) + row.refundAmount <= net)
  {
    SettledMoney(s, i, None);
  }

  lemma OnePaidGrant(l: Ledger, g: Grant, now: int)
    requires g == Grant(0, Paid, Some(0), false, 9, None, 0, None)
    requires l.grants == [g] && l.usages == [] && RecoveredFor(l, 0) <= 9
    ensures SnapshotOf(l, now, 0)
         == PurchaseSnapshot(9, 0, 0, 9 - RecoveredFor(l, 0), 0, 0, LockedFor(l, 0))
  {
    var lots := Holdings([g], [], now);
    HoldingAt([g], [], now, 0);
    assert lots == [Lot(g, 9)];
    Waterfall.SnapshotAt(lots, PoolsOf(l, false), 0);
    assert lots[..0] == [];
    var left := Lot(g, 9 - RecoveredFor(l, 0));
    assert StateOf(l, now, false).snapshots == [left];
    assert [g][..0] == [];
    assert Originals([g]) == [Lot(g, 9)];
    forall c: Class
      ensures Total([left], c) == if c.Has(g) then left.amount else 0
      ensures Total([Lot(g, 9)], c) == if c.Has(g) then 9 else 0
    {
      TotalOfOne(left, c);
      TotalOfOne(Lot(g, 9), c);
    }
  }

  const PAID := Payment(Web, "polar", PaidUp, PurchaseCompleted, 9, Some(100), Some(100), None, None, "", None)

  const HALF := Event("e", "polar", RefundedEvent, Some(0), None, None, Some(100), None, Some(50), None, None)

  /** A purchase of 9 credits for 100, of which the provider has paid 50 back: 4 credits are recovered. */
  lemma HalfRefunded(g: Grant) returns (s: Store, t: Store)
    requires g == Grant(0, Paid, Some(0), false, 9, None, 0, None)
    ensures NonNegative(s) && 0 in s.payments && s.payments[0].netAmount == Some(100)
    ensures RefundedMoney(s.money, 0) == 0
    ensures ApplyCumulativeRefund(s, 0, 0, HALF, 100, 50) == Ok(Done(t))
    ensures NonNegative(t) && t.ledger.grants == [g] && t.ledger.usages == [] && t.ledger.reservations == []
    ensures |t.ledger.refunds| == 1 && t.ledger.refunds[0].status == Completed && t.ledger.refunds[0].key != "k"
    ensures LockedFor(t.ledger, 0) == 0 && RecoveredFor(t.ledger, 0) == 4
    ensures 0 in t.payments && t.payments[0] == PAID.(status := PartiallyRefunded)
    ensures RefundedMoney(t.money, 0) == 50
  {
    var l := Ledger([g], [], [], [], [], [], [], 1);
    s := Store(l, map[0 := PAID], [], map[]);
    OnePaidGrant(l, g, 0);
    t := RefundIncrease(s, 0, 0, HALF, 100, 50);
    var row := CumulativeRow(s, 0, 0, HALF, 100, 50);
    assert row.creditAmount == 4 && row.promotionAmount == 0 && row.recoveryAmount == 4;
    assert t.ledger.refunds == [row] && [row][..0] == [];
    assert row.key == "provider:e";
    var recovery := Recovery(0, 4, row.id);
    assert t.ledger.recoveries == [recovery] && [recovery][..0] == [];
    IncreaseMoney(s, 0, 0, HALF, 100, 50);
    ReportStaysNonNegative(s, 0, 0, HALF, 100, 50);
  }

  /** The user asks the 5 credits left back, at 55 less a fee of 2, and is paid. */
  lemma RestRefunded(t: Store, g: Grant) returns (u: Store, z: Store)
    requires g == Grant(0, Paid, Some(0), false, 9, None, 0, None)
    requires t.ledger.grants == [g] && t.ledger.usages == [] && t.ledger.reservations == []
    requires |t.ledger.refunds| == 1 && t.ledger.refunds[0].status == Completed && t.ledger.refunds[0].key != "k"
    requires LockedFor(t.ledger, 0) == 0 && RecoveredFor(t.ledger, 0) == 4
    requires 0 in t.payments && t.payments[0] == PAID.(status := PartiallyRefunded)
    ensures 0 in u.payments && PrepareRefund(t, 0, 0, "k") == Ok(u)
    ensures |u.ledger.refunds| == 2 && u.ledger.refunds[1].status == PaymentProcessing
    ensures CompleteRefund(u, 1, None) == Ok(z)
    ensures RefundedMoney(z.money, 0) == RefundedMoney(t.money, 0) + 53
  {
    var quote := Quote(true, 5, 0, 0, 55, 2, 53);
    RestQuote(t, g, quote);
    assert t.ledger.refunds[..0] == [];
    u := t.(ledger := AppendRefund(t.ledger, UserRefund(t.ledger.nextId, 0, "k", quote)));
    SettledMoney(u, 1, None);
    z := CompleteRefund(u, 1, None).value;
  }

  lemma RestQuote(t: Store, g: Grant, quote: Quote)
    requires g == Grant(0, Paid, Some(0), false, 9, None, 0, None)
    requires t.ledger.grants == [g] && t.ledger.usages == [] && t.ledger.reservations == []
    requires LockedFor(t.ledger, 0) == 0 && RecoveredFor(t.ledger, 0) == 4
    requires 0 in t.payments && t.payments[0] == PAID.(status := PartiallyRefunded)
    requires quote == Quote(true, 5, 0, 0, 55, 2, 53)
    ensures QuoteFor(t, 0, 0) == Ok(quote)
  {
    OnePaidGrant(t.ledger, g, 0);
  }

  lemma Prepend(s: Store, p: nat, a: Activity, t: Store, rest: seq<Activity>, z: Store)
    requires Possible(s, p, a) && PerformAny(s, p, a) == t && MixedRun(t, p, rest, z)
    ensures MixedRun(s, p, [a] + rest, z)
  {
    assert ([a] + rest)[1..] == rest;
  }

  lemma CompleteRuns(u: Store, z: Store) returns (run: seq<Activity>)
    requires 0 in u.payments && |u.ledger.refunds| == 2 && u.ledger.refunds[1].status == PaymentProcessing
    requires CompleteRefund(u, 1, None) == Ok(z)
    ensures MixedRun(u, 0, run, z)
  {
    var complete := Credits(0, Solvency.DoCompleteRefund(1));
    assert PerformAny(u, 0, complete) == z;
    Prepend(u, 0, complete, z, [], z);
    run := [complete] + [];
  }

  lemma RequestRuns(t: Store, u: Store, rest: seq<Activity>, z: Store) returns (run: seq<Activity>)
    requires 0 in t.payments && PrepareRefund(t, 0, 0, "k") == Ok(u) && MixedRun(u, 0, rest, z)
    ensures MixedRun(t, 0, run, z)
  {
    var request := Credits(0, Solvency.DoRequestRefund(0, "k"));
    assert PerformAny(t, 0, request) == u;
    Prepend(t, 0, request, u, rest, z);
    run := [request] + rest;
  }

  lemma ReportRuns(s: Store, t: Store, rest: seq<Activity>, z: Store) returns (run: seq<Activity>)
    requires 0 in s.payments && ApplyCumulativeRefund(s, 0, 0, HALF, 100, 50) == Ok(Done(t)) && MixedRun(t, 0, rest, z)
    ensures MixedRun(s, 0, run, z)
  {
    Prepend(s, 0, Report(0, HALF, 100, 50), t, rest, z);
    run := [Report(0, HALF, 100, 50)] + rest;
  }

  /** The net amount does not bound user refunds that follow a partial provider refund: of a payment of 100, 50 is
      reported refunded, and the user may then still refund the 5 credits left, at 53, so that 103 leaves. */
  lemma UserRefundBeyondNet()
    ensures exists s: Store, run: seq<Activity>, z: Store ::
              && NonNegative(s) && 0 in s.payments && s.payments[0].netAmount == Some(100)
              && RefundedMoney(s.money, 0) == 0 && MixedRun(s, 0, run, z)
              && RefundedMoney(z.money, 0) == 103
  {
    var g := Grant(0, Paid, Some(0), false, 9, None, 0, None);
    var s, t := HalfRefunded(g);
    var u, z := RestRefunded(t, g);
    var run := CompleteRuns(u, z);
    run := RequestRuns(t, u, run, z);
    run := ReportRuns(s, t, run, z);
  }
}
