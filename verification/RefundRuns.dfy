/** Runs of cumulative provider refunds: the floor arithmetic, its ratchet, and the money ledger. */
module RefundRuns {
  import opened Prelude
  import opened Tables
  import opened CreditRules
  import opened PurchaseRules
  import opened PurchaseCredits
  import Solvency

  // ----- floor arithmetic

  lemma LessTimes(a: int, b: int, n: int)
    requires n > 0
    ensures a < b ==> n * a + n <= n * b
  {
    if a < b {
      assert n * (a + 1) <= n * b;
    }
  }

  lemma DivIs(a: int, n: int, q: int)
    requires n > 0 && n * q <= a < n * (q + 1)
    ensures a / n == q
  {
    assert n * (a / n) + a % n == a;
    LessTimes(a / n, q, n);
    LessTimes(q, a / n, n);
  }

  lemma DivBounds(a: int, n: int)
    requires n > 0
    ensures n * (a / n) <= a < n * (a / n + 1)
  {
    assert n * (a / n) + a % n == a;
    assert n * (a / n + 1) == n * (a / n) + n;
  }

  lemma DivMonotone(a: int, b: int, n: int)
    requires n > 0 && a <= b
    ensures a / n <= b / n
  {
    DivBounds(a, n);
    DivBounds(b, n);
    LessTimes(b / n, a / n, n);
  }

  /** A floor of a sum is the sum of the floors or one more. */
  lemma DivSum(a: int, b: int, n: int)
    requires n > 0
    ensures a / n + b / n <= (a + b) / n <= a / n + b / n + 1
  {
    DivBounds(a, n);
    DivBounds(b, n);
    var q := a / n + b / n;
    assert n * q == n * (a / n) + n * (b / n);
    assert n * (q + 1) == n * q + n && n * (q + 2) == n * q + n + n;
    assert n * (a / n + 1) == n * (a / n) + n && n * (b / n + 1) == n * (b / n) + n;
    if a + b < n * (q + 1) {
      DivIs(a + b, n, q);
    } else {
      DivIs(a + b, n, q + 1);
    }
  }

  /** A whole part adds itself to a floor. */
  lemma DivWhole(a: int, part: nat, n: int)
    requires n > 0
    ensures (a + part * n) / n == a / n + part
  {
    DivBounds(a, n);
    assert n * (a / n + part) == n * (a / n) + part * n;
    assert n * (a / n + part + 1) == n * (a / n + 1) + part * n;
    DivIs(a + part * n, n, a / n + part);
  }

  /** The promotion target is within one above the promotion's own share, and never more than the promotion. */
  lemma PromotionTargetBounds(base: nat, promotion: nat, x: int, net: int)
    requires 0 <= x <= net && net > 0
    ensures promotion * x / net <= PromotionTarget(base, promotion, x, net) <= promotion * x / net + 1
    ensures 0 <= PromotionTarget(base, promotion, x, net) <= promotion
    ensures x == net ==> PromotionTarget(base, promotion, x, net) == promotion && BaseTarget(base, x, net) == base
  {
    assert (base + promotion) * x == base * x + promotion * x;
    DivSum(base * x, promotion * x, net);
    assert 0 <= promotion * x <= promotion * net;
    DivMonotone(0, promotion * x, net);
    DivMonotone(base * x + promotion * x, base * x + promotion * net, net);
    DivWhole(base * x, promotion, net);
    if x == net {
      DivWhole(0, base, net);
    }
  }

  /** The promotion target can fall while the refund grows, so the maximum with earlier recoveries matters. */
  lemma PromotionTargetFalls()
    ensures PromotionTarget(9, 2, 2, 20) == 1 && PromotionTarget(9, 2, 3, 20) == 0
  {
  }

  // ----- the ratchet

  /** Base and paid promotion credits that completed refunds of a purchase have recovered, against the refunded
      money `x` out of `net`. */
  ghost predicate Ratchet(base: nat, promotion: nat, x: int, net: int, recoveredBase: int, recoveredPromotion: int) {
    && net > 0 && 0 <= x <= net
    && recoveredBase == BaseTarget(base, x, net)
    && PromotionTarget(base, promotion, x, net) <= recoveredPromotion
    && 0 <= recoveredPromotion <= promotion
    && recoveredPromotion <= promotion * x / net + 1
  }

  /** What the ratchet means for the totals: exact for base, at most one above for all paid credits, never more
      than was granted, and everything once the whole amount is refunded. */
  lemma RatchetMeans(base: nat, promotion: nat, x: int, net: int, recoveredBase: int, recoveredPromotion: int)
    requires Ratchet(base, promotion, x, net, recoveredBase, recoveredPromotion)
    ensures var share := (base + promotion) * x / net;
            && recoveredBase == base * x / net
            && (recoveredBase + recoveredPromotion == share || recoveredBase + recoveredPromotion == share + 1)
            && recoveredBase + recoveredPromotion <= base + promotion
            && (x == net ==> recoveredBase == base && recoveredPromotion == promotion)
  {
    assert (base + promotion) * x == base * x + promotion * x;
    DivSum(base * x, promotion * x, net);
    PromotionTargetBounds(base, promotion, x, net);
    assert base * x <= base * net;
    DivMonotone(base * x, base * net, net);
    DivIs(base * net, net, base);
  }

  lemma RatchetStarts(base: nat, promotion: nat, net: int)
    requires net > 0
    ensures Ratchet(base, promotion, 0, net, 0, 0)
  {
    assert base * 0 == 0 && promotion * 0 == 0 && (base + promotion) * 0 == 0;
  }

  lemma RatchetAdvances(base: nat, promotion: nat, x: int, y: int, net: int, recoveredBase: nat,
                        recoveredPromotion: nat)
    requires Ratchet(base, promotion, x, net, recoveredBase, recoveredPromotion)
    requires x <= y <= net
    ensures Ratchet(base, promotion, y, net,
                    recoveredBase + Monus(BaseTarget(base, y, net), recoveredBase),
                    recoveredPromotion + Monus(PromotionTarget(base, promotion, y, net), recoveredPromotion))
  {
    SharesGrow(base, x, y, net);
    SharesGrow(promotion, x, y, net);
    PromotionTargetBounds(base, promotion, y, net);
    RaisedTo(recoveredBase, BaseTarget(base, y, net));
    RaisedTo(recoveredPromotion, PromotionTarget(base, promotion, y, net));
  }

  lemma SharesGrow(part: nat, x: int, y: int, net: int)
    requires 0 <= x <= y && net > 0
    ensures part * x / net <= part * y / net
  {
    assert part * x <= part * y;
    DivMonotone(part * x, part * y, net);
  }

  lemma RaisedTo(recovered: nat, target: int)
    ensures recovered + Monus(target, recovered) == Max(recovered, target)
  {
  }

  /** The extra credit is real: refunding 2 and then 3 of 20 on 9 base and 2 promotion credits recovers 2, not 1. */
  lemma OneMoreHappens()
    ensures Ratchet(9, 2, 3, 20,
                    BaseTarget(9, 3, 20), Max(PromotionTarget(9, 2, 2, 20), PromotionTarget(9, 2, 3, 20)))
    ensures BaseTarget(9, 3, 20) + Max(PromotionTarget(9, 2, 2, 20), PromotionTarget(9, 2, 3, 20))
         == (9 + 2) * 3 / 20 + 1
  {
  }

  // ----- the money ledger

  lemma RefundedAppended(rows: seq<Money>, row: Money, p: nat)
    ensures RefundedMoney(rows + [row], p)
         == RefundedMoney(rows, p)
          + if row.purchase == p && row.flow in {RefundOut, Chargeback} && row.amount.Some? then row.amount.value else 0
  {
    assert (rows + [row])[..|rows|] == rows;
  }

  lemma IncreaseMoney(s: Store, now: int, p: nat, event: Event, net: int, refunded: int)
    requires p in s.payments && net > 0
    ensures var t := RefundIncrease(s, now, p, event, net, refunded);
            RefundedMoney(t.money, p) == refunded && p in t.payments && t.payments[p].netAmount == Some(net)
  {
    RefundedAppended(s.money, Money(p, RefundOut, Some(refunded - RefundedMoney(s.money, p)), Some(event.id)), p);
  }

  lemma SettledMoney(s: Store, i: nat, event: Option<string>)
    requires i < |s.ledger.refunds| && s.ledger.refunds[i].status != Completed
    requires s.ledger.refunds[i].purchase in s.payments
    ensures var p := s.ledger.refunds[i].purchase;
            CompleteRefund(s, i, event).Ok?
            && var t := CompleteRefund(s, i, event).value;
               && RefundedMoney(t.money, p) == RefundedMoney(s.money, p) + s.ledger.refunds[i].refundAmount
               && p in t.payments && t.payments[p].netAmount == s.payments[p].netAmount
  {
    var row := s.ledger.refunds[i];
    RefundedAppended(s.money, Money(row.purchase, RefundOut, Some(row.refundAmount), event), row.purchase);
  }

  ghost predicate Accepted(r: Result<Outcome, Error>) {
    r.Ok? && r.value.Done?
  }

  /** The money after an accepted report, and what its payment records of the net amount. */
  ghost predicate MoneyIs(t: Store, p: nat, net: int, refunded: int) {
    RefundedMoney(t.money, p) == refunded && p in t.payments
    && (t.payments[p].netAmount.None? || t.payments[p].netAmount == Some(net))
  }

  /** Acceptance means the amounts were plausible. */
  lemma AcceptedAmounts(s: Store, now: int, p: nat, event: Event, net: int, refunded: int)
    requires p in s.payments
    requires Accepted(ApplyCumulativeRefund(s, now, p, event, net, refunded))
    ensures net > 0 && RefundedMoney(s.money, p) <= refunded <= net
    ensures s.payments[p].netAmount.None? || s.payments[p].netAmount == Some(net)
  {
  }

  lemma MoneyWithoutPending(s: Store, now: int, p: nat, event: Event, net: int, refunded: int)
    requires p in s.payments && PendingRefund(s.ledger.refunds, p).None?
    requires Accepted(ApplyCumulativeRefund(s, now, p, event, net, refunded))
    ensures MoneyIs(ApplyCumulativeRefund(s, now, p, event, net, refunded).value.store, p, net, refunded)
  {
    AcceptedAmounts(s, now, p, event, net, refunded);
    IncreaseMoney(s, now, p, event, net, refunded);
  }

  lemma MoneyWithPending(s: Store, now: int, p: nat, event: Event, net: int, refunded: int)
    requires p in s.payments && PendingRefund(s.ledger.refunds, p).Some?
    requires Accepted(ApplyCumulativeRefund(s, now, p, event, net, refunded))
    ensures MoneyIs(ApplyCumulativeRefund(s, now, p, event, net, refunded).value.store, p, net, refunded)
  {
    var i := PendingRefund(s.ledger.refunds, p).value;
    AcceptedAmounts(s, now, p, event, net, refunded);
    SettledMoney(s, i, Some(event.id));
    IncreaseMoney(CompleteRefund(s, i, Some(event.id)).value, now, p, event, net, refunded);
  }

  /** After an accepted cumulative refund, with or without a pending user refund settled inside it, refunds and
      chargebacks sum to exactly the reported amount; the sum has not fallen and stays within the net amount. */
  lemma MoneyMatchesReport(s: Store, now: int, p: nat, event: Event, net: int, refunded: int)
    requires p in s.payments
    requires Accepted(ApplyCumulativeRefund(s, now, p, event, net, refunded))
    ensures var after := ApplyCumulativeRefund(s, now, p, event, net, refunded).value.store;
            && RefundedMoney(s.money, p) <= RefundedMoney(after.money, p) == refunded <= net
            && MoneyIs(after, p, net, refunded)
            && (s.payments[p].netAmount.None? || s.payments[p].netAmount == Some(net))
  {
    AcceptedAmounts(s, now, p, event, net, refunded);
    if PendingRefund(s.ledger.refunds, p).None? {
      MoneyWithoutPending(s, now, p, event, net, refunded);
    } else {
      MoneyWithPending(s, now, p, event, net, refunded);
    }
  }

  /** Reporting the same cumulative amount again, under any event id, adds no money; with no user refund waiting it
      changes nothing at all. */
  lemma RedeliveryAddsNothing(s: Store, now: int, p: nat, event: Event, net: int, refunded: int, later: int,
                              again: Event)
    requires p in s.payments
    requires Accepted(ApplyCumulativeRefund(s, now, p, event, net, refunded))
    ensures var after := ApplyCumulativeRefund(s, now, p, event, net, refunded).value.store;
            p in after.payments
            && var second := ApplyCumulativeRefund(after, later, p, again, net, refunded);
               && (second.Ok? && second.value.Done? ==>
                     RefundedMoney(second.value.store.money, p) == RefundedMoney(after.money, p))
               && (second.Ok? && second.value.Done? && PendingRefund(after.ledger.refunds, p).None? ==>
                     second.value.store == after)
  {
    MoneyMatchesReport(s, now, p, event, net, refunded);
    var after := ApplyCumulativeRefund(s, now, p, event, net, refunded).value.store;
    var second := ApplyCumulativeRefund(after, later, p, again, net, refunded);
    if second.Ok? && second.value.Done? {
      MoneyMatchesReport(after, later, p, again, net, refunded);
    }
  }

  // ----- runs

  lemma CompletedAppended(refunds: seq<Refund>, row: Refund, p: nat)
    ensures CompletedBase(refunds + [row], p)
         == CompletedBase(refunds, p) + if row.purchase == p && row.status == Completed then row.creditAmount else 0
    ensures CompletedPaidPromotion(refunds + [row], p)
         == CompletedPaidPromotion(refunds, p)
          + if row.purchase == p && row.status == Completed then row.promotionAmount - row.freePromotionAmount else 0
    ensures CompletedFreePromotion(refunds + [row], p)
         == CompletedFreePromotion(refunds, p)
          + if row.purchase == p && row.status == Completed then row.freePromotionAmount else 0
  {
    assert (refunds + [row])[..|refunds|] == refunds;
  }

  function CompletedFreePromotion(refunds: seq<Refund>, p: nat): nat {
    if refunds == [] then 0
    else
      var last := refunds[|refunds| - 1];
      CompletedFreePromotion(refunds[..|refunds| - 1], p)
      + if last.purchase == p && last.status == Completed then last.freePromotionAmount else 0
  }

  function GrantedBase(l: Ledger, p: nat): nat {
    Total(Originals(l.grants), BasePaid(p))
  }

  function GrantedPromotion(l: Ledger, p: nat): nat {
    Total(Originals(l.grants), PaidPromotion(p))
  }

  /** The purchase is refunded by its provider alone, and its recoveries follow the ratchet. */
  ghost predicate ProviderRefunded(s: Store, p: nat, net: int, base: nat, promotion: nat) {
    && p in s.payments
    && (s.payments[p].netAmount.None? || s.payments[p].netAmount == Some(net))
    && GrantedBase(s.ledger, p) == base && GrantedPromotion(s.ledger, p) == promotion
    && PendingRefund(s.ledger.refunds, p).None?
    && Ratchet(base, promotion, RefundedMoney(s.money, p), net,
               CompletedBase(s.ledger.refunds, p), CompletedPaidPromotion(s.ledger.refunds, p))
    && RecoveredFor(s.ledger, p)
       == CompletedBase(s.ledger.refunds, p) + CompletedPaidPromotion(s.ledger.refunds, p)
        + CompletedFreePromotion(s.ledger.refunds, p)
  }

  /** What may happen to the credits between two reports: anything but user refunds and paid grants of the purchase. */
  predicate Unrelated(step: Solvency.Step, p: nat) {
    match step
    case DoReserve(_, _, _) => true
    case DoCapture(_) => true
    case DoRelease(_) => true
    case DoSpend(_) => true
    case DoGrant(input) => !(input.kind == Paid && input.purchase == Some(p))
    case _ => false
  }

  datatype Activity =
    | Report(at: int, event: Event, reported: int, refunded: int)
    | Credits(clock: int, step: Solvency.Step)

  /** A refused or failed report leaves the tables as they were. */
  function Perform(s: Store, p: nat, a: Activity): Store
    requires p in s.payments
    requires a.Credits? ==> Unrelated(a.step, p)
  {
    match a
    case Report(at, event, reported, refunded) =>
      (match ApplyCumulativeRefund(s, at, p, event, reported, refunded)
       case Ok(Done(after)) => after
       case _ => s)
    case Credits(clock, step) => Solvency.Next(Solvency.System(s, clock), step).store
  }

  /** While the payment records no net amount, reports name `net`; once it does, any other is refused by the code. */
  ghost predicate ReportRun(s: Store, p: nat, net: int, run: seq<Activity>, z: Store)
    decreases |run|
  {
    if run == [] then s == z
    else
      && p in s.payments
      && (run[0].Credits? ==> Unrelated(run[0].step, p))
      && (run[0].Report? && s.payments[p].netAmount.None? ==> run[0].reported == net)
      && ReportRun(Perform(s, p, run[0]), p, net, run[1..], z)
  }

  lemma PendingAppended(refunds: seq<Refund>, row: Refund, p: nat)
    requires PendingRefund(refunds, p).None? && row.status == Completed
    ensures PendingRefund(refunds + [row], p).None?
  {
    var all := refunds + [row];
    assert forall i | 0 <= i < |refunds| :: all[i] == refunds[i];
  }

  /** With no user refund waiting, a report is refused, adds nothing, or writes one increase. */
  lemma ReportIsIncrease(s: Store, p: nat, net: int, a: Activity)
    requires p in s.payments && a.Report? && PendingRefund(s.ledger.refunds, p).None?
    requires s.payments[p].netAmount.None? ==> a.reported == net
    requires s.payments[p].netAmount.Some? ==> s.payments[p].netAmount == Some(net)
    ensures Perform(s, p, a) == s
            || (net > 0 && RefundedMoney(s.money, p) <= a.refunded <= net
                && Perform(s, p, a) == RefundIncrease(s, a.at, p, a.event, net, a.refunded))
  {
  }

  /** What an increase adds to the sums that the ratchet compares. */
  lemma IncreaseSums(s: Store, now: int, p: nat, event: Event, net: int, refunded: int)
    requires p in s.payments && net > 0
    ensures var t := RefundIncrease(s, now, p, event, net, refunded);
            var row := CumulativeRow(s, now, p, event, net, refunded);
            && CompletedBase(t.ledger.refunds, p) == CompletedBase(s.ledger.refunds, p) + row.creditAmount
            && CompletedPaidPromotion(t.ledger.refunds, p)
               == CompletedPaidPromotion(s.ledger.refunds, p) + row.promotionAmount - row.freePromotionAmount
            && CompletedFreePromotion(t.ledger.refunds, p)
               == CompletedFreePromotion(s.ledger.refunds, p) + row.freePromotionAmount
            && RecoveredFor(t.ledger, p)
               == RecoveredFor(s.ledger, p) + row.creditAmount + row.promotionAmount
            && t.ledger.grants == s.ledger.grants
            && (PendingRefund(s.ledger.refunds, p).None? ==> PendingRefund(t.ledger.refunds, p).None?)
  {
    var row := CumulativeRow(s, now, p, event, net, refunded);
    CompletedAppended(s.ledger.refunds, row, p);
    RecoverRowAdds(s.ledger, row);
    if PendingRefund(s.ledger.refunds, p).None? {
      PendingAppended(s.ledger.refunds, row, p);
    }
  }

  /** The row's base and paid promotion parts are what the targets ask beyond earlier recoveries. */
  lemma RowTargets(s: Store, now: int, p: nat, event: Event, net: int, refunded: int)
    requires net > 0 && CompletedPaidPromotion(s.ledger.refunds, p) >= 0
    ensures var row := CumulativeRow(s, now, p, event, net, refunded);
            var base, promotion := GrantedBase(s.ledger, p), GrantedPromotion(s.ledger, p);
            && row.creditAmount == Monus(BaseTarget(base, refunded, net), CompletedBase(s.ledger.refunds, p))
            && row.promotionAmount - row.freePromotionAmount
               == Monus(PromotionTarget(base, promotion, refunded, net), CompletedPaidPromotion(s.ledger.refunds, p))
  {
  }

  lemma ReportKeepsRatchet(s: Store, p: nat, net: int, base: nat, promotion: nat, a: Activity)
    requires ProviderRefunded(s, p, net, base, promotion)
    requires a.Report? && (s.payments[p].netAmount.None? ==> a.reported == net)
    ensures ProviderRefunded(Perform(s, p, a), p, net, base, promotion)
  {
    ReportIsIncrease(s, p, net, a);
    if Perform(s, p, a) != s {
      IncreaseKeepsRatchet(s, p, net, base, promotion, a.at, a.event, a.refunded);
    }
  }

  lemma IncreaseKeepsRatchet(s: Store, p: nat, net: int, base: nat, promotion: nat, now: int, event: Event,
                             refunded: int)
    requires ProviderRefunded(s, p, net, base, promotion)
    requires RefundedMoney(s.money, p) <= refunded <= net
    ensures ProviderRefunded(RefundIncrease(s, now, p, event, net, refunded), p, net, base, promotion)
  {
    IncreaseMoney(s, now, p, event, net, refunded);
    IncreaseSums(s, now, p, event, net, refunded);
    RowTargets(s, now, p, event, net, refunded);
    RatchetAdvances(base, promotion, RefundedMoney(s.money, p), refunded, net,
                    CompletedBase(s.ledger.refunds, p), CompletedPaidPromotion(s.ledger.refunds, p));
  }

  lemma RecoverRowAdds(l: Ledger, row: Refund)
    ensures RecoveredFor(RecoverRow(l, row), row.purchase) == RecoveredFor(l, row.purchase) + row.recoveryAmount
    ensures RecoverRow(l, row).refunds == l.refunds + [row]
    ensures RecoverRow(l, row).grants == l.grants
  {
    var r := Recovery(row.purchase, row.recoveryAmount, row.id);
    assert (l.recoveries + [r])[..|l.recoveries|] == l.recoveries;
  }

  lemma {:induction false} OriginalsConcat(a: seq<Grant>, b: seq<Grant>)
    ensures Originals(a + b) == Originals(a) + Originals(b)
  {
    if b == [] {
      assert a + b == a;
    } else {
      var n := |b| - 1;
      assert (a + b)[..|a + b| - 1] == a + b[..n];
      OriginalsConcat(a, b[..n]);
    }
  }

  lemma InsertKeepsOriginals(grants: seq<Grant>, g: Grant, c: Class)
    requires !c.Has(g)
    ensures Total(Originals(Insert(grants, g)), c) == Total(Originals(grants), c)
  {
    var k := Slot(grants, g);
    assert grants == grants[..k] + grants[k..];
    OriginalsConcat(grants[..k], grants[k..]);
    OriginalsConcat(grants[..k] + [g], grants[k..]);
    OriginalsConcat(grants[..k], [g]);
    TotalConcat(Originals(grants[..k]), Originals(grants[k..]), c);
    TotalConcat(Originals(grants[..k] + [g]), Originals(grants[k..]), c);
    TotalConcat(Originals(grants[..k]), Originals([g]), c);
    assert [g][..0] == [];
    assert Originals([g]) == [Lot(g, g.amount)];
  }

  lemma AddedGrantKeepsGranted(l: Ledger, now: int, input: GrantInput, p: nat)
    requires !(input.kind == Paid && input.purchase == Some(p))
    requires AddGrant(l, now, input).Ok?
    ensures var after := AddGrant(l, now, input).value;
            && after.refunds == l.refunds && after.recoveries == l.recoveries
            && GrantedBase(after, p) == GrantedBase(l, p) && GrantedPromotion(after, p) == GrantedPromotion(l, p)
  {
    var g := NewGrant(l, now, input);
    InsertKeepsOriginals(l.grants, g, BasePaid(p));
    InsertKeepsOriginals(l.grants, g, PaidPromotion(p));
  }

  ghost predicate SameRecovery(a: Ledger, b: Ledger) {
    a.grants == b.grants && a.refunds == b.refunds && a.recoveries == b.recoveries
  }

  lemma SpendingFrame(l: Ledger, clock: int, amount: int, reference: string)
    ensures Spend(l, clock, amount).Ok? ==> SameRecovery(Spend(l, clock, amount).value, l)
    ensures Capture(l, clock, reference).Ok? ==> SameRecovery(Capture(l, clock, reference).value.ledger, l)
  {
  }

  lemma ReservingFrame(l: Ledger, clock: int, action: ActionType, reference: string, expiry: Expiry)
    ensures Reserve(l, clock, action, reference, expiry).Ok? ==>
              SameRecovery(Reserve(l, clock, action, reference, expiry).value, l)
    ensures Release(l, reference).Ok? ==> SameRecovery(Release(l, reference).value, l)
  {
  }

  lemma UnrelatedFrame(s: Store, p: nat, clock: int, step: Solvency.Step)
    requires Unrelated(step, p)
    ensures var after := Solvency.Next(Solvency.System(s, clock), step).store;
            && after.payments == s.payments && after.money == s.money
            && after.ledger.refunds == s.ledger.refunds && after.ledger.recoveries == s.ledger.recoveries
            && GrantedBase(after.ledger, p) == GrantedBase(s.ledger, p)
            && GrantedPromotion(after.ledger, p) == GrantedPromotion(s.ledger, p)
  {
    match step
    case DoReserve(action, reference, expiry) => ReservingFrame(s.ledger, clock, action, reference, expiry);
    case DoRelease(reference) => ReservingFrame(s.ledger, clock, ChatReply, reference, Never);
    case DoCapture(reference) => SpendingFrame(s.ledger, clock, 0, reference);
    case DoSpend(amount) => SpendingFrame(s.ledger, clock, amount, "");
    case DoGrant(input) =>
      if AddGrant(s.ledger, clock, input).Ok? {
        AddedGrantKeepsGranted(s.ledger, clock, input, p);
      }
  }

  lemma CreditsKeepRatchet(s: Store, p: nat, net: int, base: nat, promotion: nat, a: Activity)
    requires ProviderRefunded(s, p, net, base, promotion)
    requires a.Credits? && Unrelated(a.step, p)
    ensures ProviderRefunded(Perform(s, p, a), p, net, base, promotion)
  {
    UnrelatedFrame(s, p, a.clock, a.step);
  }

  /** Over any run of reports and unrelated credit activity, in every state reached: base recovery is exactly its
      floor share, all paid recovery is its floor share or one more, never more than was granted, and complete once
      the whole net amount is refunded. */
  lemma {:induction false} RecoveredOverRuns(s: Store, p: nat, net: int, base: nat, promotion: nat,
                                             run: seq<Activity>, z: Store)
    requires ProviderRefunded(s, p, net, base, promotion)
    requires ReportRun(s, p, net, run, z)
    ensures ProviderRefunded(z, p, net, base, promotion)
    ensures var x := RefundedMoney(z.money, p);
            var recoveredBase := CompletedBase(z.ledger.refunds, p);
            var recovered := recoveredBase + CompletedPaidPromotion(z.ledger.refunds, p);
            && 0 <= x <= net && net > 0
            && recoveredBase == base * x / net
            && (recovered == (base + promotion) * x / net || recovered == (base + promotion) * x / net + 1)
            && recovered <= base + promotion
            && (x == net ==> recovered == base + promotion)
            && RecoveredFor(z.ledger, p) == recovered + CompletedFreePromotion(z.ledger.refunds, p)
    decreases |run|
  {
    if run == [] {
      RatchetMeans(base, promotion, RefundedMoney(z.money, p), net,
                   CompletedBase(z.ledger.refunds, p), CompletedPaidPromotion(z.ledger.refunds, p));
    } else {
      if run[0].Report? {
        ReportKeepsRatchet(s, p, net, base, promotion, run[0]);
      } else {
        CreditsKeepRatchet(s, p, net, base, promotion, run[0]);
      }
      RecoveredOverRuns(Perform(s, p, run[0]), p, net, base, promotion, run[1..], z);
    }
  }

  /** A purchase without any refund row or refunded money is where such a run starts. */
  lemma UnrefundedStarts(s: Store, p: nat, net: int)
    requires p in s.payments && net > 0
    requires s.payments[p].netAmount.None? || s.payments[p].netAmount == Some(net)
    requires forall i | 0 <= i < |s.ledger.refunds| :: s.ledger.refunds[i].purchase != p
    requires RefundedMoney(s.money, p) == 0 && RecoveredFor(s.ledger, p) == 0
    ensures ProviderRefunded(s, p, net, GrantedBase(s.ledger, p), GrantedPromotion(s.ledger, p))
  {
    NothingCompleted(s.ledger.refunds, p);
    RatchetStarts(GrantedBase(s.ledger, p), GrantedPromotion(s.ledger, p), net);
  }

  lemma {:induction false} NothingCompleted(refunds: seq<Refund>, p: nat)
    requires forall i | 0 <= i < |refunds| :: refunds[i].purchase != p
    ensures CompletedBase(refunds, p) == 0 && CompletedPaidPromotion(refunds, p) == 0
    ensures CompletedFreePromotion(refunds, p) == 0
  {
    if refunds != [] {
      NothingCompleted(refunds[..|refunds| - 1], p);
    }
  }

  /** The money ledger follows the reports over any run: its sum only grows, and stays within the net amount. */
  lemma {:induction false} MoneyOverRuns(s: Store, p: nat, net: int, run: seq<Activity>, z: Store)
    requires ReportRun(s, p, net, run, z)
    requires RefundedMoney(s.money, p) <= net
    requires p in s.payments ==> s.payments[p].netAmount.None? || s.payments[p].netAmount == Some(net)
    ensures RefundedMoney(s.money, p) <= RefundedMoney(z.money, p) <= net
    decreases |run|
  {
    if run != [] {
      var next := Perform(s, p, run[0]);
      if run[0].Report? && next != s {
        MoneyMatchesReport(s, run[0].at, p, run[0].event, run[0].reported, run[0].refunded);
      }
      MoneyOverRuns(next, p, net, run[1..], z);
    }
  }
}
