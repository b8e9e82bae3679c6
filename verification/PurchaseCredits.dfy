/** How refund rows relate to the debt and availability that the ledger later gives back. */
module PurchaseCredits {
  import opened Prelude
  import opened Tables
  import opened Waterfall
  import opened Allocation
  import opened CreditRules
  import opened PurchaseRules

  function HeldFor(l: Ledger, now: int, p: nat): nat {
    Total(Holdings(l.grants, l.usages, now), Linked(p))
  }

  function RecoveredFor(l: Ledger, p: nat): nat {
    Get(RecoveryByPurchase(l.recoveries), p)
  }

  function LockedFor(l: Ledger, p: nat): nat {
    Get(LockByPurchase(l.refunds), p)
  }

  function DebtOf(l: Ledger, now: int): nat {
    StateOf(l, now, true).recoveryDebt
  }

  /** What a refund of the purchase could still recover. */
  function RefundableLeft(l: Ledger, now: int, p: nat): nat {
    SnapshotOf(l, now, p).remainingPaid + SnapshotOf(l, now, p).remainingPromotion
  }

  /** Free credits linked to the purchase without a promotion code: no refund counts them. */
  function PlainFreeLeft(l: Ledger, now: int, p: nat): nat {
    Total(StateOf(l, now, false).snapshots, PlainFree(p))
  }

  // ----- debt, per purchase

  /** Debt as a sum over purchases of what recovery asks beyond what the grants hold. */
  function Owed(purchases: seq<nat>, recovery: map<nat, nat>, lots: seq<Lot>): nat {
    if purchases == [] then 0
    else
      var p := purchases[|purchases| - 1];
      Owed(purchases[..|purchases| - 1], recovery, lots) + Monus(Get(recovery, p), Total(lots, Linked(p)))
  }

  lemma {:induction false} DebtIsOwed(purchases: seq<nat>, pools: Pools, lots: seq<Lot>)
    ensures Debt(purchases, Drained(lots, pools).recovery) == Owed(purchases, pools.recovery, lots)
  {
    if purchases != [] {
      DebtIsOwed(purchases[..|purchases| - 1], pools, lots);
      PoolsClosedForm(lots, pools, purchases[|purchases| - 1]);
    }
  }

  ghost predicate Distinct(xs: seq<nat>) {
    forall i, j | 0 <= i < j < |xs| :: xs[i] != xs[j]
  }

  lemma {:induction false} RecoveredPurchasesComplete(rows: seq<Recovery>)
    ensures Distinct(RecoveredPurchases(rows))
    ensures forall p: nat :: p !in RecoveredPurchases(rows) ==> Get(RecoveryByPurchase(rows), p) == 0
  {
    if rows != [] {
      RecoveredPurchasesComplete(rows[..|rows| - 1]);
    }
  }

  /** Raising one purchase's recovery changes only that purchase's term. */
  lemma {:induction false} OwedOne(purchases: seq<nat>, a: map<nat, nat>, p: nat, amount: nat, lots: seq<Lot>)
    requires Distinct(purchases)
    ensures Owed(purchases, a[p := Get(a, p) + amount], lots)
         == Owed(purchases, a, lots)
          + if p in purchases
            then Monus(Get(a, p) + amount, Total(lots, Linked(p))) - Monus(Get(a, p), Total(lots, Linked(p)))
            else 0
  {
    if purchases != [] {
      var n := |purchases| - 1;
      assert p in purchases <==> p in purchases[..n] || p == purchases[n];
      OwedOne(purchases[..n], a, p, amount, lots);
    }
  }

  /** A recovery row raises the debt by what it asks beyond what recovery had left the purchase. */
  lemma RecoveryRaisesDebt(l: Ledger, now: int, p: nat, amount: nat, refund: nat)
    ensures DebtOf(Recover(l, p, amount, refund), now)
         == DebtOf(l, now) + Monus(amount, Monus(HeldFor(l, now, p), RecoveredFor(l, p)))
  {
    var after := Recover(l, p, amount, refund);
    var lots := Holdings(l.grants, l.usages, now);
    var keys, rows := RecoveredPurchases(l.recoveries), RecoveryByPurchase(l.recoveries);
    assert after.recoveries[..|l.recoveries|] == l.recoveries;
    RecoveredPurchasesComplete(l.recoveries);
    DebtIsOwed(keys, PoolsOf(l, true), lots);
    DebtIsOwed(RecoveredPurchases(after.recoveries), PoolsOf(after, true), lots);
    OwedOne(keys, rows, p, amount, lots);
  }

  lemma DebtIgnoresRefunds(a: Ledger, b: Ledger, now: int)
    requires a.grants == b.grants && a.usages == b.usages && a.recoveries == b.recoveries
    ensures DebtOf(a, now) == DebtOf(b, now)
  {
    var lots := Holdings(a.grants, a.usages, now);
    DebtIsOwed(RecoveredPurchases(a.recoveries), PoolsOf(a, true), lots);
    DebtIsOwed(RecoveredPurchases(a.recoveries), PoolsOf(b, true), lots);
  }

  /** Recovery leaves a purchase what refunds can still take plus its plain free credits. */
  lemma LeftAfterRecovery(l: Ledger, now: int, p: nat)
    ensures RefundableLeft(l, now, p) + PlainFreeLeft(l, now, p)
         == Monus(HeldFor(l, now, p), RecoveredFor(l, p))
    ensures SnapshotOf(l, now, p).remainingPaidPromotion <= SnapshotOf(l, now, p).remainingPromotion
  {
    var left := StateOf(l, now, false).snapshots;
    AvailableClosedForm(Holdings(l.grants, l.usages, now), PoolsOf(l, false), p);
    TotalSplit(left, Refundable(p), PlainFree(p), Linked(p));
    TotalSplit(left, BasePaid(p), Promotion(p), Refundable(p));
    TotalSplit(left, PaidPromotion(p), FreePromotion(p), Promotion(p));
  }

  // ----- the debtAmount stored on refund rows

  /** Writing a row whose debt is computed against the refundable credits: the stored debt is the rise of the
      recomputed debt exactly when no plain free credit is left or the recovery does not exceed what is left. */
  lemma RowDebtExact(l: Ledger, now: int, row: Refund)
    requires row.debtAmount == Monus(row.recoveryAmount, RefundableLeft(l, now, row.purchase))
    ensures DebtOf(RecoverRow(l, row), now) == DebtOf(l, now) + row.debtAmount
        <==> PlainFreeLeft(l, now, row.purchase) == 0
             || row.recoveryAmount <= RefundableLeft(l, now, row.purchase)
  {
    var added := AppendRefund(l, row);
    DebtIgnoresRefunds(l, added, now);
    RecoveryRaisesDebt(added, now, row.purchase, row.recoveryAmount, row.id);
    LeftAfterRecovery(l, now, row.purchase);
  }

  lemma CumulativeDebtExact(s: Store, now: int, p: nat, event: Event, net: int, refunded: int)
    requires p in s.payments && net > 0
    ensures var row := CumulativeRow(s, now, p, event, net, refunded);
            var after := RefundIncrease(s, now, p, event, net, refunded);
            && after.ledger.refunds == s.ledger.refunds + [row]
            && (DebtOf(after.ledger, now) == DebtOf(s.ledger, now) + row.debtAmount
                <==> PlainFreeLeft(s.ledger, now, p) == 0
                     || row.recoveryAmount <= RefundableLeft(s.ledger, now, p))
  {
    LeftAfterRecovery(s.ledger, now, p);
    RowDebtExact(s.ledger, now, CumulativeRow(s, now, p, event, net, refunded));
  }

  lemma ReversalDebtExact(s: Store, now: int, p: nat, event: Event)
    requires p in s.payments && s.payments[p].status !in {Reversed, Refunded}
    ensures var row := ReversalRow(s, now, p, event);
            var after := ForceReversal(s, now, p, event);
            && after.ledger.refunds == s.ledger.refunds + [row]
            && (DebtOf(after.ledger, now) == DebtOf(s.ledger, now) + row.debtAmount
                <==> PlainFreeLeft(s.ledger, now, p) == 0
                     || row.recoveryAmount <= RefundableLeft(s.ledger, now, p))
  {
    RowDebtExact(s.ledger, now, ReversalRow(s, now, p, event));
  }

  lemma TotalOfTwo(a: Lot, b: Lot, c: Class)
    ensures Total([a, b], c) == (if c.Has(a.grant) then a.amount else 0) + if c.Has(b.grant) then b.amount else 0
  {
    TotalOfOne(a, c);
    TotalOfOne(b, c);
    TotalConcat([a], [b], c);
    assert [a] + [b] == [a, b];
  }

  /** One plain free credit, and one paid credit that has been spent. */
  lemma SpentPurchase(g: Grant, h: Grant, l: Ledger)
    requires g == Grant(0, Free, Some(0), false, 1, None, 0, None)
    requires h == Grant(1, Paid, Some(0), false, 1, None, 0, None)
    requires l == Ledger([g, h], [], [Usage(9, 1, 1)], [], [], [], [], 2)
    ensures StateOf(l, 0, false).snapshots == [Lot(g, 1), Lot(h, 0)]
    ensures Originals(l.grants) == [Lot(g, 1), Lot(h, 1)]
  {
    var lots := Holdings(l.grants, l.usages, 0);
    assert [Usage(9, 1, 1)][..0] == [];
    assert Used(l.usages, 0) == 0 && Used(l.usages, 1) == 1;
    HoldingAt(l.grants, l.usages, 0, 0);
    HoldingAt(l.grants, l.usages, 0, 1);
    assert lots == [Lot(g, 1), Lot(h, 0)];
    NothingRecovered(lots, PoolsOf(l, false));
    OriginalsOfTwo(g, h);
  }

  lemma OriginalsOfTwo(g: Grant, h: Grant)
    ensures Originals([g, h]) == [Lot(g, g.amount), Lot(h, h.amount)]
  {
    assert [g][..0] == [] && Originals([g]) == [Lot(g, g.amount)];
    assert [g, h][..1] == [g];
  }

  /** Empty pools take nothing. */
  lemma {:induction false} NothingRecovered(lots: seq<Lot>, pools: Pools)
    requires forall p: nat :: Get(pools.recovery, p) == 0 && Get(pools.lock, p) == 0
    ensures Snapshots(lots, pools) == lots
  {
    if lots != [] {
      var n := |lots| - 1;
      NothingRecovered(lots[..n], pools);
      var left := Drained(lots[..n], pools);
      forall p: nat ensures Get(left.recovery, p) == 0 && Get(left.lock, p) == 0 {
        PoolsClosedForm(lots[..n], pools, p);
      }
      assert lots == lots[..n] + [lots[n]];
    }
  }

  lemma SpentPurchaseSums(g: Grant, h: Grant, l: Ledger)
    requires g == Grant(0, Free, Some(0), false, 1, None, 0, None)
    requires h == Grant(1, Paid, Some(0), false, 1, None, 0, None)
    requires l == Ledger([g, h], [], [Usage(9, 1, 1)], [], [], [], [], 2)
    ensures PlainFreeLeft(l, 0, 0) == 1 && RefundableLeft(l, 0, 0) == 0
    ensures SnapshotOf(l, 0, 0).originalPaid == 1 && SnapshotOf(l, 0, 0).originalPromotion == 0
  {
    SpentPurchase(g, h, l);
    forall c: Class
      ensures Total(StateOf(l, 0, false).snapshots, c) == if c.Has(g) then 1 else 0
      ensures Total(Originals(l.grants), c) == (if c.Has(g) then 1 else 0) + if c.Has(h) then 1 else 0
    {
      TotalOfTwo(Lot(g, 1), Lot(h, 0), c);
      TotalOfTwo(Lot(g, 1), Lot(h, 1), c);
    }
  }

  /** The condition is needed: with a plain free credit on the purchase, a forced reversal of spent paid credits stores
      a debt that the ledger does not show. */
  lemma PlainFreeBreaksDebt()
    ensures exists s: Store, event: Event ::
              && 0 in s.payments && s.payments[0].status == PaidUp
              && DebtOf(ForceReversal(s, 0, 0, event).ledger, 0)
                 != DebtOf(s.ledger, 0) + ReversalRow(s, 0, 0, event).debtAmount
  {
    var g := Grant(0, Free, Some(0), false, 1, None, 0, None);
    var h := Grant(1, Paid, Some(0), false, 1, None, 0, None);
    var l := Ledger([g, h], [], [Usage(9, 1, 1)], [], [], [], [], 2);
    var payment := Payment(Web, "polar", PaidUp, PurchaseCompleted, 1, None, None, None, None, "", None);
    var event := Event("e", "polar", ReversedEvent, Some(0), None, None, None, None, None, None, None);
    var s := Store(l, map[0 := payment], [], map[]);
    SpentPurchaseSums(g, h, l);
    ReversalDebtExact(s, 0, 0, event);
    assert ReversalRow(s, 0, 0, event).recoveryAmount == 1;
  }

  // ----- user refunds: lock, then recover

  lemma {:induction false} LockAppended(refunds: seq<Refund>, row: Refund, p: nat)
    ensures Get(LockByPurchase(refunds + [row]), p)
         == Get(LockByPurchase(refunds), p)
          + if row.purchase == p && Locks(row.status) then row.lockedAmount else 0
  {
    assert (refunds + [row])[..|refunds|] == refunds;
  }

  /** Changing one refund's status adds or removes that row's lock. */
  lemma {:induction false} LockUpdated(refunds: seq<Refund>, i: nat, status: RefundStatus, p: nat)
    requires i < |refunds|
    ensures var row := refunds[i];
            Get(LockByPurchase(refunds[i := row.(status := status)]), p)
            + (if row.purchase == p && Locks(row.status) then row.lockedAmount else 0)
            == Get(LockByPurchase(refunds), p)
             + (if row.purchase == p && Locks(status) then row.lockedAmount else 0)
  {
    var n := |refunds| - 1;
    var after := refunds[i := refunds[i].(status := status)];
    if i < n {
      LockUpdated(refunds[..n], i, status, p);
      assert after[..n] == refunds[..n][i := refunds[i].(status := status)];
    } else {
      assert after[..n] == refunds[..n];
    }
  }

  /** Lock and recovery of a purchase fit into what its grants hold. */
  ghost predicate Covered(l: Ledger, now: int, p: nat) {
    LockedFor(l, p) == 0 || RecoveredFor(l, p) + LockedFor(l, p) <= HeldFor(l, now, p)
  }

  /** The row of an eligible quote asks back exactly what is refundable, and only when nothing is locked. */
  lemma EligibleQuote(s: Store, now: int, p: nat, q: Quote)
    requires QuoteFor(s, now, p) == Ok(q) && q.eligible
    ensures q.refundableCredits + q.promotionCredits == RefundableLeft(s.ledger, now, p) > 0
    ensures LockedFor(s.ledger, p) == 0
  {
    LeftAfterRecovery(s.ledger, now, p);
  }

  lemma {:induction false} HoldingsBelowOriginals(grants: seq<Grant>, usages: seq<Usage>, now: int)
    ensures Below(Holdings(grants, usages, now), Originals(grants))
  {
    if grants != [] {
      HoldingsBelowOriginals(grants[..|grants| - 1], usages, now);
    }
  }

  /** Of every class of credits no more is left than was granted. */
  lemma LeftWithinGranted(l: Ledger, now: int, c: Class)
    ensures Total(StateOf(l, now, false).snapshots, c) <= Total(Originals(l.grants), c)
  {
    var lots := Holdings(l.grants, l.usages, now);
    HoldingsBelowOriginals(l.grants, l.usages, now);
    SnapshotsBelow(lots, PoolsOf(l, false));
    TotalMonotone(Snapshots(lots, PoolsOf(l, false)), lots, c);
    TotalMonotone(lots, Originals(l.grants), c);
  }

  /** A share of an amount is within the amount, at least its half when half of the whole is left, and all of it when
      nothing was used. */
  lemma ShareBounds(amount: nat, part: nat, whole: nat)
    requires part <= whole && whole > 0
    ensures amount * part / whole <= amount
    ensures part * 2 >= whole ==> amount / 2 <= amount * part / whole
    ensures part == whole ==> amount * part / whole == amount
  {
    ShareAtMost(amount, part, whole);
    if part * 2 >= whole {
      assert amount / 2 * whole <= amount * part by {
        assert 2 * (amount / 2) <= amount;
        assert 2 * (amount / 2) * whole <= amount * whole <= amount * (part * 2);
        assert amount * (part * 2) == 2 * (amount * part);
      }
      ShareAtLeast(amount, part, whole, amount / 2);
    }
    if part == whole {
      ShareAtLeast(amount, part, whole, amount);
    }
  }

  lemma ShareAtLeast(amount: nat, part: nat, whole: nat, least: nat)
    requires whole > 0 && least * whole <= amount * part
    ensures least <= amount * part / whole
  {
    var q := amount * part / whole;
    assert amount * part < (q + 1) * whole;
    assert q < least ==> (q + 1) * whole <= least * whole;
  }

  lemma ShareAtMost(amount: nat, part: nat, whole: nat)
    requires whole > 0 && part <= whole
    ensures amount * part / whole <= amount
  {
    var q := amount * part / whole;
    assert q * whole <= amount * part <= amount * whole;
    assert q > amount ==> (amount + 1) * whole <= q * whole;
  }

  /** What the provider is asked to pay back is never more than was paid, and fee and refund make up the gross amount.
      An eligible quote has at least half of the paid credits left and gives at least half of the payment before the
      fee, all of it when nothing was used; any other quote gives nothing. */
  lemma QuoteWithinPayment(s: Store, now: int, p: nat, q: Quote, amount: nat)
    requires QuoteFor(s, now, p) == Ok(q)
    requires var payment := s.payments[p];
             Some(amount as int) == if payment.provider == "polar" then payment.netAmount else payment.amount
    ensures 0 <= q.refundAmount <= q.grossAmount <= amount
    ensures q.feeAmount + q.refundAmount == q.grossAmount && 20 * q.feeAmount <= q.grossAmount < 20 * q.feeAmount + 20
    ensures var c := SnapshotOf(s.ledger, now, p);
            var left, granted := c.remainingPaid + c.remainingPaidPromotion, c.originalPaid + c.originalPaidPromotion;
            && (q.eligible ==> left * 2 >= granted && amount / 2 <= q.grossAmount)
            && (q.eligible && left == granted ==> q.grossAmount == amount)
            && (!q.eligible ==> q.grossAmount == 0)
  {
    LeftWithinGranted(s.ledger, now, BasePaid(p));
    LeftWithinGranted(s.ledger, now, PaidPromotion(p));
    var c := SnapshotOf(s.ledger, now, p);
    if q.eligible {
      ShareBounds(amount, c.remainingPaid + c.remainingPaidPromotion, c.originalPaid + c.originalPaidPromotion);
    }
  }

  /** Locking all that is refundable of an unlocked purchase. */
  lemma LockRefundable(l: Ledger, now: int, p: nat, row: Refund)
    requires row.purchase == p && row.status == PaymentProcessing
    requires row.lockedAmount == RefundableLeft(l, now, p) && LockedFor(l, p) == 0
    ensures var after := AppendRefund(l, row);
            && LockedFor(after, p) == row.lockedAmount
            && Covered(after, now, p)
            && Total(StateOf(after, now, true).snapshots, Linked(p)) == PlainFreeLeft(l, now, p)
            && DebtOf(after, now) == DebtOf(l, now)
  {
    var after := AppendRefund(l, row);
    LeftAfterRecovery(l, now, p);
    LockAppended(l.refunds, row, p);
    DebtIgnoresRefunds(l, after, now);
    AvailableClosedForm(Holdings(l.grants, l.usages, now), PoolsOf(after, true), p);
  }

  /** No credit of the purchase can be spent. */
  ghost predicate Unspendable(l: Ledger, now: int, p: nat) {
    forall i | 0 <= i < |l.grants| && l.grants[i].purchase == Some(p) :: StateOf(l, now, true).snapshots[i].amount == 0
  }

  /** Recovery and locks of a purchase ask for at least all that its grants hold. */
  ghost predicate Absorbed(l: Ledger, now: int, p: nat) {
    HeldFor(l, now, p) <= RecoveredFor(l, p) + LockedFor(l, p)
  }

  lemma UnspendableExactly(l: Ledger, now: int, p: nat)
    ensures Unspendable(l, now, p) <==> Absorbed(l, now, p)
    ensures Unspendable(l, now, p) <==> Total(StateOf(l, now, true).snapshots, Linked(p)) == 0
  {
    var snapshots := StateOf(l, now, true).snapshots;
    AvailableClosedForm(Holdings(l.grants, l.usages, now), PoolsOf(l, true), p);
    TotalZero(snapshots, Linked(p));
    forall i | 0 <= i < |l.grants| ensures snapshots[i].grant == l.grants[i] {
      AvailableWithinGrant(l, now, true, i);
    }
  }

  /** A lock on one purchase leaves the availability of every other grant as it was. */
  lemma OtherGrantsUntouched(l: Ledger, now: int, row: Refund, i: nat)
    requires i < |l.grants| && l.grants[i].purchase != Some(row.purchase)
    ensures StateOf(AppendRefund(l, row), now, true).snapshots[i] == StateOf(l, now, true).snapshots[i]
  {
    var lots := Holdings(l.grants, l.usages, now);
    HoldingAt(l.grants, l.usages, now, i);
    SnapshotClosedForm(lots, PoolsOf(l, true), i);
    SnapshotClosedForm(lots, PoolsOf(AppendRefund(l, row), true), i);
    if l.grants[i].purchase.Some? {
      LockAppended(l.refunds, row, l.grants[i].purchase.value);
    }
  }

  /** A prepared user refund locks exactly what is refundable of its purchase. What the lock leaves spendable of the
      whole purchase sums to its plain free credits, so no credit of the purchase can be spent if and only if it has
      none; every other grant keeps its availability. */
  lemma RefundInFlight(s: Store, now: int, p: nat, key: string)
    requires FindRefundByKey(s.ledger.refunds, p, key).None?
    requires PrepareRefund(s, now, p, key).Ok?
    ensures var after := PrepareRefund(s, now, p, key).value;
            var row := after.ledger.refunds[|s.ledger.refunds|];
            && after.ledger.refunds == s.ledger.refunds + [row]
            && row.purchase == p && row.status == PaymentProcessing
            && row.recoveryAmount == row.lockedAmount == RefundableLeft(s.ledger, now, p) > 0
            && LockedFor(s.ledger, p) == 0
            && LockedFor(after.ledger, p) == row.lockedAmount
            && Covered(after.ledger, now, p)
            && Total(StateOf(after.ledger, now, true).snapshots, Linked(p)) == PlainFreeLeft(s.ledger, now, p)
            && DebtOf(after.ledger, now) == DebtOf(s.ledger, now) + row.debtAmount
    ensures var after := PrepareRefund(s, now, p, key).value.ledger;
            && (Unspendable(after, now, p) <==> PlainFreeLeft(s.ledger, now, p) == 0)
            && |after.grants| == |s.ledger.grants|
            && forall i | 0 <= i < |after.grants| && after.grants[i].purchase != Some(p) ::
                 StateOf(after, now, true).snapshots[i] == StateOf(s.ledger, now, true).snapshots[i]
  {
    var quote := QuoteFor(s, now, p).value;
    var row := UserRefund(s.ledger.nextId, p, key, quote);
    EligibleQuote(s, now, p, quote);
    LockRefundable(s.ledger, now, p, row);
    UnspendableExactly(AppendRefund(s.ledger, row), now, p);
    forall i | 0 <= i < |s.ledger.grants| && s.ledger.grants[i].purchase != Some(p)
      ensures StateOf(AppendRefund(s.ledger, row), now, true).snapshots[i] == StateOf(s.ledger, now, true).snapshots[i]
    {
      OtherGrantsUntouched(s.ledger, now, row, i);
    }
  }

  lemma UnspentPurchase(g: Grant, h: Grant, l: Ledger)
    requires g == Grant(0, Free, Some(0), false, 1, None, 0, None)
    requires h == Grant(1, Paid, Some(0), false, 1, None, 0, None)
    requires l == Ledger([g, h], [], [], [], [], [], [], 2)
    ensures Holdings(l.grants, l.usages, 0) == [Lot(g, 1), Lot(h, 1)]
    ensures SnapshotOf(l, 0, 0) == PurchaseSnapshot(1, 0, 0, 1, 0, 0, 0)
  {
    var lots := Holdings(l.grants, l.usages, 0);
    HoldingAt(l.grants, l.usages, 0, 0);
    HoldingAt(l.grants, l.usages, 0, 1);
    assert lots == [Lot(g, 1), Lot(h, 1)];
    NothingRecovered(lots, PoolsOf(l, false));
    OriginalsOfTwo(g, h);
    forall c: Class ensures Total(lots, c) == (if c.Has(g) then 1 else 0) + if c.Has(h) then 1 else 0 {
      TotalOfTwo(Lot(g, 1), Lot(h, 1), c);
    }
  }

  /** The lock is taken from the free grants first: a plain free credit on the purchase keeps the paid credit that is
      being refunded spendable. */
  lemma PlainFreeShieldsPaid()
    ensures exists s: Store ::
              && PrepareRefund(s, 0, 0, "k").Ok?
              && var after := PrepareRefund(s, 0, 0, "k").value.ledger;
                 && |after.grants| == 2 && after.grants[1].kind == Paid && after.grants[1].purchase == Some(0)
                 && StateOf(after, 0, true).snapshots[1].amount == 1
  {
    var g := Grant(0, Free, Some(0), false, 1, None, 0, None);
    var h := Grant(1, Paid, Some(0), false, 1, None, 0, None);
    var l := Ledger([g, h], [], [], [], [], [], [], 2);
    var payment := Payment(Web, "card", PaidUp, PurchaseCompleted, 1, Some(100), None, None, None, "", None);
    var s := Store(l, map[0 := payment], [], map[]);
    UnspentPurchase(g, h, l);
    var row := UserRefund(2, 0, "k", QuoteFor(s, 0, 0).value);
    RefundInFlight(s, 0, 0, "k");
    PaidBehindFree(g, h, AppendRefund(l, row));
  }

  lemma PaidBehindFree(g: Grant, h: Grant, l: Ledger)
    requires g.purchase == h.purchase == Some(0) && l.grants == [g, h]
    requires Holdings(l.grants, l.usages, 0) == [Lot(g, 1), Lot(h, 1)]
    requires RecoveredFor(l, 0) == 0 && LockedFor(l, 0) == 1
    ensures StateOf(l, 0, true).snapshots[1].amount == 1
  {
    var lots := Holdings(l.grants, l.usages, 0);
    SnapshotClosedForm(lots, PoolsOf(l, true), 1);
    assert lots[..2] == [Lot(g, 1), Lot(h, 1)] && lots[..1] == [Lot(g, 1)];
    TotalOfTwo(Lot(g, 1), Lot(h, 1), Linked(0));
    TotalOfOne(Lot(g, 1), Linked(0));
  }

  lemma CompletedPools(l: Ledger, after: Ledger, i: nat)
    requires i < |l.refunds| && Locks(l.refunds[i].status)
    requires l.refunds[i].recoveryAmount == l.refunds[i].lockedAmount
    requires after == Recover(l, l.refunds[i].purchase, l.refunds[i].recoveryAmount, l.refunds[i].id)
                        .(refunds := l.refunds[i := l.refunds[i].(status := Completed)])
    ensures SameWeight(PoolsOf(after, true), PoolsOf(l, true))
    ensures forall q: nat :: LockedFor(after, q)
              == if q == l.refunds[i].purchase then LockedFor(l, q) - l.refunds[i].lockedAmount else LockedFor(l, q)
    ensures forall q: nat :: RecoveredFor(after, q)
              == RecoveredFor(l, q) + if q == l.refunds[i].purchase then l.refunds[i].recoveryAmount else 0
  {
    assert after.recoveries[..|l.recoveries|] == l.recoveries;
    forall q: nat
      ensures Get(LockByPurchase(after.refunds), q)
           == Get(LockByPurchase(l.refunds), q) - if q == l.refunds[i].purchase then l.refunds[i].lockedAmount else 0
    {
      LockUpdated(l.refunds, i, Completed, q);
    }
  }

  lemma SameStateSameBalance(a: Ledger, b: Ledger, now: int)
    requires StateOf(a, now, true) == StateOf(b, now, true)
    requires a.adjustments == b.adjustments && a.reservations == b.reservations
    ensures BalanceOf(a, now) == BalanceOf(b, now)
  {
  }

  /** Turning a covered lock into recovery, on the ledger alone. */
  lemma LockBecomesRecovery(l: Ledger, after: Ledger, now: int, i: nat)
    requires i < |l.refunds| && Locks(l.refunds[i].status)
    requires l.refunds[i].recoveryAmount == l.refunds[i].lockedAmount
    requires Covered(l, now, l.refunds[i].purchase)
    requires after == Recover(l, l.refunds[i].purchase, l.refunds[i].recoveryAmount, l.refunds[i].id)
                        .(refunds := l.refunds[i := l.refunds[i].(status := Completed)])
    ensures StateOf(after, now, true) == StateOf(l, now, true)
  {
    var row := l.refunds[i];
    var recovered := Recover(l, row.purchase, row.recoveryAmount, row.id);
    CompletedPools(l, after, i);
    SameWeightPools(Holdings(l.grants, l.usages, now), PoolsOf(after, true), PoolsOf(l, true));
    RecoveryRaisesDebt(l, now, row.purchase, row.recoveryAmount, row.id);
    DebtIgnoresRefunds(recovered, after, now);
    assert DebtOf(after, now) == DebtOf(l, now);
  }

  /** Completing a covered refund moves its lock to recovery: every availability, the debt and both balances stay. */
  lemma CompletionIsNeutral(s: Store, now: int, i: nat, event: Option<string>)
    requires i < |s.ledger.refunds| && s.ledger.refunds[i].purchase in s.payments
    requires Locks(s.ledger.refunds[i].status)
    requires s.ledger.refunds[i].recoveryAmount == s.ledger.refunds[i].lockedAmount
    requires Covered(s.ledger, now, s.ledger.refunds[i].purchase)
    ensures CompleteRefund(s, i, event).Ok?
    ensures var after := CompleteRefund(s, i, event).value;
            && StateOf(after.ledger, now, true) == StateOf(s.ledger, now, true)
            && BalanceOf(after.ledger, now) == BalanceOf(s.ledger, now)
            && after.ledger.refunds == s.ledger.refunds[i := s.ledger.refunds[i].(status := Completed)]
  {
    var after := CompleteRefund(s, i, event).value.ledger;
    LockBecomesRecovery(s.ledger, after, now, i);
    SameStateSameBalance(after, s.ledger, now);
  }

  /** The user path run alone: its stored debt is zero, and so is the rise of the recomputed debt. */
  lemma UserRefundDebtExact(s: Store, now: int, p: nat, key: string, answer: ProviderAnswer)
    requires FindRefundByKey(s.ledger.refunds, p, key).None?
    requires PrepareRefund(s, now, p, key).Ok?
    requires answer in {Succeeds, Processes}
    ensures var i := |s.ledger.refunds|;
            var answered := RecordAnswer(PrepareRefund(s, now, p, key).value, i, answer);
            var done := CompleteRefund(answered, i, None);
            && done.Ok?
            && DebtOf(done.value.ledger, now) == DebtOf(s.ledger, now) + done.value.ledger.refunds[i].debtAmount
  {
    var i := |s.ledger.refunds|;
    var prepared := PrepareRefund(s, now, p, key).value;
    var answered := RecordAnswer(prepared, i, answer);
    RefundInFlight(s, now, p, key);
    LockUpdated(prepared.ledger.refunds, i, AnswerStatus(answer), p);
    DebtIgnoresRefunds(prepared.ledger, answered.ledger, now);
    CompletionIsNeutral(answered, now, i, None);
  }
}
