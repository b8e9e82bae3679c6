/** What the credit transactions do to a user's balances, and exactly when they succeed. */
module CreditEffects {
  import opened Prelude
  import opened Tables
  import opened Waterfall
  import opened Allocation
  import opened CreditRules
  import opened PurchaseCredits
  import Charges
  import Solvency
  import Sorting

  // ----- sums over purchases

  lemma {:induction false} DebtUpdated(ps: seq<nat>, m: map<nat, nat>, p: nat, v: nat)
    requires Distinct(ps)
    ensures Debt(ps, m[p := v]) == Debt(ps, m) + if p in ps then v - Get(m, p) else 0
  {
    if ps != [] {
      var n := |ps| - 1;
      DebtUpdated(ps[..n], m, p, v);
      assert ps == ps[..n] + [ps[n]];
    }
  }

  lemma {:induction false} DebtConcat(a: seq<nat>, b: seq<nat>, m: map<nat, nat>)
    ensures Debt(a + b, m) == Debt(a, m) + Debt(b, m)
  {
    if b == [] {
      assert a + b == a;
    } else {
      var n := |b| - 1;
      assert (a + b)[..|a + b| - 1] == a + b[..n];
      DebtConcat(a, b[..n], m);
    }
  }

  lemma DebtWithout(qs: seq<nat>, j: nat, m: map<nat, nat>)
    requires j < |qs|
    ensures Debt(qs, m) == Debt(qs[..j] + qs[j + 1..], m) + Get(m, qs[j])
  {
    assert qs == qs[..j] + [qs[j]] + qs[j + 1..];
    DebtConcat(qs[..j] + [qs[j]], qs[j + 1..], m);
    DebtConcat(qs[..j], [qs[j]], m);
    DebtConcat(qs[..j], qs[j + 1..], m);
    assert [qs[j]][..0] == [];
  }

  lemma DistinctWithout(qs: seq<nat>, j: nat)
    requires Distinct(qs) && j < |qs|
    ensures Distinct(qs[..j] + qs[j + 1..])
    ensures forall q: nat :: q in qs[..j] + qs[j + 1..] <==> q in qs && q != qs[j]
  {
    var rest := qs[..j] + qs[j + 1..];
    assert qs == qs[..j] + [qs[j]] + qs[j + 1..];
    forall i, k | 0 <= i < k < |rest| ensures rest[i] != rest[k] {
      assert rest[i] == qs[if i < j then i else i + 1] && rest[k] == qs[if k < j then k else k + 1];
    }
    forall i | 0 <= i < |rest| ensures rest[i] != qs[j] {
      assert rest[i] == qs[if i < j then i else i + 1];
    }
  }

  lemma {:induction false} DebtZero(ps: seq<nat>, m: map<nat, nat>)
    requires forall p | p in ps :: Get(m, p) == 0
    ensures Debt(ps, m) == 0
  {
    if ps != [] {
      DebtZero(ps[..|ps| - 1], m);
    }
  }

  /** Summing over more purchases changes nothing when the others hold nothing. */
  lemma {:induction false} DebtOverMore(ps: seq<nat>, qs: seq<nat>, m: map<nat, nat>)
    requires Distinct(ps) && Distinct(qs) && (forall q | q in qs :: q in ps)
    requires forall p | p in ps && p !in qs :: Get(m, p) == 0
    ensures Debt(ps, m) == Debt(qs, m)
    decreases |qs|
  {
    if qs == [] {
      DebtZero(ps, m);
    } else {
      var n := |qs| - 1;
      assert qs[n] in qs;
      var j :| 0 <= j < |ps| && ps[j] == qs[n];
      DebtWithout(ps, j, m);
      DistinctWithout(ps, j);
      forall q | q in qs[..n] ensures q in ps[..j] + ps[j + 1..] {
        var k :| 0 <= k < n && qs[k] == q;
        assert q in qs && q != qs[n];
      }
      assert qs == qs[..n] + [qs[n]];
      DebtOverMore(ps[..j] + ps[j + 1..], qs[..n], m);
    }
  }

  /** The purchases of the list and of the grants, each once. */
  function WithPurchases(ps: seq<nat>, grants: seq<Grant>): seq<nat> {
    if grants == [] then ps
    else
      var before := WithPurchases(ps, grants[..|grants| - 1]);
      match grants[|grants| - 1].purchase
      case None => before
      case Some(p) => if p in before then before else before + [p]
  }

  lemma {:induction false} WithPurchasesComplete(ps: seq<nat>, grants: seq<Grant>)
    requires Distinct(ps)
    ensures Distinct(WithPurchases(ps, grants))
    ensures forall p | p in ps :: p in WithPurchases(ps, grants)
    ensures forall i | 0 <= i < |grants| && grants[i].purchase.Some? ::
              grants[i].purchase.value in WithPurchases(ps, grants)
  {
    if grants != [] {
      WithPurchasesComplete(ps, grants[..|grants| - 1]);
    }
  }

  /** The purchases of two lists, each once. */
  function Joined(ps: seq<nat>, qs: seq<nat>): seq<nat> {
    if qs == [] then ps
    else
      var before, q := Joined(ps, qs[..|qs| - 1]), qs[|qs| - 1];
      if q in before then before else before + [q]
  }

  lemma {:induction false} JoinedComplete(ps: seq<nat>, qs: seq<nat>)
    requires Distinct(ps)
    ensures Distinct(Joined(ps, qs))
    ensures forall p | p in ps || p in qs :: p in Joined(ps, qs)
  {
    if qs != [] {
      JoinedComplete(ps, qs[..|qs| - 1]);
      assert qs == qs[..|qs| - 1] + [qs[|qs| - 1]];
    }
  }

  // ----- conservation

  ghost predicate Listed(lots: seq<Lot>, ps: seq<nat>) {
    forall i | 0 <= i < |lots| && lots[i].grant.purchase.Some? :: lots[i].grant.purchase.value in ps
  }

  /** Every credit that the waterfall meets is available, or has paid off recovery, or is held by a lock. */
  lemma {:induction false} WaterfallConserves(lots: seq<Lot>, pools: Pools, ps: seq<nat>)
    requires Distinct(ps) && Listed(lots, ps)
    ensures Total(Snapshots(lots, pools), Every)
            + Debt(ps, pools.recovery) - Debt(ps, Drained(lots, pools).recovery)
            + Debt(ps, pools.lock) - Debt(ps, Drained(lots, pools).lock)
         == Total(lots, Every)
  {
    if lots != [] {
      var n := |lots| - 1;
      var before := Drained(lots[..n], pools);
      WaterfallConserves(lots[..n], pools, ps);
      assert Snapshots(lots, pools)[..n] == Snapshots(lots[..n], pools);
      if lots[n].grant.purchase.Some? {
        var p := lots[n].grant.purchase.value;
        DebtUpdated(ps, before.recovery, p, Get(before.recovery, p) - RecoveredFrom(lots[n], before));
        DebtUpdated(ps, before.lock, p, Get(before.lock, p) - LockedFrom(lots[n], before));
      }
    }
  }

  function SumRecovered(rows: seq<Recovery>): nat {
    if rows == [] then 0 else SumRecovered(rows[..|rows| - 1]) + rows[|rows| - 1].amount
  }

  /** The purchases that a refund row names, each once. */
  function RefundedPurchases(refunds: seq<Refund>): seq<nat> {
    if refunds == [] then []
    else
      var p := refunds[|refunds| - 1].purchase;
      var before := RefundedPurchases(refunds[..|refunds| - 1]);
      if p in before then before else before + [p]
  }

  /** What refund locks hold back: of each purchase what is locked, as far as recovery has left it anything. */
  function Withheld(ps: seq<nat>, l: Ledger, now: int): nat {
    if ps == [] then 0
    else
      var p := ps[|ps| - 1];
      Withheld(ps[..|ps| - 1], l, now) + Min(LockedFor(l, p), Monus(HeldFor(l, now, p), RecoveredFor(l, p)))
  }

  function TotalHeld(l: Ledger, now: int): nat {
    Total(Holdings(l.grants, l.usages, now), Every)
  }

  lemma {:induction false} SumsRecovered(rows: seq<Recovery>)
    ensures Debt(RecoveredPurchases(rows), RecoveryByPurchase(rows)) == SumRecovered(rows)
  {
    if rows != [] {
      var n := |rows| - 1;
      var before, m, p := RecoveredPurchases(rows[..n]), RecoveryByPurchase(rows[..n]), rows[n].purchase;
      SumsRecovered(rows[..n]);
      RecoveredPurchasesComplete(rows[..n]);
      DebtUpdated(before, m, p, Get(m, p) + rows[n].amount);
      if p !in before {
        assert (before + [p])[..|before|] == before;
      }
    }
  }

  lemma {:induction false} RefundedPurchasesComplete(refunds: seq<Refund>)
    ensures Distinct(RefundedPurchases(refunds))
    ensures forall p: nat :: p !in RefundedPurchases(refunds) ==> Get(LockByPurchase(refunds), p) == 0
  {
    if refunds != [] {
      RefundedPurchasesComplete(refunds[..|refunds| - 1]);
    }
  }

  lemma {:induction false} WithheldIsDrained(ps: seq<nat>, l: Ledger, now: int)
    ensures var lots, pools := Holdings(l.grants, l.usages, now), PoolsOf(l, true);
            Withheld(ps, l, now) == Debt(ps, pools.lock) - Debt(ps, Drained(lots, pools).lock)
  {
    if ps != [] {
      var n := |ps| - 1;
      WithheldIsDrained(ps[..n], l, now);
      PoolsClosedForm(Holdings(l.grants, l.usages, now), PoolsOf(l, true), ps[n]);
    }
  }

  lemma DrainedOnlyShrinks(lots: seq<Lot>, pools: Pools, p: nat)
    ensures Get(pools.recovery, p) == 0 ==> Get(Drained(lots, pools).recovery, p) == 0
    ensures Get(pools.lock, p) == 0 ==> Get(Drained(lots, pools).lock, p) == 0
  {
    PoolsClosedForm(lots, pools, p);
  }

  lemma GrantedPurchasesListed(l: Ledger, now: int, ps: seq<nat>)
    requires forall i | 0 <= i < |l.grants| && l.grants[i].purchase.Some? :: l.grants[i].purchase.value in ps
    ensures Listed(Holdings(l.grants, l.usages, now), ps)
  {
    forall i | 0 <= i < |l.grants| ensures Holdings(l.grants, l.usages, now)[i].grant == l.grants[i] {
      HoldingAt(l.grants, l.usages, now, i);
    }
  }

  /** All purchases that grants, recoveries or refunds name. */
  lemma PurchasesOf(l: Ledger, now: int) returns (ps: seq<nat>)
    ensures Distinct(ps)
    ensures forall p | p in RecoveredPurchases(l.recoveries) || p in RefundedPurchases(l.refunds) :: p in ps
    ensures Listed(Holdings(l.grants, l.usages, now), ps)
  {
    var base := RecoveredPurchases(l.recoveries);
    RecoveredPurchasesComplete(l.recoveries);
    JoinedComplete(base, RefundedPurchases(l.refunds));
    var joined := Joined(base, RefundedPurchases(l.refunds));
    WithPurchasesComplete(joined, l.grants);
    ps := WithPurchases(joined, l.grants);
    GrantedPurchasesListed(l, now, ps);
  }

  lemma DebtsOfState(l: Ledger, now: int, ps: seq<nat>)
    requires Distinct(ps)
    requires forall p | p in RecoveredPurchases(l.recoveries) || p in RefundedPurchases(l.refunds) :: p in ps
    ensures var pools := PoolsOf(l, true);
            var after := Drained(Holdings(l.grants, l.usages, now), pools);
            && Debt(ps, pools.recovery) == SumRecovered(l.recoveries)
            && Debt(ps, after.recovery) == StateOf(l, now, true).recoveryDebt
            && Debt(ps, pools.lock) - Debt(ps, after.lock) == Withheld(RefundedPurchases(l.refunds), l, now)
  {
    var lots, pools := Holdings(l.grants, l.usages, now), PoolsOf(l, true);
    var recovered, refunded := RecoveredPurchases(l.recoveries), RefundedPurchases(l.refunds);
    RecoveredPurchasesComplete(l.recoveries);
    RefundedPurchasesComplete(l.refunds);
    forall p: nat
      ensures Get(pools.recovery, p) == 0 ==> Get(Drained(lots, pools).recovery, p) == 0
      ensures Get(pools.lock, p) == 0 ==> Get(Drained(lots, pools).lock, p) == 0
    {
      DrainedOnlyShrinks(lots, pools, p);
    }
    DebtOverMore(ps, recovered, pools.recovery);
    DebtOverMore(ps, recovered, Drained(lots, pools).recovery);
    DebtOverMore(ps, refunded, pools.lock);
    DebtOverMore(ps, refunded, Drained(lots, pools).lock);
    SumsRecovered(l.recoveries);
    WithheldIsDrained(refunded, l, now);
  }

  /** No credit is lost or made up: what the balances show, and what refund locks hold back, is what the grants still
      hold, less everything that was ever recovered, corrected by the adjustments. The order of the waterfall and the
      split into debt and availability have disappeared. */
  lemma BalancesAreConserved(l: Ledger, now: int)
    ensures BalanceOf(l, now).paid + BalanceOf(l, now).free + Withheld(RefundedPurchases(l.refunds), l, now)
         == TotalHeld(l, now) - SumRecovered(l.recoveries)
            + Adjusted(l.adjustments, Paid) + Adjusted(l.adjustments, Free)
  {
    var lots, pools := Holdings(l.grants, l.usages, now), PoolsOf(l, true);
    var ps := PurchasesOf(l, now);
    WaterfallConserves(lots, pools, ps);
    DebtsOfState(l, now, ps);
    TotalKinds(Snapshots(lots, pools));
  }

  // ----- paying

  /** With the free lots first, what is free is the sum up to the cut, where nothing is paid. */
  lemma FreeUpTo(lots: seq<Lot>, k: nat)
    requires k <= |lots|
    requires forall i | 0 <= i < |lots| :: lots[i].grant.kind == Free <==> i < k
    ensures Total(lots, OfKind(Free)) == Total(lots[..k], OfKind(Free)) == Total(lots[..k], Every)
    ensures Total(lots[..k], OfKind(Paid)) == 0
  {
    CutSums(lots, k, OfKind(Free));
    TotalKinds(lots[..k]);
    NoneOf(lots[..k], OfKind(Paid));
    NoneOf(lots[k..], OfKind(Free));
  }

  /** With the free grants first, free credits pay as far as they reach. */
  lemma FreePaysFirst(snapshots: seq<Lot>, cap: nat, amount: nat, k: nat)
    requires k <= |snapshots|
    requires forall i | 0 <= i < |snapshots| :: snapshots[i].grant.kind == Free <==> i < k
    ensures Total(Takes(snapshots, cap, amount), OfKind(Free)) == Min(amount, Total(snapshots, OfKind(Free)))
  {
    var takes := Takes(snapshots, cap, amount);
    TakesBelow(snapshots, cap, amount);
    FreeUpTo(takes, k);
    FreeUpTo(snapshots, k);
    TakesPrefix(snapshots, cap, amount, k);
    TakesTotal(snapshots[..k], cap, amount);
  }

  ghost predicate Adjustable(l: Ledger) {
    Adjusted(l.adjustments, Paid) <= 0 && Adjusted(l.adjustments, Free) == 0
  }

  lemma AllocationPaysFreeFirst(l: Ledger, now: int, amount: nat)
    requires WellFormed(l) && Adjustable(l) && Allocate(l, now, amount).Ok?
    ensures var takes := Allocate(l, now, amount).value;
            && Total(takes, OfKind(Free)) == Min(amount, BalanceOf(l, now).free)
            && Total(takes, OfKind(Paid)) == amount - Min(amount, BalanceOf(l, now).free)
            && Total(takes, Every) == amount
  {
    var snapshots := StateOf(l, now, true).snapshots;
    var k := EarlyPrefix(l.grants, None);
    forall i | 0 <= i < |snapshots| ensures snapshots[i].grant == l.grants[i] {
      AvailableWithinGrant(l, now, true, i);
    }
    FreePaysFirst(snapshots, Max(0, BalanceOf(l, now).paid), amount, k);
    BalancesOfState(l, now);
    AllocationSound(l, now, amount);
  }

  /** What a usage of the given amount leaves: free credits paid first, the rest was paid from the paid ones, one usage
      ledger row itemised to the amount, and everything else as it was. */
  ghost predicate Pays(l: Ledger, after: Ledger, now: int, amount: nat, reservation: Option<string>) {
    && BalanceOf(after, now).free == BalanceOf(l, now).free - Min(amount, BalanceOf(l, now).free)
    && BalanceOf(after, now).paid == BalanceOf(l, now).paid - (amount - Min(amount, BalanceOf(l, now).free))
    && |after.charges| == |l.charges| + 1 && after.charges[..|l.charges|] == l.charges
    && after.charges[|l.charges|].amount == amount && after.charges[|l.charges|].reservation == reservation
    && Charges.UsageOf(after.usages, after.charges[|l.charges|].id) == amount
    && (forall i | 0 <= i < |l.charges| ::
          Charges.UsageOf(after.usages, l.charges[i].id) == Charges.UsageOf(l.usages, l.charges[i].id))
    && after.grants == l.grants && after.recoveries == l.recoveries && after.refunds == l.refunds
    && after.adjustments == l.adjustments
  }

  lemma ChargePays(l: Ledger, now: int, amount: nat, reservation: Option<string>)
    requires WellFormed(l) && Adjustable(l) && Charges.Itemised(l.charges, l.usages, l.nextId)
    requires Allocate(l, now, amount).Ok?
    ensures Pays(l, ChargeTo(l, Allocate(l, now, amount).value, amount, reservation), now, amount, reservation)
  {
    var takes := Allocate(l, now, amount).value;
    AllocationSound(l, now, amount);
    AllocationPaysFreeFirst(l, now, amount);
    SpendingCommutes(l, now, takes, amount, reservation);
    Charges.ChargeItemises(l, takes, amount, reservation);
    forall i | 0 <= i < |l.charges|
      ensures Charges.UsageOf(l.usages + Rows(takes, l.nextId), l.charges[i].id)
           == Charges.UsageOf(l.usages, l.charges[i].id)
    {
      Charges.UsageConcat(l.usages, Rows(takes, l.nextId), l.charges[i].id);
      Charges.RowsItemise(takes, l.nextId, l.charges[i].id);
    }
  }

  /** A spend succeeds exactly when its amount is positive, nothing is owed, and what is not reserved covers it. */
  lemma SpendSucceedsExactly(l: Ledger, now: int, amount: int)
    requires Adjustable(l)
    ensures Spend(l, now, amount).Ok? <==>
            && amount > 0
            && BalanceOf(l, now).paid >= 0
            && BalanceOf(l, now).paid + BalanceOf(l, now).free - ReservedAmount(l.reservations, now) >= amount
  {
    if amount > 0 {
      AllocationFailsExactly(l, now, amount);
    }
  }

  /** A spend costs exactly its amount, free credits first. */
  lemma SpendCostsExactly(l: Ledger, now: int, amount: int)
    requires WellFormed(l) && Adjustable(l) && Charges.Itemised(l.charges, l.usages, l.nextId)
    requires Spend(l, now, amount).Ok?
    ensures Pays(l, Spend(l, now, amount).value, now, amount, None)
    ensures BalanceOf(Spend(l, now, amount).value, now).paid + BalanceOf(Spend(l, now, amount).value, now).free
         == BalanceOf(l, now).paid + BalanceOf(l, now).free - amount
    ensures Spend(l, now, amount).value.reservations == l.reservations
  {
    ChargePays(l, now, amount, None);
  }

  lemma ReservationsKeepPayment(l: Ledger, a: Ledger, rows: seq<Reservation>, now: int, amount: nat,
                                reservation: Option<string>)
    requires Pays(l, a, now, amount, reservation)
    ensures Pays(l, a.(reservations := rows), now, amount, reservation)
  {
    Solvency.SameBalances(a, a.(reservations := rows), now);
  }

  /** A capture of an active reservation costs exactly its amount, free credits first, and closes that reservation and
      no other. */
  lemma CaptureCostsExactly(l: Ledger, now: int, reference: string)
    requires WellFormed(l) && Adjustable(l) && Charges.Itemised(l.charges, l.usages, l.nextId)
    requires FindReservation(l.reservations, reference).Some?
    requires Active(l.reservations[FindReservation(l.reservations, reference).value], now)
    requires Capture(l, now, reference).Ok?
    ensures var i := FindReservation(l.reservations, reference).value;
            var out := Capture(l, now, reference).value;
            && !out.expired
            && Pays(l, out.ledger, now, l.reservations[i].amount, Some(reference))
            && out.ledger.reservations == l.reservations[i := l.reservations[i].(status := ReservationStatus.Captured)]
  {
    var i := FindReservation(l.reservations, reference).value;
    var amount := l.reservations[i].amount;
    ChargePays(l, now, amount, Some(reference));
    ReservationsKeepPayment(l, ChargeTo(l, Allocate(l, now, amount).value, amount, Some(reference)),
                            WithStatus(l.reservations, i, ReservationStatus.Captured), now, amount, Some(reference));
  }

  /** What a capture does to a reservation that it does not charge: an unknown one is refused, a released one is a
      conflict, a captured one stays, and one whose time is over is released without a charge. */
  lemma UnchargedCaptures(l: Ledger, now: int, reference: string)
    ensures match FindReservation(l.reservations, reference)
            case None => Capture(l, now, reference) == Err(BadRequest) && Release(l, reference) == Err(BadRequest)
            case Some(i) =>
              var row := l.reservations[i];
              && (row.status == ReservationStatus.Released ==> Capture(l, now, reference) == Err(Conflict))
              && (row.status == ReservationStatus.Captured ==>
                    Capture(l, now, reference) == Ok(CaptureOutcome(l, false)))
              && (row.status == ReservationStatus.Open && row.expiresAt.Some? && row.expiresAt.value <= now ==>
                    && Capture(l, now, reference).Ok? && Capture(l, now, reference).value.expired
                    && Release(l, reference) == Ok(Capture(l, now, reference).value.ledger)
                    && Capture(l, now, reference).value.ledger.reservations
                       == l.reservations[i := row.(status := ReservationStatus.Released)])
  {
  }

  // ----- what a single grant has available

  /** From the instant of its expiry on a grant pays nothing; until then a grant without a purchase pays what usage has
      left of it, and no recovery or lock touches it. */
  lemma FreeGrantExactly(l: Ledger, now: int, i: nat)
    requires i < |l.grants|
    ensures var g, available := l.grants[i], StateOf(l, now, true).snapshots[i].amount;
            && (g.expiresAt.Some? && g.expiresAt.value <= now ==> available == 0)
            && (g.purchase.None? && (g.expiresAt.Some? ==> now < g.expiresAt.value) ==>
                  available == Max(0, g.amount - Used(l.usages, g.id)))
  {
    var lots := Holdings(l.grants, l.usages, now);
    HoldingAt(l.grants, l.usages, now, i);
    SnapshotClosedForm(lots, PoolsOf(l, true), i);
    HeldUpTo(lots, i, if lots[i].grant.purchase.Some? then lots[i].grant.purchase.value else 0);
    OneMore(lots, i);
  }

  lemma OneMore(lots: seq<Lot>, i: nat)
    requires i < |lots|
    ensures forall c: Class ::
              Total(lots[..i + 1], c) == Total(lots[..i], c) + if c.Has(lots[i].grant) then lots[i].amount else 0
  {
    assert lots[..i + 1][..i] == lots[..i];
  }

  // ----- reserving

  /** Reserving again under a reference keeps the reservation there is when its amount is still the price of the
      action, and is a conflict otherwise. */
  lemma ReserveOnce(l: Ledger, now: int, reference: string, expiry: Expiry)
    requires FindReservation(l.reservations, reference).Some?
    ensures var i := FindReservation(l.reservations, reference).value;
            Reserve(l, now, ChatReply, reference, expiry)
            == if l.reservations[i].amount == 2 then Ok(l) else Err(Conflict)
  {
  }

  /** A new reservation of a chat reply succeeds exactly when nothing is owed and 2 credits are neither spent nor
      reserved; it lowers what is available by 2, unless it is over already, and the balances not at all. Without a
      wish it ends five minutes later. */
  lemma ReserveSucceedsExactly(l: Ledger, now: int, reference: string, expiry: Expiry)
    requires FindReservation(l.reservations, reference).None?
    ensures Reserve(l, now, ChatReply, reference, expiry).Ok? <==>
            && BalanceOf(l, now).paid >= 0
            && BalanceOf(l, now).paid + BalanceOf(l, now).free - ReservedAmount(l.reservations, now) >= 2
    ensures Reserve(l, now, ChatReply, reference, expiry).Ok? ==>
              var after := Reserve(l, now, ChatReply, reference, expiry).value;
              && BalanceOf(after, now).paid == BalanceOf(l, now).paid
              && BalanceOf(after, now).free == BalanceOf(l, now).free
              && BalanceOf(after, now).available
                 == BalanceOf(l, now).available - (if expiry.Until? && expiry.time <= now then 0 else 2)
              && |after.reservations| == |l.reservations| + 1
              && after.reservations[..|l.reservations|] == l.reservations
              && var row := after.reservations[|l.reservations|];
                 && row.reference == reference && row.amount == 2 && row.status == ReservationStatus.Open
                 && (expiry.Standard? ==> row.expiresAt == Some(now + 300000))
                 && (expiry.Never? ==> row.expiresAt == None)
                 && (expiry.Until? ==> row.expiresAt == Some(expiry.time))
  {
    var r := Reserve(l, now, ChatReply, reference, expiry);
    if r.Ok? {
      Solvency.SameBalances(l, r.value, now);
      Solvency.ReservedAppended(l.reservations, r.value.reservations[|l.reservations|], now);
    }
  }

  /** Releasing an active reservation gives exactly its amount back to what is available. */
  lemma ReleaseFrees(l: Ledger, now: int, reference: string)
    requires FindReservation(l.reservations, reference).Some?
    requires Active(l.reservations[FindReservation(l.reservations, reference).value], now)
    ensures Release(l, reference).Ok?
    ensures var i := FindReservation(l.reservations, reference).value;
            var after := Release(l, reference).value;
            && after.reservations == l.reservations[i := l.reservations[i].(status := ReservationStatus.Released)]
            && after == l.(reservations := after.reservations)
            && (BalanceOf(l, now).paid >= 0 ==>
                  BalanceOf(after, now).available == BalanceOf(l, now).available + l.reservations[i].amount)
  {
    var i := FindReservation(l.reservations, reference).value;
    Solvency.SameBalances(l, Release(l, reference).value, now);
    Solvency.ReservedUpdated(l.reservations, i, Released, now);
  }

  // ----- granting and owing

  lemma {:induction false} WithheldSame(ps: seq<nat>, a: Ledger, b: Ledger, now: int)
    requires forall p | p in ps ::
               Min(LockedFor(a, p), Monus(HeldFor(a, now, p), RecoveredFor(a, p)))
               == Min(LockedFor(b, p), Monus(HeldFor(b, now, p), RecoveredFor(b, p)))
    ensures Withheld(ps, a, now) == Withheld(ps, b, now)
  {
    if ps != [] {
      var n := |ps| - 1;
      assert ps[n] in ps;
      WithheldSame(ps[..n], a, b, now);
    }
  }

  lemma InsertedHeld(l: Ledger, now: int, g: Grant, c: Class)
    ensures Total(Holdings(Insert(l.grants, g), l.usages, now), c)
         == Total(Holdings(l.grants, l.usages, now), c) + if c.Has(g) then Held(g, l.usages, now).amount else 0
  {
    var k := Slot(l.grants, g);
    var before, rest := Holdings(l.grants[..k], l.usages, now), Holdings(l.grants[k..], l.usages, now);
    var lot := Held(g, l.usages, now);
    Solvency.InsertedHoldings(l.grants, g, l.usages, now);
    TotalConcat(before + [lot], rest, c);
    TotalConcat(before, [lot], c);
    TotalConcat(before, rest, c);
    TotalOfOne(lot, c);
  }

  lemma GrantRaisesBalances(l: Ledger, now: int, g: Grant)
    requires g.purchase.Some? ==> LockedFor(l, g.purchase.value) == 0
    ensures var after := l.(grants := Insert(l.grants, g));
            BalanceOf(after, now).paid + BalanceOf(after, now).free
            == BalanceOf(l, now).paid + BalanceOf(l, now).free + Held(g, l.usages, now).amount
  {
    var after := l.(grants := Insert(l.grants, g));
    BalancesAreConserved(l, now);
    BalancesAreConserved(after, now);
    InsertedHeld(l, now, g, Every);
    forall p | p in RefundedPurchases(l.refunds)
      ensures Min(LockedFor(l, p), Monus(HeldFor(l, now, p), RecoveredFor(l, p)))
           == Min(LockedFor(after, p), Monus(HeldFor(after, now, p), RecoveredFor(after, p)))
    {
      InsertedHeld(l, now, g, Linked(p));
    }
    WithheldSame(RefundedPurchases(l.refunds), l, after, now);
  }

  lemma {:induction false} UnusedGrant(usages: seq<Usage>, id: nat)
    requires forall i | 0 <= i < |usages| :: usages[i].grant < id
    ensures Used(usages, id) == 0
  {
    if usages != [] {
      UnusedGrant(usages[..|usages| - 1], id);
    }
  }

  /** A grant under a new reference succeeds exactly when its amount is positive and paid and promotional credits name
      their purchase; it adds one row and raises the balances by its amount, if it has not expired already, first paying
      off what its purchase owes. Free credits without a wish expire after 30 days, paid ones never. */
  lemma GrantAddsExactly(l: Ledger, now: int, input: GrantInput)
    requires input.reference.Some? ==> FindGrant(l.grants, input.reference.value).None?
    requires forall i | 0 <= i < |l.usages| :: l.usages[i].grant < l.nextId
    requires input.purchase.Some? ==> LockedFor(l, input.purchase.value) == 0
    ensures AddGrant(l, now, input).Ok? <==>
            input.amount > 0 && (input.kind == Paid || input.promo ==> input.purchase.Some?)
    ensures AddGrant(l, now, input).Ok? ==>
              var after := AddGrant(l, now, input).value;
              var expiresAt := if input.expiresAt.Some? then input.expiresAt
                               else if input.kind == Free then Some(now + 2592000000) else None;
              && multiset(after.grants) == multiset(l.grants) + multiset{
                   Grant(l.nextId, input.kind, input.purchase, input.promo, input.amount, expiresAt, now,
                         input.reference)}
              && BalanceOf(after, now).paid + BalanceOf(after, now).free
                 == BalanceOf(l, now).paid + BalanceOf(l, now).free
                    + if input.expiresAt.Some? && input.expiresAt.value <= now then 0 else input.amount
  {
    if AddGrant(l, now, input).Ok? {
      var g := NewGrant(l, now, input);
      var grown := l.(grants := Insert(l.grants, g));
      GrantRaisesBalances(l, now, g);
      UnusedGrant(l.usages, l.nextId);
      Sorting.InsertKeepsRows(Before, l.grants, g);
      Solvency.SameBalances(grown, AddGrant(l, now, input).value, now);
    }
  }

  /** A second grant under a reference is refused when it asks for anything else, and otherwise is the first one. */
  lemma GrantAgainExactly(l: Ledger, now: int, input: GrantInput)
    requires input.reference.Some? && FindGrant(l.grants, input.reference.value).Some?
    requires input.amount > 0 && (input.kind == Paid || input.promo ==> input.purchase.Some?)
    ensures var g := FindGrant(l.grants, input.reference.value).value;
            AddGrant(l, now, input)
            == if g.amount == input.amount && g.kind == input.kind && g.purchase == input.purchase
               then Ok(l) else Err(Conflict)
  {
  }

  /** A recovery that finds nothing left of its purchase is owed: it lowers the paid balance by its amount, and nothing
      else. */
  lemma DebtLowersPaid(l: Ledger, now: int, p: nat, amount: nat, refund: nat)
    requires HeldFor(l, now, p) <= RecoveredFor(l, p)
    ensures var after := Recover(l, p, amount, refund);
            && BalanceOf(after, now).paid == BalanceOf(l, now).paid - amount
            && BalanceOf(after, now).free == BalanceOf(l, now).free
            && StateOf(after, now, true).snapshots == StateOf(l, now, true).snapshots
  {
    var after := Recover(l, p, amount, refund);
    var lots := Holdings(l.grants, l.usages, now);
    assert after.recoveries[..|l.recoveries|] == l.recoveries;
    forall i | 0 <= i < |lots|
      ensures StateOf(after, now, true).snapshots[i] == StateOf(l, now, true).snapshots[i]
    {
      SnapshotClosedForm(lots, PoolsOf(l, true), i);
      SnapshotClosedForm(lots, PoolsOf(after, true), i);
      HeldUpTo(lots, i, p);
    }
    assert StateOf(after, now, true).snapshots == StateOf(l, now, true).snapshots;
    RecoveryRaisesDebt(l, now, p, amount, refund);
  }

  lemma HeldUpTo(lots: seq<Lot>, i: nat, p: nat)
    requires i < |lots|
    ensures Total(lots[..i], Linked(p)) <= Total(lots[..i + 1], Linked(p)) <= Total(lots, Linked(p))
  {
    CutSums(lots, i + 1, Linked(p));
    assert lots[..i + 1][..i] == lots[..i];
  }

  /** A recovery with no lock on its purchase lowers the balances together by exactly its amount. */
  lemma RecoveryLowersBalances(l: Ledger, now: int, p: nat, amount: nat, refund: nat)
    requires LockedFor(l, p) == 0
    ensures var after := Recover(l, p, amount, refund);
            BalanceOf(after, now).paid + BalanceOf(after, now).free
            == BalanceOf(l, now).paid + BalanceOf(l, now).free - amount
  {
    var after := Recover(l, p, amount, refund);
    assert after.recoveries[..|l.recoveries|] == l.recoveries;
    BalancesAreConserved(l, now);
    BalancesAreConserved(after, now);
    WithheldSame(RefundedPurchases(l.refunds), l, after, now);
  }
}
