/** Solvency of active reservations over every run of the credit engine and of user refunds. */
module Solvency {
  import opened Prelude
  import opened Tables
  import opened Waterfall
  import opened Allocation
  import opened CreditRules
  import opened PurchaseRules
  import opened PurchaseCredits

  datatype System = System(store: Store, now: int)

  datatype Step =
    | DoReserve(action: ActionType, reference: string, expiry: Expiry)
    | DoCapture(reference: string)
    | DoRelease(reference: string)
    | DoSpend(amount: int)
    | DoGrant(input: GrantInput)
    | DoRequestRefund(purchase: nat, key: string)
    | DoAnswer(refund: nat, answer: ProviderAnswer)
    | DoCompleteRefund(refund: nat)
    | DoTick(to: int)

  /** No grant passes its expiry between the two clock readings. */
  predicate NoGrantExpires(grants: seq<Grant>, now: int, to: int) {
    forall i | 0 <= i < |grants| :: Expired(grants[i].expiresAt, now) == Expired(grants[i].expiresAt, to)
  }

  /** Steps the run may take: provider answers and completions meet a refund that still waits for them, the clock
      does not go back, and it carries no grant over its expiry. */
  predicate Enabled(y: System, step: Step) {
    match step
    case DoAnswer(i, _) => i < |y.store.ledger.refunds| && y.store.ledger.refunds[i].status == PaymentProcessing
    case DoCompleteRefund(i) =>
      i < |y.store.ledger.refunds| && y.store.ledger.refunds[i].status in {PaymentProcessing, PaymentSucceeded}
    case DoTick(to) => y.now <= to && NoGrantExpires(y.store.ledger.grants, y.now, to)
    case _ => true
  }

  function WithLedger(y: System, r: Result<Ledger, Error>): System {
    match r
    case Err(_) => y
    case Ok(l) => y.(store := y.store.(ledger := l))
  }

  function WithStore(y: System, r: Result<Store, Error>): System {
    match r
    case Err(_) => y
    case Ok(s) => y.(store := s)
  }

  /** A failed transaction leaves the system as it was. */
  function Next(y: System, step: Step): System
    requires Enabled(y, step)
  {
    var l := y.store.ledger;
    match step
    case DoReserve(a, r, e) => WithLedger(y, Reserve(l, y.now, a, r, e))
    case DoCapture(r) =>
      (match Capture(l, y.now, r)
       case Err(_) => y
       case Ok(out) => y.(store := y.store.(ledger := out.ledger)))
    case DoRelease(r) => WithLedger(y, Release(l, r))
    case DoSpend(n) => WithLedger(y, Spend(l, y.now, n))
    case DoGrant(input) => WithLedger(y, AddGrant(l, y.now, input))
    case DoRequestRefund(p, key) => WithStore(y, PrepareRefund(y.store, y.now, p, key))
    case DoAnswer(i, answer) => y.(store := RecordAnswer(y.store, i, answer))
    case DoCompleteRefund(i) => WithStore(y, CompleteRefund(y.store, i, None))
    case DoTick(to) => y.(now := to)
  }

  ghost predicate Run(y: System, steps: seq<Step>, z: System)
    decreases |steps|
  {
    if steps == [] then y == z
    else Enabled(y, steps[0]) && Run(Next(y, steps[0]), steps[1..], z)
  }

  // ----- the invariant

  ghost predicate RefundRowsMatch(refunds: seq<Refund>) {
    forall i | 0 <= i < |refunds| && Locks(refunds[i].status) :: refunds[i].recoveryAmount == refunds[i].lockedAmount
  }

  ghost predicate Positive(rows: seq<Reservation>) {
    forall i | 0 <= i < |rows| :: rows[i].amount > 0
  }

  /** Active reservations are backed by the paid and free balances. */
  ghost predicate Backed(l: Ledger, now: int) {
    ReservedAmount(l.reservations, now) > 0 ==>
      && BalanceOf(l, now).paid >= 0
      && BalanceOf(l, now).paid + BalanceOf(l, now).free >= ReservedAmount(l.reservations, now)
  }

  ghost predicate AllCovered(l: Ledger, now: int) {
    forall p: nat :: Covered(l, now, p)
  }

  ghost predicate Solvent(l: Ledger, now: int) {
    && WellFormed(l)
    && Adjusted(l.adjustments, Paid) <= 0 && Adjusted(l.adjustments, Free) == 0
    && Positive(l.reservations)
    && RefundRowsMatch(l.refunds)
    && AllCovered(l, now)
    && Backed(l, now)
  }

  // ----- reservations

  lemma {:induction false} ReservedAppended(rows: seq<Reservation>, row: Reservation, now: int)
    ensures ReservedAmount(rows + [row], now) == ReservedAmount(rows, now) + if Active(row, now) then row.amount else 0
  {
    assert (rows + [row])[..|rows|] == rows;
  }

  lemma {:induction false} ReservedUpdated(rows: seq<Reservation>, i: nat, status: ReservationStatus, now: int)
    requires i < |rows| && status != ReservationStatus.Open
    ensures ReservedAmount(WithStatus(rows, i, status), now)
         == ReservedAmount(rows, now) - if Active(rows[i], now) then rows[i].amount else 0
  {
    var n := |rows| - 1;
    var after := WithStatus(rows, i, status);
    if i < n {
      ReservedUpdated(rows[..n], i, status, now);
      assert after[..n] == WithStatus(rows[..n], i, status);
    } else {
      assert after[..n] == rows[..n];
    }
  }

  lemma {:induction false} ReservedIncludes(rows: seq<Reservation>, i: nat, now: int)
    requires i < |rows| && Active(rows[i], now)
    ensures ReservedAmount(rows, now) >= rows[i].amount
  {
    if i < |rows| - 1 {
      ReservedIncludes(rows[..|rows| - 1], i, now);
    }
  }

  lemma {:induction false} NoneActive(rows: seq<Reservation>, now: int)
    requires !AnyActive(rows, now)
    ensures ReservedAmount(rows, now) == 0
  {
    if rows != [] {
      var n := |rows| - 1;
      assert forall i | 0 <= i < n :: rows[..n][i] == rows[i];
      NoneActive(rows[..n], now);
    }
  }

  lemma {:induction false} ReservedShrinks(rows: seq<Reservation>, now: int, to: int)
    requires now <= to
    ensures ReservedAmount(rows, to) <= ReservedAmount(rows, now)
  {
    if rows != [] {
      ReservedShrinks(rows[..|rows| - 1], now, to);
    }
  }

  /** The balances and the covers do not read the reservations. */
  lemma SameBalances(a: Ledger, b: Ledger, now: int)
    requires a.grants == b.grants && a.usages == b.usages && a.recoveries == b.recoveries
    requires a.refunds == b.refunds && a.adjustments == b.adjustments
    ensures StateOf(a, now, true) == StateOf(b, now, true)
    ensures BalanceOf(a, now).paid == BalanceOf(b, now).paid && BalanceOf(a, now).free == BalanceOf(b, now).free
    ensures AllCovered(a, now) ==> AllCovered(b, now)
  {
    if AllCovered(a, now) {
      forall p: nat ensures Covered(b, now, p) {
        assert Covered(a, now, p);
      }
    }
  }

  lemma AppendKeepsSolvent(l: Ledger, now: int, row: Reservation)
    requires Solvent(l, now) && row.amount > 0
    requires BalanceOf(l, now).paid >= 0
    requires BalanceOf(l, now).paid + BalanceOf(l, now).free - ReservedAmount(l.reservations, now) >= row.amount
    ensures Solvent(l.(reservations := l.reservations + [row]), now)
  {
    var after := l.(reservations := l.reservations + [row]);
    SameBalances(l, after, now);
    ReservedAppended(l.reservations, row, now);
  }

  lemma ReserveKeepsSolvent(l: Ledger, now: int, action: ActionType, reference: string, expiry: Expiry)
    requires Solvent(l, now)
    requires Reserve(l, now, action, reference, expiry).Ok?
    ensures Solvent(Reserve(l, now, action, reference, expiry).value, now)
  {
    if FindReservation(l.reservations, reference).None? {
      var amount, expiresAt := ActionPrice(action), ExpiresAt(expiry, now);
      AppendKeepsSolvent(l, now, Reservation(reference, action, amount, ReservationStatus.Open, expiresAt));
    }
  }

  /** A charge whose takes are feasible keeps the tables solvent as long as the rest stays backed. */
  lemma ChargeKeepsCovers(l: Ledger, now: int, takes: seq<Lot>, amount: nat, reservation: Option<string>)
    requires Solvent(l, now)
    requires Below(takes, StateOf(l, now, true).snapshots)
    ensures AllCovered(ChargeTo(l, takes, amount, reservation), now)
  {
    var after := ChargeTo(l, takes, amount, reservation);
    var lots := Holdings(l.grants, l.usages, now);
    var rest := Holdings(l.grants, after.usages, now);
    HoldingsAfterCharge(l, now, takes, amount, reservation);
    forall p: nat
      ensures Covered(after, now, p)
    {
      assert Covered(l, now, p);
      TotalAdds(takes, rest, lots, Linked(p));
      TotalMonotone(takes, StateOf(l, now, true).snapshots, Linked(p));
      AvailableClosedForm(lots, PoolsOf(l, true), p);
    }
  }

  lemma SpendKeepsSolvent(l: Ledger, now: int, amount: int)
    requires Solvent(l, now)
    requires Spend(l, now, amount).Ok?
    ensures Solvent(Spend(l, now, amount).value, now)
  {
    var takes := Allocate(l, now, amount).value;
    AllocationSound(l, now, amount);
    SpendingCommutes(l, now, takes, amount, None);
    ChargeKeepsCovers(l, now, takes, amount, None);
  }

  /** An active reservation can always be captured. */
  lemma CaptureNeverFails(l: Ledger, now: int, reference: string)
    requires Solvent(l, now)
    requires FindReservation(l.reservations, reference).Some?
    requires Active(l.reservations[FindReservation(l.reservations, reference).value], now)
    ensures Capture(l, now, reference).Ok?
    ensures !Capture(l, now, reference).value.expired
  {
    var i := FindReservation(l.reservations, reference).value;
    ReservedIncludes(l.reservations, i, now);
    AllocationFailsExactly(l, now, l.reservations[i].amount);
  }

  /** Capturing an active reservation fails exactly when the balances do not cover its amount. */
  lemma CaptureFailsExactly(l: Ledger, now: int, reference: string)
    requires Adjusted(l.adjustments, Paid) <= 0 && Adjusted(l.adjustments, Free) == 0
    requires FindReservation(l.reservations, reference).Some?
    requires Active(l.reservations[FindReservation(l.reservations, reference).value], now)
    ensures Capture(l, now, reference).Ok?
        <==> l.reservations[FindReservation(l.reservations, reference).value].amount
             <= BalanceOf(l, now).free + Max(0, BalanceOf(l, now).paid)
  {
    AllocationFailsExactly(l, now, l.reservations[FindReservation(l.reservations, reference).value].amount);
  }

  lemma StatusKeepsSolvent(l: Ledger, now: int, i: nat, status: ReservationStatus)
    requires Solvent(l, now)
    requires i < |l.reservations| && status != ReservationStatus.Open
    ensures Solvent(l.(reservations := WithStatus(l.reservations, i, status)), now)
  {
    var after := l.(reservations := WithStatus(l.reservations, i, status));
    SameBalances(l, after, now);
    ReservedUpdated(l.reservations, i, status, now);
  }

  lemma CaptureKeepsSolvent(l: Ledger, now: int, reference: string)
    requires Solvent(l, now)
    requires Capture(l, now, reference).Ok?
    ensures Solvent(Capture(l, now, reference).value.ledger, now)
  {
    var i := FindReservation(l.reservations, reference).value;
    var row := l.reservations[i];
    if row.status == ReservationStatus.Open {
      if Expired(row.expiresAt, now) {
        StatusKeepsSolvent(l, now, i, Released);
      } else {
        var takes := Allocate(l, now, row.amount).value;
        var charged := ChargeTo(l, takes, row.amount, Some(reference));
        var after := charged.(reservations := WithStatus(l.reservations, i, ReservationStatus.Captured));
        AllocationSound(l, now, row.amount);
        SpendingCommutes(l, now, takes, row.amount, Some(reference));
        ChargeKeepsCovers(l, now, takes, row.amount, Some(reference));
        SameBalances(charged, after, now);
        ReservedIncludes(l.reservations, i, now);
        ReservedUpdated(l.reservations, i, ReservationStatus.Captured, now);
      }
    }
  }

  lemma ReleaseKeepsSolvent(l: Ledger, now: int, reference: string)
    requires Solvent(l, now)
    requires Release(l, reference).Ok?
    ensures Solvent(Release(l, reference).value, now)
  {
    var i := FindReservation(l.reservations, reference).value;
    if l.reservations[i].status == ReservationStatus.Open {
      StatusKeepsSolvent(l, now, i, Released);
    }
  }

  lemma InsertedHoldings(grants: seq<Grant>, g: Grant, usages: seq<Usage>, now: int)
    ensures var k := Slot(grants, g);
            var before, rest := Holdings(grants[..k], usages, now), Holdings(grants[k..], usages, now);
            && Holdings(grants, usages, now) == before + rest
            && Holdings(Insert(grants, g), usages, now) == before + [Held(g, usages, now)] + rest
  {
    var k := Slot(grants, g);
    assert grants == grants[..k] + grants[k..];
    HoldingsConcat(grants[..k], grants[k..], usages, now);
    HoldingsConcat(grants[..k] + [g], grants[k..], usages, now);
    HoldingsConcat(grants[..k], [g], usages, now);
    assert [g][..0] == [];
  }

  lemma OneMoreHolds(before: seq<Lot>, lot: Lot, rest: seq<Lot>, c: Class)
    ensures Total(before + [lot] + rest, c) >= Total(before + rest, c)
  {
    TotalConcat(before + [lot], rest, c);
    TotalConcat(before, [lot], c);
    TotalConcat(before, rest, c);
  }

  /** A further grant lowers no balance and no purchase's holdings. */
  lemma GrantRaises(l: Ledger, now: int, g: Grant)
    ensures var after := l.(grants := Insert(l.grants, g));
            && BalanceOf(after, now).paid >= BalanceOf(l, now).paid
            && BalanceOf(after, now).free >= BalanceOf(l, now).free
            && forall p: nat :: HeldFor(after, now, p) >= HeldFor(l, now, p)
  {
    var k := Slot(l.grants, g);
    var before, rest := Holdings(l.grants[..k], l.usages, now), Holdings(l.grants[k..], l.usages, now);
    var lot := Held(g, l.usages, now);
    InsertedHoldings(l.grants, g, l.usages, now);
    MoreGrants(before, lot, rest, PoolsOf(l, true));
    DebtMonotone(RecoveredPurchases(l.recoveries),
                 Drained(before + [lot] + rest, PoolsOf(l, true)).recovery,
                 Drained(before + rest, PoolsOf(l, true)).recovery);
    forall p: nat
      ensures Total(before + [lot] + rest, Linked(p)) >= Total(before + rest, Linked(p))
    {
      OneMoreHolds(before, lot, rest, Linked(p));
    }
  }

  lemma GrantKeepsSolvent(l: Ledger, now: int, input: GrantInput)
    requires Solvent(l, now)
    requires AddGrant(l, now, input).Ok?
    ensures Solvent(AddGrant(l, now, input).value, now)
  {
    var after := AddGrant(l, now, input).value;
    if after != l {
      var g := NewGrant(l, now, input);
      GrantRaises(l, now, g);
      InsertKeepsOrder(l.grants, g);
      assert forall h | h in after.grants :: h in multiset(after.grants);
      forall p: nat
        ensures Covered(after, now, p)
      {
        assert Covered(l, now, p);
      }
    }
  }

  lemma {:induction false} TickKeepsHoldings(grants: seq<Grant>, usages: seq<Usage>, now: int, to: int)
    requires NoGrantExpires(grants, now, to)
    ensures Holdings(grants, usages, to) == Holdings(grants, usages, now)
  {
    if grants != [] {
      var n := |grants| - 1;
      assert forall i | 0 <= i < n :: grants[..n][i] == grants[i];
      TickKeepsHoldings(grants[..n], usages, now, to);
    }
  }

  lemma TickKeepsSolvent(l: Ledger, now: int, to: int)
    requires Solvent(l, now) && now <= to && NoGrantExpires(l.grants, now, to)
    ensures Solvent(l, to)
  {
    TickKeepsHoldings(l.grants, l.usages, now, to);
    ReservedShrinks(l.reservations, now, to);
    forall p: nat
      ensures Covered(l, to, p)
    {
      assert Covered(l, now, p);
    }
  }

  /** Locking what is refundable of one purchase, while no reservation is active. */
  lemma LockKeepsSolvent(l: Ledger, now: int, p: nat, row: Refund)
    requires Solvent(l, now) && ReservedAmount(l.reservations, now) == 0
    requires row.purchase == p && row.status == PaymentProcessing && row.recoveryAmount == row.lockedAmount
    requires Covered(AppendRefund(l, row), now, p)
    ensures Solvent(AppendRefund(l, row), now)
  {
    var after := AppendRefund(l, row);
    forall q: nat
      ensures Covered(after, now, q)
    {
      assert Covered(l, now, q);
      LockAppended(l.refunds, row, q);
    }
  }

  lemma RequestKeepsSolvent(s: Store, now: int, p: nat, key: string)
    requires Solvent(s.ledger, now)
    requires PrepareRefund(s, now, p, key).Ok?
    ensures Solvent(PrepareRefund(s, now, p, key).value.ledger, now)
  {
    if FindRefundByKey(s.ledger.refunds, p, key).None? {
      var quote := QuoteFor(s, now, p).value;
      var row := UserRefund(s.ledger.nextId, p, key, quote);
      EligibleQuote(s, now, p, quote);
      LockRefundable(s.ledger, now, p, row);
      NoneActive(s.ledger.reservations, now);
      LockKeepsSolvent(s.ledger, now, p, row);
    }
  }

  lemma AnswerLowersLocks(refunds: seq<Refund>, i: nat, answer: ProviderAnswer, p: nat)
    requires i < |refunds| && refunds[i].status == PaymentProcessing
    ensures Get(LockByPurchase(refunds[i := refunds[i].(status := AnswerStatus(answer))]), p)
         <= Get(LockByPurchase(refunds), p)
  {
    LockUpdated(refunds, i, AnswerStatus(answer), p);
  }

  lemma AnswerKeepsSolvent(s: Store, now: int, i: nat, answer: ProviderAnswer)
    requires Solvent(s.ledger, now)
    requires i < |s.ledger.refunds| && s.ledger.refunds[i].status == PaymentProcessing
    ensures Solvent(RecordAnswer(s, i, answer).ledger, now)
  {
    var l := s.ledger;
    var after := RecordAnswer(s, i, answer).ledger;
    var lots := Holdings(l.grants, l.usages, now);
    forall p: nat
      ensures Get(LockByPurchase(after.refunds), p) <= Get(LockByPurchase(l.refunds), p)
    {
      AnswerLowersLocks(l.refunds, i, answer, p);
    }
    LighterPools(lots, PoolsOf(after, true), PoolsOf(l, true));
    TotalMonotone(StateOf(l, now, true).snapshots, StateOf(after, now, true).snapshots, OfKind(Paid));
    TotalMonotone(StateOf(l, now, true).snapshots, StateOf(after, now, true).snapshots, OfKind(Free));
    DebtIgnoresRefunds(l, after, now);
    forall p: nat
      ensures Covered(after, now, p)
    {
      assert Covered(l, now, p);
    }
  }

  lemma CompleteKeepsSolvent(s: Store, now: int, i: nat)
    requires Solvent(s.ledger, now)
    requires i < |s.ledger.refunds| && s.ledger.refunds[i].status in {PaymentProcessing, PaymentSucceeded}
    requires CompleteRefund(s, i, None).Ok?
    ensures Solvent(CompleteRefund(s, i, None).value.ledger, now)
  {
    var l := s.ledger;
    var after := CompleteRefund(s, i, None).value.ledger;
    assert Covered(l, now, l.refunds[i].purchase);
    CompletionIsNeutral(s, now, i, None);
    CompletedPools(l, after, i);
    forall q: nat
      ensures Covered(after, now, q)
    {
      assert Covered(l, now, q);
    }
  }

  lemma StepKeepsSolvent(y: System, step: Step)
    requires Solvent(y.store.ledger, y.now)
    requires Enabled(y, step)
    ensures Solvent(Next(y, step).store.ledger, Next(y, step).now)
  {
    var l := y.store.ledger;
    match step
    case DoReserve(a, r, e) => if Reserve(l, y.now, a, r, e).Ok? { ReserveKeepsSolvent(l, y.now, a, r, e); }
    case DoCapture(r) => if Capture(l, y.now, r).Ok? { CaptureKeepsSolvent(l, y.now, r); }
    case DoRelease(r) => if Release(l, r).Ok? { ReleaseKeepsSolvent(l, y.now, r); }
    case DoSpend(n) => if Spend(l, y.now, n).Ok? { SpendKeepsSolvent(l, y.now, n); }
    case DoGrant(input) => if AddGrant(l, y.now, input).Ok? { GrantKeepsSolvent(l, y.now, input); }
    case DoRequestRefund(p, key) =>
      if PrepareRefund(y.store, y.now, p, key).Ok? { RequestKeepsSolvent(y.store, y.now, p, key); }
    case DoAnswer(i, answer) => AnswerKeepsSolvent(y.store, y.now, i, answer);
    case DoCompleteRefund(i) => if CompleteRefund(y.store, i, None).Ok? { CompleteKeepsSolvent(y.store, y.now, i); }
    case DoTick(to) => TickKeepsSolvent(l, y.now, to);
  }

  /** In every state of every run, an active reservation is backed and can be captured. */
  lemma {:induction false} SolventOverRuns(y: System, steps: seq<Step>, z: System, reference: string)
    requires Solvent(y.store.ledger, y.now)
    requires Run(y, steps, z)
    ensures Solvent(z.store.ledger, z.now)
    ensures var found := FindReservation(z.store.ledger.reservations, reference);
            found.Some? && Active(z.store.ledger.reservations[found.value], z.now)
            ==> Capture(z.store.ledger, z.now, reference).Ok?
    decreases |steps|
  {
    if steps == [] {
      var found := FindReservation(z.store.ledger.reservations, reference);
      if found.Some? && Active(z.store.ledger.reservations[found.value], z.now) {
        CaptureNeverFails(z.store.ledger, z.now, reference);
      }
    } else {
      StepKeepsSolvent(y, steps[0]);
      SolventOverRuns(Next(y, steps[0]), steps[1..], z, reference);
    }
  }

  /** A user without any credit row is solvent, so every run from there is. */
  lemma EmptyIsSolvent(now: int, nextId: nat)
    ensures Solvent(Ledger([], [], [], [], [], [], [], nextId), now)
  {
  }

  /** One free grant and nothing else: what it holds is what is available. */
  lemma OneGrantSnapshot(g: Grant, l: Ledger, now: int, held: nat)
    requires g.purchase.None? && g.kind == Free && Held(g, [], now) == Lot(g, held)
    requires l.grants == [g] && l.usages == [] && l.recoveries == [] && l.refunds == []
    ensures StateOf(l, now, true) == GrantState([Lot(g, held)], 0)
  {
    var lots := Holdings([g], [], now);
    HoldingAt([g], [], now, 0);
    assert lots == [Lot(g, held)];
    SnapshotAt(lots, PoolsOf(l, true), 0);
  }

  lemma OneGrantState(g: Grant, l: Ledger, now: int, held: nat)
    requires g.purchase.None? && g.kind == Free && Held(g, [], now) == Lot(g, held)
    requires l.grants == [g] && l.usages == [] && l.recoveries == [] && l.refunds == [] && l.adjustments == []
    ensures StateOf(l, now, true) == GrantState([Lot(g, held)], 0)
    ensures BalanceOf(l, now).paid == 0 && BalanceOf(l, now).free == held
  {
    OneGrantSnapshot(g, l, now, held);
    TotalOfOne(Lot(g, held), OfKind(Paid));
    TotalOfOne(Lot(g, held), OfKind(Free));
  }

  lemma ReservationOnOneGrant(g: Grant, r: Reservation, l: Ledger)
    requires g == Grant(0, Free, None, false, 2, Some(10), 0, None)
    requires r == Reservation("r", ChatReply, 2, ReservationStatus.Open, None)
    requires l == Ledger([g], [], [], [], [], [], [r], 1)
    ensures Solvent(l, 0)
  {
    OneGrantState(g, l, 0, 2);
    assert [r][..0] == [];
    assert ReservedAmount([r], 0) == 2;
  }

  lemma CaptureWithoutCredits(g: Grant, r: Reservation, l: Ledger)
    requires g == Grant(0, Free, None, false, 2, Some(10), 0, None)
    requires r == Reservation("r", ChatReply, 2, ReservationStatus.Open, None)
    requires l == Ledger([g], [], [], [], [], [], [r], 1)
    ensures Capture(l, 10, "r") == Err(Insufficient)
  {
    OneGrantState(g, l, 10, 0);
    AllocationFailsExactly(l, 10, 2);
    assert Allocate(l, 10, 2) == Err(Insufficient);
  }

  /** The clock condition is needed: a free grant that expires under an active reservation makes its capture fail. */
  lemma ExpiryBreaksSolvency()
    ensures exists l: Ledger, now: int, to: int ::
              && Solvent(l, now) && now <= to && l.reservations != []
              && Active(l.reservations[0], to)
              && Capture(l, to, "r") == Err(Insufficient)
  {
    var g := Grant(0, Free, None, false, 2, Some(10), 0, None);
    var r := Reservation("r", ChatReply, 2, ReservationStatus.Open, None);
    var l := Ledger([g], [], [], [], [], [], [r], 1);
    ReservationOnOneGrant(g, r, l);
    CaptureWithoutCredits(g, r, l);
  }
}
