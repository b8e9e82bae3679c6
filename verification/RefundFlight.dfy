/** A user refund between its request and its end: what stays unspendable over every run. */
module RefundFlight {
  import opened Prelude
  import opened Tables
  import opened Allocation
  import opened CreditRules
  import opened PurchaseRules
  import opened PurchaseCredits
  import opened Solvency

  /** The step gives the purchase no new grant and no answer that gives its locked credits back. */
  predicate Withholds(y: System, step: Step, p: nat) {
    match step
    case DoGrant(input) => input.purchase != Some(p)
    case DoAnswer(i, answer) =>
      i < |y.store.ledger.refunds| && y.store.ledger.refunds[i].purchase == p ==> answer in {Succeeds, Processes}
    case _ => true
  }

  ghost predicate FlightRun(y: System, steps: seq<Step>, p: nat, z: System)
    decreases |steps|
  {
    if steps == [] then y == z
    else
      && Enabled(y, steps[0]) && Withholds(y, steps[0], p)
      && FlightRun(Next(y, steps[0]), steps[1..], p, z)
  }

  lemma SameRowsAbsorbed(a: Ledger, b: Ledger, now: int, p: nat)
    requires a.grants == b.grants && a.usages == b.usages && a.recoveries == b.recoveries && a.refunds == b.refunds
    ensures Absorbed(a, now, p) <==> Absorbed(b, now, p)
  {
  }

  /** Spending only lowers what the grants hold. */
  lemma ChargeKeepsAbsorbed(l: Ledger, now: int, takes: seq<Lot>, amount: nat, reservation: Option<string>, p: nat)
    requires DistinctGrants(l.grants) && Below(takes, StateOf(l, now, true).snapshots)
    requires Absorbed(l, now, p)
    ensures Absorbed(ChargeTo(l, takes, amount, reservation), now, p)
  {
    var after := ChargeTo(l, takes, amount, reservation);
    HoldingsAfterCharge(l, now, takes, amount, reservation);
    TotalAdds(takes, Holdings(l.grants, after.usages, now), Holdings(l.grants, l.usages, now), Linked(p));
  }

  lemma SpendKeepsAbsorbed(l: Ledger, now: int, amount: int, p: nat)
    requires Solvent(l, now) && Absorbed(l, now, p) && Spend(l, now, amount).Ok?
    ensures Absorbed(Spend(l, now, amount).value, now, p)
  {
    AllocationSound(l, now, amount);
    ChargeKeepsAbsorbed(l, now, Allocate(l, now, amount).value, amount, None, p);
  }

  lemma CaptureKeepsAbsorbed(l: Ledger, now: int, reference: string, p: nat)
    requires Solvent(l, now) && Absorbed(l, now, p) && Capture(l, now, reference).Ok?
    ensures Absorbed(Capture(l, now, reference).value.ledger, now, p)
  {
    var row := l.reservations[FindReservation(l.reservations, reference).value];
    if row.status == ReservationStatus.Open && !Expired(row.expiresAt, now) {
      AllocationSound(l, now, row.amount);
      ChargeKeepsAbsorbed(l, now, Allocate(l, now, row.amount).value, row.amount, Some(reference), p);
    }
  }

  lemma GrantKeepsHeld(l: Ledger, now: int, g: Grant, p: nat)
    requires g.purchase != Some(p)
    ensures HeldFor(l.(grants := Insert(l.grants, g)), now, p) == HeldFor(l, now, p)
  {
    var k := Slot(l.grants, g);
    var before, rest := Holdings(l.grants[..k], l.usages, now), Holdings(l.grants[k..], l.usages, now);
    var lot := Held(g, l.usages, now);
    InsertedHoldings(l.grants, g, l.usages, now);
    TotalConcat(before + [lot], rest, Linked(p));
    TotalConcat(before, [lot], Linked(p));
    TotalConcat(before, rest, Linked(p));
    TotalOfOne(lot, Linked(p));
  }

  lemma GrantKeepsAbsorbed(l: Ledger, now: int, input: GrantInput, p: nat)
    requires Absorbed(l, now, p) && AddGrant(l, now, input).Ok? && input.purchase != Some(p)
    ensures Absorbed(AddGrant(l, now, input).value, now, p)
  {
    if AddGrant(l, now, input).value != l {
      GrantKeepsHeld(l, now, NewGrant(l, now, input), p);
    }
  }

  lemma RequestKeepsAbsorbed(s: Store, now: int, q: nat, key: string, p: nat)
    requires Absorbed(s.ledger, now, p) && PrepareRefund(s, now, q, key).Ok?
    ensures Absorbed(PrepareRefund(s, now, q, key).value.ledger, now, p)
  {
    if FindRefundByKey(s.ledger.refunds, q, key).None? {
      LockAppended(s.ledger.refunds, UserRefund(s.ledger.nextId, q, key, QuoteFor(s, now, q).value), p);
    }
  }

  lemma AnswerKeepsAbsorbed(s: Store, now: int, i: nat, answer: ProviderAnswer, p: nat)
    requires i < |s.ledger.refunds| && Locks(s.ledger.refunds[i].status)
    requires s.ledger.refunds[i].purchase == p ==> answer in {Succeeds, Processes}
    requires Absorbed(s.ledger, now, p)
    ensures Absorbed(RecordAnswer(s, i, answer).ledger, now, p)
  {
    LockUpdated(s.ledger.refunds, i, AnswerStatus(answer), p);
  }

  lemma CompleteKeepsAbsorbed(s: Store, now: int, i: nat, p: nat)
    requires Solvent(s.ledger, now) && Absorbed(s.ledger, now, p)
    requires i < |s.ledger.refunds| && Locks(s.ledger.refunds[i].status)
    requires CompleteRefund(s, i, None).Ok?
    ensures Absorbed(CompleteRefund(s, i, None).value.ledger, now, p)
  {
    CompletedPools(s.ledger, CompleteRefund(s, i, None).value.ledger, i);
  }

  lemma StepKeepsAbsorbed(y: System, step: Step, p: nat)
    requires Solvent(y.store.ledger, y.now) && Absorbed(y.store.ledger, y.now, p)
    requires Enabled(y, step) && Withholds(y, step, p)
    ensures Absorbed(Next(y, step).store.ledger, Next(y, step).now, p)
  {
    var l := y.store.ledger;
    match step
    case DoReserve(a, r, e) =>
      if Reserve(l, y.now, a, r, e).Ok? { SameRowsAbsorbed(l, Reserve(l, y.now, a, r, e).value, y.now, p); }
    case DoCapture(r) => if Capture(l, y.now, r).Ok? { CaptureKeepsAbsorbed(l, y.now, r, p); }
    case DoRelease(r) => if Release(l, r).Ok? { SameRowsAbsorbed(l, Release(l, r).value, y.now, p); }
    case DoSpend(n) => if Spend(l, y.now, n).Ok? { SpendKeepsAbsorbed(l, y.now, n, p); }
    case DoGrant(input) => if AddGrant(l, y.now, input).Ok? { GrantKeepsAbsorbed(l, y.now, input, p); }
    case DoRequestRefund(q, key) =>
      if PrepareRefund(y.store, y.now, q, key).Ok? { RequestKeepsAbsorbed(y.store, y.now, q, key, p); }
    case DoAnswer(i, answer) => AnswerKeepsAbsorbed(y.store, y.now, i, answer, p);
    case DoCompleteRefund(i) =>
      if CompleteRefund(y.store, i, None).Ok? { CompleteKeepsAbsorbed(y.store, y.now, i, p); }
    case DoTick(to) => TickKeepsHoldings(l.grants, l.usages, y.now, to);
  }

  /** Once locks and recovery ask for all that a purchase holds, no credit of it can be spent in any later state,
      whatever is reserved, spent, captured, granted elsewhere, refunded, answered or completed, and also after the
      refund has ended well, until the purchase is granted credits again or its refund fails. */
  lemma {:induction false} UnspendableOverRuns(y: System, steps: seq<Step>, p: nat, z: System)
    requires Solvent(y.store.ledger, y.now) && Absorbed(y.store.ledger, y.now, p)
    requires FlightRun(y, steps, p, z)
    ensures Solvent(z.store.ledger, z.now) && Absorbed(z.store.ledger, z.now, p)
    ensures Unspendable(z.store.ledger, z.now, p)
    decreases |steps|
  {
    if steps == [] {
      UnspendableExactly(z.store.ledger, z.now, p);
    } else {
      StepKeepsSolvent(y, steps[0]);
      StepKeepsAbsorbed(y, steps[0], p);
      UnspendableOverRuns(Next(y, steps[0]), steps[1..], p, z);
    }
  }

  /** From the request of a refund on: of a purchase without plain free credits nothing can be spent in any state of
      the flight. */
  lemma NothingSpentInFlight(y: System, p: nat, key: string, steps: seq<Step>, z: System)
    requires Solvent(y.store.ledger, y.now)
    requires FindRefundByKey(y.store.ledger.refunds, p, key).None? && PrepareRefund(y.store, y.now, p, key).Ok?
    requires PlainFreeLeft(y.store.ledger, y.now, p) == 0
    requires FlightRun(Next(y, DoRequestRefund(p, key)), steps, p, z)
    ensures Unspendable(z.store.ledger, z.now, p)
  {
    var requested := Next(y, DoRequestRefund(p, key));
    RefundInFlight(y.store, y.now, p, key);
    UnspendableExactly(requested.store.ledger, y.now, p);
    StepKeepsSolvent(y, DoRequestRefund(p, key));
    UnspendableOverRuns(requested, steps, p, z);
  }

  /** In every state of every run, completing any refund that waits for its provider changes no availability, no debt
      and no balance. */
  lemma CompletionIsNeutralOverRuns(y: System, steps: seq<Step>, z: System, i: nat, event: Option<string>)
    requires Solvent(y.store.ledger, y.now) && Run(y, steps, z)
    requires i < |z.store.ledger.refunds| && Locks(z.store.ledger.refunds[i].status)
    requires z.store.ledger.refunds[i].purchase in z.store.payments
    ensures CompleteRefund(z.store, i, event).Ok?
    ensures var after := CompleteRefund(z.store, i, event).value.ledger;
            && StateOf(after, z.now, true) == StateOf(z.store.ledger, z.now, true)
            && BalanceOf(after, z.now) == BalanceOf(z.store.ledger, z.now)
  {
    SolventOverRuns(y, steps, z, "");
    assert Covered(z.store.ledger, z.now, z.store.ledger.refunds[i].purchase);
    CompletionIsNeutral(z.store, z.now, i, event);
  }
}
