/** The credit service over the shared database; every method is one transaction or a part of one. */
module CreditsService {
  import opened Prelude
  import opened Tables
  import opened Waterfall
  import opened Allocation
  import opened CreditRules
  import D = Database

  /** What a transaction leaves: the new ledger, or the old one when it threw. */
  function Committed(old_: Ledger, r: Result<Ledger, Error>): Ledger {
    match r
    case Ok(l) => l
    case Err(_) => old_
  }

  class CreditsService {
    const database: D.Database

    constructor (database: D.Database)
      ensures this.database == database
    {
      this.database := database;
    }

    /** The grant state, from the grouped recoveries and refund locks. */
    method GrantState(now: int, includeRefundLocks: bool) returns (state: GrantState)
      ensures state == StateOf(database.CreditTables(), now, includeRefundLocks)
    {
      var recoveries := RecoveryByPurchase(database.recoveries);
      var locks := LockByPurchase(database.refunds);
      var snapshots, left := Waterfall(database.grants, database.usages, now, recoveries, locks, includeRefundLocks);
      var recoveryDebt := SumDebt(RecoveredPurchases(database.recoveries), left);
      state := CreditRules.GrantState(snapshots, recoveryDebt);
    }

    /** The waterfall loop over the ordered grants. */
    method Waterfall(grants: seq<Grant>, usages: seq<Usage>, now: int,
                     recoveries: map<nat, nat>, locks: map<nat, nat>, includeRefundLocks: bool)
      returns (snapshots: seq<Lot>, purchaseRecoveries: map<nat, nat>)
      ensures var pools := Pools(recoveries, if includeRefundLocks then locks else map[]);
              && snapshots == Snapshots(Holdings(grants, usages, now), pools)
              && purchaseRecoveries == Drained(Holdings(grants, usages, now), pools).recovery
    {
      ghost var pools := Pools(recoveries, if includeRefundLocks then locks else map[]);
      var purchaseLocks := locks;
      snapshots, purchaseRecoveries := [], recoveries;
      for i := 0 to |grants|
        invariant snapshots == Snapshots(Holdings(grants[..i], usages, now), pools)
        invariant purchaseRecoveries == Drained(Holdings(grants[..i], usages, now), pools).recovery
        invariant includeRefundLocks ==> purchaseLocks == Drained(Holdings(grants[..i], usages, now), pools).lock
      {
        ghost var before := Drained(Holdings(grants[..i], usages, now), pools);
        NextGrant(grants, usages, now, i, pools);
        if !includeRefundLocks && grants[i].purchase.Some? {
          NoLocks(Holdings(grants[..i], usages, now), pools, grants[i].purchase.value);
        }
        var available;
        available, purchaseRecoveries, purchaseLocks :=
          Absorb(grants[i], usages, now, purchaseRecoveries, purchaseLocks, includeRefundLocks, before);
        snapshots := snapshots + [Lot(grants[i], available)];
      }
      assert grants[..|grants|] == grants;
    }

    /** The body of the waterfall loop: recovery first, then the lock. */
    method Absorb(grant: Grant, usages: seq<Usage>, now: int, recoveries: map<nat, nat>, locks: map<nat, nat>,
                  includeRefundLocks: bool, ghost pools: Pools)
      returns (available: nat, purchaseRecoveries: map<nat, nat>, purchaseLocks: map<nat, nat>)
      requires recoveries == pools.recovery
      requires includeRefundLocks ==> locks == pools.lock
      requires !includeRefundLocks && grant.purchase.Some? ==> Get(pools.lock, grant.purchase.value) == 0
      ensures Lot(grant, available) == Remaining(Held(grant, usages, now), pools)
      ensures purchaseRecoveries == Drain(Held(grant, usages, now), pools).recovery
      ensures includeRefundLocks ==> purchaseLocks == Drain(Held(grant, usages, now), pools).lock
    {
      purchaseRecoveries, purchaseLocks := recoveries, locks;
      available := if Expired(grant.expiresAt, now) then 0 else Max(0, grant.amount - Used(usages, grant.id));
      if grant.purchase.Some? {
        var p := grant.purchase.value;
        var recovery := Get(purchaseRecoveries, p);
        var recovered := Min(available, recovery);
        available := available - recovered;
        purchaseRecoveries := purchaseRecoveries[p := recovery - recovered];
        if includeRefundLocks {
          var lock := Get(purchaseLocks, p);
          var locked := Min(available, lock);
          available := available - locked;
          purchaseLocks := purchaseLocks[p := lock - locked];
        }
      }
    }

    /** The final sum over the recovery map. */
    method SumDebt(purchases: seq<nat>, recoveries: map<nat, nat>) returns (debt: nat)
      ensures debt == Debt(purchases, recoveries)
    {
      debt := 0;
      for i := 0 to |purchases|
        invariant debt == Debt(purchases[..i], recoveries)
      {
        debt := debt + Get(recoveries, purchases[i]);
        assert purchases[..i + 1][..i] == purchases[..i];
      }
      assert purchases[..|purchases|] == purchases;
    }

    method GetPurchaseCreditSnapshot(now: int, purchase: nat) returns (snapshot: PurchaseSnapshot)
      ensures snapshot == SnapshotOf(database.CreditTables(), now, purchase)
    {
      var state := GrantState(now, false);
      var granted := Originals(database.grants);
      var left := state.snapshots;
      snapshot := PurchaseSnapshot(
        Total(granted, BasePaid(purchase)),
        Total(granted, Promotion(purchase)),
        Total(granted, PaidPromotion(purchase)),
        Total(left, BasePaid(purchase)),
        Total(left, Promotion(purchase)),
        Total(left, PaidPromotion(purchase)),
        Get(LockByPurchase(database.refunds), purchase));
    }

    method BalanceBreakdown(now: int) returns (balance: Balance)
      ensures balance == BalanceOf(database.CreditTables(), now)
    {
      var state := GrantState(now, true);
      var paid := Total(state.snapshots, OfKind(Paid)) - state.recoveryDebt + Adjusted(database.adjustments, Paid);
      var free := Total(state.snapshots, OfKind(Free)) + Adjusted(database.adjustments, Free);
      var reserved := ReservedAmount(database.reservations, now);
      balance := Balance(paid, free, if paid < 0 then paid else paid + free - reserved);
    }

    method AllocateUsage(now: int, amount: nat) returns (r: Result<seq<Lot>, Error>)
      ensures match Allocate(database.CreditTables(), now, amount)
              case Err(e) => r == Err(e)
              case Ok(takes) => r == Ok(Chosen(takes))
    {
      var state := GrantState(now, true);
      var balance := BalanceBreakdown(now);
      var result, remaining := TakeGreedily(state.snapshots, Max(0, balance.paid), amount);
      r := if remaining > 0 then Err(Insufficient) else Ok(result);
    }

    /** The greedy loop: it stops once nothing remains and skips grants that give nothing. */
    method TakeGreedily(snapshots: seq<Lot>, cap: nat, amount: nat) returns (result: seq<Lot>, remaining: nat)
      ensures remaining == amount - Total(Takes(snapshots, cap, amount), Every)
      ensures result == Chosen(Takes(snapshots, cap, amount))
    {
      var paidCapacity: int := cap;
      var i := 0;
      result, remaining := [], amount;
      ghost var takes := [];
      while i < |snapshots| && remaining != 0
        invariant 0 <= i <= |snapshots|
        invariant takes == Takes(snapshots[..i], cap, amount)
        invariant result == Chosen(takes)
        invariant remaining == amount - Total(takes, Every)
        invariant paidCapacity == cap - Total(takes, OfKind(Paid))
      {
        NextTake(snapshots, cap, amount, i);
        var snapshot := snapshots[i];
        var capacity := if snapshot.grant.kind == Paid then Min(snapshot.amount, paidCapacity) else snapshot.amount;
        var take := Min(remaining, capacity);
        CapacityLeft(snapshots, i, cap, amount, remaining, paidCapacity);
        takes := Takes(snapshots[..i + 1], cap, amount);
        if take > 0 {
          result := result + [Lot(snapshot.grant, take)];
          remaining := remaining - take;
          if snapshot.grant.kind == Paid {
            paidCapacity := paidCapacity - take;
          }
        }
        i := i + 1;
      }
      if remaining > 0 {
        assert snapshots[..i] == snapshots;
      } else {
        ChosenStops(snapshots, cap, amount, i);
      }
    }

    /** Stores the usage ledger row and one credit_usage row per allocation. */
    method RecordUsage(ghost takes: seq<Lot>, allocations: seq<Lot>, amount: nat, reservation: Option<string>)
      requires allocations == Chosen(takes)
      modifies database`charges, database`usages, database`nextId
      ensures database.CreditTables() == ChargeTo(old(database.CreditTables()), takes, amount, reservation)
    {
      var id := database.nextId;
      database.nextId := id + 1;
      database.charges := database.charges + [Charge(id, amount, reservation)];
      RowsOfChosen(takes, id);
      database.usages := database.usages
        + seq(|allocations|, i requires 0 <= i < |allocations| =>
              Usage(id, allocations[i].grant.id, allocations[i].amount));
    }

    method ReserveCredits(now: int, action: ActionType, reference: string, expiry: Expiry)
      returns (r: Result<Reservation, Error>)
      modifies database`reservations
      ensures var spec := Reserve(old(database.CreditTables()), now, action, reference, expiry);
              && database.CreditTables() == Committed(old(database.CreditTables()), spec)
              && (spec.Err? ==> r == Err(spec.error))
              && (spec.Ok? ==> r.Ok? && r.value in database.reservations && r.value.reference == reference)
    {
      var amount := ActionPrice(action);
      var existing := FindReservation(database.reservations, reference);
      if existing.Some? {
        var row := database.reservations[existing.value];
        if row.action != action || row.amount != amount {
          return Err(Conflict);
        }
        return Ok(row);
      }
      var balance := BalanceBreakdown(now);
      if balance.paid < 0 || balance.available < amount {
        return Err(Insufficient);
      }
      var expiresAt := match expiry
        case Standard => Some(now + RESERVATION_TTL_MS)
        case Never => None
        case Until(t) => Some(t);
      var row := Reservation(reference, action, amount, ReservationStatus.Open, expiresAt);
      database.reservations := database.reservations + [row];
      return Ok(row);
    }

    method CaptureReservationInTx(now: int, reference: string) returns (r: Result<bool, Error>)
      modifies database`reservations, database`charges, database`usages, database`nextId
      ensures match Capture(old(database.CreditTables()), now, reference)
              case Err(e) => r == Err(e) && database.CreditTables() == old(database.CreditTables())
              case Ok(out) => r == Ok(out.expired) && database.CreditTables() == out.ledger
    {
      var found := FindReservation(database.reservations, reference);
      if found.None? {
        return Err(BadRequest);
      }
      var row := database.reservations[found.value];
      if row.status == Captured {
        return Ok(false);
      }
      if row.status == Released {
        return Err(Conflict);
      }
      if Expired(row.expiresAt, now) {
        database.reservations := WithStatus(database.reservations, found.value, Released);
        return Ok(true);
      }
      ghost var takes := Allocate(database.CreditTables(), now, row.amount);
      var allocations := AllocateUsage(now, row.amount);
      if allocations.Err? {
        return Err(allocations.error);
      }
      RecordUsage(takes.value, allocations.value, row.amount, Some(reference));
      database.reservations := WithStatus(database.reservations, found.value, Captured);
      return Ok(false);
    }

    method ReleaseReservationInTx(reference: string) returns (r: Result<(), Error>)
      modifies database`reservations
      ensures var spec := Release(old(database.CreditTables()), reference);
              && database.CreditTables() == Committed(old(database.CreditTables()), spec)
              && r == (match spec case Err(e) => Err(e) case Ok(_) => Ok(()))
    {
      var found := FindReservation(database.reservations, reference);
      if found.None? {
        return Err(BadRequest);
      }
      if database.reservations[found.value].status == ReservationStatus.Open {
        database.reservations := WithStatus(database.reservations, found.value, Released);
      }
      return Ok(());
    }

    method SpendCredits(now: int, amount: int) returns (r: Result<(), Error>)
      modifies database`charges, database`usages, database`nextId
      ensures var spec := Spend(old(database.CreditTables()), now, amount);
              && database.CreditTables() == Committed(old(database.CreditTables()), spec)
              && r == (match spec case Err(e) => Err(e) case Ok(_) => Ok(()))
    {
      if amount <= 0 {
        return Err(BadRequest);
      }
      var balance := BalanceBreakdown(now);
      if balance.paid < 0 || balance.available < amount {
        return Err(Insufficient);
      }
      ghost var takes := Allocate(database.CreditTables(), now, amount);
      var allocations := AllocateUsage(now, amount);
      if allocations.Err? {
        return Err(allocations.error);
      }
      RecordUsage(takes.value, allocations.value, amount, None);
      return Ok(());
    }

    method GrantCreditsWithClient(now: int, input: GrantInput) returns (r: Result<(), Error>)
      modifies database`grants, database`nextId
      ensures var spec := AddGrant(old(database.CreditTables()), now, input);
              && database.CreditTables() == Committed(old(database.CreditTables()), spec)
              && r == (match spec case Err(e) => Err(e) case Ok(_) => Ok(()))
    {
      if input.amount <= 0 || (input.kind == Paid && input.purchase.None?) || (input.promo && input.purchase.None?) {
        return Err(BadRequest);
      }
      if input.reference.Some? {
        var existing := FindGrant(database.grants, input.reference.value);
        if existing.Some? {
          var g := existing.value;
          if g.amount != input.amount || g.kind != input.kind || g.purchase != input.purchase {
            return Err(Conflict);
          }
          return Ok(());
        }
      }
      var expiresAt := input.expiresAt;
      if expiresAt.None? && input.kind == Free {
        expiresAt := Some(now + FREE_CREDIT_TTL_MS);
      }
      var grant := Grant(database.nextId, input.kind, input.purchase, input.promo, input.amount, expiresAt, now,
                         input.reference);
      database.grants := Insert(database.grants, grant);
      database.nextId := database.nextId + 1;
      return Ok(());
    }

    method RecordRefundRecovery(purchase: nat, amount: nat, refund: nat)
      modifies database`recoveries
      ensures database.CreditTables() == Recover(old(database.CreditTables()), purchase, amount, refund)
    {
      database.recoveries := database.recoveries + [Recovery(purchase, amount, refund)];
    }
  }
}
