/** What the credit engine computes from the tables, and what each of its transactions does to them. */
module CreditRules {
  import opened Prelude
  import opened Tables
  import opened Waterfall
  import opened Allocation
  import Sorting

  const FREE_CREDIT_TTL_MS: int := 30 * 24 * 60 * 60 * 1000
  const RESERVATION_TTL_MS: int := 5 * 60 * 1000

  datatype Error = BadRequest | Conflict | Insufficient | NotFound

  function ActionPrice(action: ActionType): nat {
    match action
    case ChatReply => 2
  }

  // ----- grant state

  predicate Expired(expiresAt: Option<int>, now: int) {
    expiresAt.Some? && expiresAt.value <= now
  }

  /** What a grant still holds before recovery and locks. */
  function Held(g: Grant, usages: seq<Usage>, now: int): Lot {
    Lot(g, if Expired(g.expiresAt, now) then 0 else Monus(g.amount, Used(usages, g.id)))
  }

  function Holdings(grants: seq<Grant>, usages: seq<Usage>, now: int): (lots: seq<Lot>)
    ensures |lots| == |grants|
  {
    if grants == [] then []
    else
      var n := |grants| - 1;
      Holdings(grants[..n], usages, now) + [Held(grants[n], usages, now)]
  }

  predicate Locks(status: RefundStatus) {
    status in {Reserved, PaymentProcessing, PaymentSucceeded}
  }

  /** Refund recovery grouped by purchase. */
  function RecoveryByPurchase(rows: seq<Recovery>): map<nat, nat> {
    if rows == [] then map[]
    else
      var last := rows[|rows| - 1];
      var before := RecoveryByPurchase(rows[..|rows| - 1]);
      before[last.purchase := Get(before, last.purchase) + last.amount]
  }

  /** The purchases that have a recovery row, each once. */
  function RecoveredPurchases(rows: seq<Recovery>): seq<nat> {
    if rows == [] then []
    else
      var p := rows[|rows| - 1].purchase;
      var before := RecoveredPurchases(rows[..|rows| - 1]);
      if p in before then before else before + [p]
  }

  /** Refund locks grouped by purchase. */
  function LockByPurchase(refunds: seq<Refund>): map<nat, nat> {
    if refunds == [] then map[]
    else
      var last := refunds[|refunds| - 1];
      var before := LockByPurchase(refunds[..|refunds| - 1]);
      if Locks(last.status)
      then before[last.purchase := Get(before, last.purchase) + last.lockedAmount]
      else before
  }

  function PoolsOf(l: Ledger, includeRefundLocks: bool): Pools {
    Pools(RecoveryByPurchase(l.recoveries), if includeRefundLocks then LockByPurchase(l.refunds) else map[])
  }

  datatype GrantState = GrantState(snapshots: seq<Lot>, recoveryDebt: nat)

  function StateOf(l: Ledger, now: int, includeRefundLocks: bool): (s: GrantState)
    ensures |s.snapshots| == |l.grants|
  {
    var lots := Holdings(l.grants, l.usages, now);
    var pools := PoolsOf(l, includeRefundLocks);
    GrantState(Snapshots(lots, pools), Debt(RecoveredPurchases(l.recoveries), Drained(lots, pools).recovery))
  }

  // ----- balances

  function Adjusted(rows: seq<Adjustment>, kind: Kind): int {
    if rows == [] then 0
    else
      var last := rows[|rows| - 1];
      Adjusted(rows[..|rows| - 1], kind) + if last.kind == kind then last.amount else 0
  }

  predicate Active(r: Reservation, now: int) {
    r.status == ReservationStatus.Open && !Expired(r.expiresAt, now)
  }

  function ReservedAmount(rows: seq<Reservation>, now: int): nat {
    if rows == [] then 0
    else
      var last := rows[|rows| - 1];
      ReservedAmount(rows[..|rows| - 1], now) + if Active(last, now) then last.amount else 0
  }

  datatype Balance = Balance(paid: int, free: int, available: int)

  function BalanceOf(l: Ledger, now: int): Balance {
    var state := StateOf(l, now, true);
    var paid := Total(state.snapshots, OfKind(Paid)) - state.recoveryDebt + Adjusted(l.adjustments, Paid);
    var free := Total(state.snapshots, OfKind(Free)) + Adjusted(l.adjustments, Free);
    Balance(paid, free, if paid < 0 then paid else paid + free - ReservedAmount(l.reservations, now))
  }

  predicate CanSpend(l: Ledger, now: int, amount: int) {
    BalanceOf(l, now).paid >= 0 && BalanceOf(l, now).available >= amount
  }

  // ----- the credits of one purchase

  datatype PurchaseSnapshot = PurchaseSnapshot(
    originalPaid: nat,
    originalPromotion: nat,
    originalPaidPromotion: nat,
    remainingPaid: nat,
    remainingPromotion: nat,
    remainingPaidPromotion: nat,
    locked: nat)

  function Originals(grants: seq<Grant>): seq<Lot> {
    if grants == [] then []
    else
      var n := |grants| - 1;
      Originals(grants[..n]) + [Lot(grants[n], grants[n].amount)]
  }

  /** Taken without refund locks. */
  function SnapshotOf(l: Ledger, now: int, p: nat): PurchaseSnapshot {
    var granted := Originals(l.grants);
    var left := StateOf(l, now, false).snapshots;
    PurchaseSnapshot(
      Total(granted, BasePaid(p)),
      Total(granted, Promotion(p)),
      Total(granted, PaidPromotion(p)),
      Total(left, BasePaid(p)),
      Total(left, Promotion(p)),
      Total(left, PaidPromotion(p)),
      Get(LockByPurchase(l.refunds), p))
  }

  // ----- transactions

  function Allocate(l: Ledger, now: int, amount: nat): Result<seq<Lot>, Error> {
    var takes := Takes(StateOf(l, now, true).snapshots, Max(0, BalanceOf(l, now).paid), amount);
    if Total(takes, Every) < amount then Err(Insufficient) else Ok(takes)
  }

  /** Stores one usage ledger row and the credit_usage rows of its allocation. */
  function ChargeTo(l: Ledger, takes: seq<Lot>, amount: nat, reservation: Option<string>): Ledger {
    l.(charges := l.charges + [Charge(l.nextId, amount, reservation)],
       usages := l.usages + Rows(takes, l.nextId),
       nextId := l.nextId + 1)
  }

  function FindReservation(rows: seq<Reservation>, reference: string): (found: Option<nat>)
    ensures found.Some? ==> found.value < |rows| && rows[found.value].reference == reference
    ensures found.None? ==> forall i | 0 <= i < |rows| :: rows[i].reference != reference
  {
    if rows == [] then None
    else if rows[|rows| - 1].reference == reference then Some(|rows| - 1)
    else FindReservation(rows[..|rows| - 1], reference)
  }

  function WithStatus(rows: seq<Reservation>, i: nat, status: ReservationStatus): seq<Reservation>
    requires i < |rows|
  {
    rows[i := rows[i].(status := status)]
  }

  /** How a caller asks for the end of a reservation: left open, explicitly none, or a time. */
  datatype Expiry = Standard | Never | Until(time: int)

  function ExpiresAt(expiry: Expiry, now: int): Option<int> {
    match expiry
    case Standard => Some(now + RESERVATION_TTL_MS)
    case Never => None
    case Until(t) => Some(t)
  }

  function Reserve(l: Ledger, now: int, action: ActionType, reference: string, expiry: Expiry)
    : Result<Ledger, Error>
  {
    var amount := ActionPrice(action);
    match FindReservation(l.reservations, reference)
    case Some(i) =>
      if l.reservations[i].action != action || l.reservations[i].amount != amount then Err(Conflict) else Ok(l)
    case None =>
      if !CanSpend(l, now, amount) then Err(Insufficient)
      else
        var row := Reservation(reference, action, amount, ReservationStatus.Open, ExpiresAt(expiry, now));
        Ok(l.(reservations := l.reservations + [row]))
  }

  datatype CaptureOutcome = CaptureOutcome(ledger: Ledger, expired: bool)

  function Capture(l: Ledger, now: int, reference: string): Result<CaptureOutcome, Error> {
    match FindReservation(l.reservations, reference)
    case None => Err(BadRequest)
    case Some(i) =>
      var row := l.reservations[i];
      match row.status
      case Captured => Ok(CaptureOutcome(l, false))
      case Released => Err(Conflict)
      case Open =>
        if Expired(row.expiresAt, now) then
          Ok(CaptureOutcome(l.(reservations := WithStatus(l.reservations, i, Released)), true))
        else
          match Allocate(l, now, row.amount)
          case Err(e) => Err(e)
          case Ok(takes) =>
            var charged := ChargeTo(l, takes, row.amount, Some(reference));
            Ok(CaptureOutcome(charged.(reservations := WithStatus(l.reservations, i, Captured)), false))
  }

  function Release(l: Ledger, reference: string): Result<Ledger, Error> {
    match FindReservation(l.reservations, reference)
    case None => Err(BadRequest)
    case Some(i) =>
      if l.reservations[i].status != ReservationStatus.Open then Ok(l)
      else Ok(l.(reservations := WithStatus(l.reservations, i, Released)))
  }

  function Spend(l: Ledger, now: int, amount: int): Result<Ledger, Error> {
    if amount <= 0 then Err(BadRequest)
    else if !CanSpend(l, now, amount) then Err(Insufficient)
    else
      match Allocate(l, now, amount)
      case Err(e) => Err(e)
      case Ok(takes) => Ok(ChargeTo(l, takes, amount, None))
  }

  // ----- granting

  datatype GrantInput = GrantInput(
    amount: int,
    kind: Kind,
    purchase: Option<nat>,
    promo: bool,
    reference: Option<Reference>,
    expiresAt: Option<int>)

  function ExpiryKey(g: Grant): (int, int) {
    match g.expiresAt
    case Some(t) => (0, t)
    case None => (1, 0)
  }

  /** The order of the grant query: kind, expiry with nulls last, creation, id. */
  predicate Before(a: Grant, b: Grant) {
    if a.kind != b.kind then a.kind == Free
    else if ExpiryKey(a).0 != ExpiryKey(b).0 then ExpiryKey(a).0 < ExpiryKey(b).0
    else if ExpiryKey(a).1 != ExpiryKey(b).1 then ExpiryKey(a).1 < ExpiryKey(b).1
    else if a.createdAt != b.createdAt then a.createdAt < b.createdAt
    else a.id < b.id
  }

  /** Where the query finds a new grant. */
  function Slot(grants: seq<Grant>, g: Grant): nat {
    Sorting.Place(Before, grants, g)
  }

  function Insert(grants: seq<Grant>, g: Grant): seq<Grant> {
    Sorting.Insert(Before, grants, g)
  }

  function FindGrant(grants: seq<Grant>, reference: Reference): (found: Option<Grant>)
    ensures found.Some? ==> found.value in grants && found.value.reference == Some(reference)
    ensures found.None? ==> forall g | g in grants :: g.reference != Some(reference)
  {
    if grants == [] then None
    else if grants[0].reference == Some(reference) then Some(grants[0])
    else FindGrant(grants[1..], reference)
  }

  function NewGrant(l: Ledger, now: int, input: GrantInput): Grant
    requires input.amount > 0
  {
    var expiresAt :=
      if input.expiresAt.Some? then input.expiresAt
      else if input.kind == Free then Some(now + FREE_CREDIT_TTL_MS) else None;
    Grant(l.nextId, input.kind, input.purchase, input.promo, input.amount, expiresAt, now, input.reference)
  }

  function AddGrant(l: Ledger, now: int, input: GrantInput): Result<Ledger, Error> {
    if input.amount <= 0 then Err(BadRequest)
    else if input.kind == Paid && input.purchase == None then Err(BadRequest)
    else if input.promo && input.purchase == None then Err(BadRequest)
    else
      var existing := if input.reference.Some? then FindGrant(l.grants, input.reference.value) else None;
      if existing.Some? then
        var g := existing.value;
        if g.amount != input.amount || g.kind != input.kind || g.purchase != input.purchase then Err(Conflict)
        else Ok(l)
      else
        Ok(l.(grants := Insert(l.grants, NewGrant(l, now, input)), nextId := l.nextId + 1))
  }

  function Recover(l: Ledger, purchase: nat, amount: nat, refund: nat): Ledger {
    l.(recoveries := l.recoveries + [Recovery(purchase, amount, refund)])
  }

  // ----- well-formed tables

  ghost predicate Sorted(grants: seq<Grant>) {
    Sorting.Ordered(Before, grants)
  }

  ghost predicate DistinctGrants(grants: seq<Grant>) {
    forall i, j | 0 <= i < j < |grants| :: grants[i].id != grants[j].id
  }

  ghost predicate WellFormed(l: Ledger) {
    && Sorted(l.grants)
    && DistinctGrants(l.grants)
    && (forall g | g in l.grants :: g.id < l.nextId)
  }

  lemma BeforeIsStrict()
    ensures Sorting.Strict(Before)
  {
  }

  lemma InsertKeepsSorted(grants: seq<Grant>, g: Grant)
    requires Sorted(grants)
    requires forall h | h in grants :: h.id != g.id
    ensures Sorted(Insert(grants, g))
  {
    BeforeIsStrict();
    Sorting.InsertOrders(Before, Before, grants, g);
  }

  /** Granting keeps the query order and the primary key. */
  lemma InsertKeepsOrder(grants: seq<Grant>, g: Grant)
    requires Sorted(grants) && DistinctGrants(grants)
    requires forall h | h in grants :: h.id != g.id
    ensures Sorted(Insert(grants, g)) && DistinctGrants(Insert(grants, g))
    ensures multiset(Insert(grants, g)) == multiset(grants) + multiset{g}
  {
    InsertKeepsSorted(grants, g);
    InsertKeepsKeys(grants, g);
    Sorting.InsertKeepsRows(Before, grants, g);
  }

  lemma InsertKeepsKeys(grants: seq<Grant>, g: Grant)
    requires DistinctGrants(grants)
    requires forall h | h in grants :: h.id != g.id
    ensures DistinctGrants(Insert(grants, g))
  {
    var k := Slot(grants, g);
    InsertedAt(grants, g, k);
  }

  /** Putting a grant with a new id anywhere keeps ids distinct. */
  lemma InsertedAt(grants: seq<Grant>, g: Grant, k: nat)
    requires DistinctGrants(grants) && k <= |grants|
    requires forall h | h in grants :: h.id != g.id
    ensures DistinctGrants(grants[..k] + [g] + grants[k..])
  {
  }

  lemma {:induction false} HoldingAt(grants: seq<Grant>, usages: seq<Usage>, now: int, i: nat)
    requires i < |grants|
    ensures Holdings(grants, usages, now)[i] == Held(grants[i], usages, now)
  {
    if i < |grants| - 1 {
      HoldingAt(grants[..|grants| - 1], usages, now, i);
    }
  }

  lemma {:induction false} HoldingsConcat(a: seq<Grant>, b: seq<Grant>, usages: seq<Usage>, now: int)
    ensures Holdings(a + b, usages, now) == Holdings(a, usages, now) + Holdings(b, usages, now)
  {
    if b == [] {
      assert a + b == a;
    } else {
      var n := |b| - 1;
      assert (a + b)[..|a + b| - 1] == a + b[..n];
      HoldingsConcat(a, b[..n], usages, now);
    }
  }

  /** One more grant in the waterfall. */
  lemma NextGrant(grants: seq<Grant>, usages: seq<Usage>, now: int, i: nat, pools: Pools)
    requires i < |grants|
    ensures var before, held := Holdings(grants[..i], usages, now), Held(grants[i], usages, now);
            var left := Drained(before, pools);
            && Drained(Holdings(grants[..i + 1], usages, now), pools) == Drain(held, left)
            && Snapshots(Holdings(grants[..i + 1], usages, now), pools)
               == Snapshots(before, pools) + [Remaining(held, left)]
  {
    assert grants[..i + 1][..i] == grants[..i];
    var before := Holdings(grants[..i], usages, now);
    assert Holdings(grants[..i + 1], usages, now)[..i] == before;
  }

  /** With no locks to start from, none appear. */
  lemma NoLocks(lots: seq<Lot>, pools: Pools, p: nat)
    requires pools.lock == map[]
    ensures Get(Drained(lots, pools).lock, p) == 0
  {
    PoolsClosedForm(lots, pools, p);
  }

  /** Availability is between zero and the granted amount. */
  lemma AvailableWithinGrant(l: Ledger, now: int, includeRefundLocks: bool, i: nat)
    requires i < |l.grants|
    ensures StateOf(l, now, includeRefundLocks).snapshots[i].grant == l.grants[i]
    ensures 0 <= StateOf(l, now, includeRefundLocks).snapshots[i].amount <= l.grants[i].amount
  {
    HoldingAt(l.grants, l.usages, now, i);
    SnapshotsBelow(Holdings(l.grants, l.usages, now), PoolsOf(l, includeRefundLocks));
  }

  // ----- spending commutes with the waterfall

  /** Usage rows lower what each grant holds by exactly what was taken from it. */
  lemma HoldingsAfterCharge(l: Ledger, now: int, takes: seq<Lot>, amount: nat, reservation: Option<string>)
    requires DistinctGrants(l.grants)
    requires Below(takes, StateOf(l, now, true).snapshots)
    ensures Adds(takes,
                 Holdings(l.grants, ChargeTo(l, takes, amount, reservation).usages, now),
                 Holdings(l.grants, l.usages, now))
  {
    var rows := Rows(takes, l.nextId);
    var lots := Holdings(l.grants, l.usages, now);
    var rest := Holdings(l.grants, l.usages + rows, now);
    SnapshotsBelow(lots, PoolsOf(l, true));
    forall i | 0 <= i < |lots|
      ensures takes[i].grant == rest[i].grant == lots[i].grant
      ensures takes[i].amount + rest[i].amount == lots[i].amount
    {
      HoldingAt(l.grants, l.usages, now, i);
      HoldingAt(l.grants, l.usages + rows, now, i);
      UsedConcat(l.usages, rows, l.grants[i].id);
      TakesFollowGrants(l, now, takes);
      RowsCharge(takes, l.nextId, i);
    }
  }

  lemma TakesFollowGrants(l: Ledger, now: int, takes: seq<Lot>)
    requires DistinctGrants(l.grants)
    requires Below(takes, StateOf(l, now, true).snapshots)
    ensures forall i | 0 <= i < |takes| :: takes[i].grant == l.grants[i]
    ensures DistinctIds(takes)
  {
    forall i | 0 <= i < |takes|
      ensures takes[i].grant == l.grants[i]
    {
      AvailableWithinGrant(l, now, true, i);
    }
  }

  /** After the usage rows of an allocation are stored, every availability falls by exactly what was taken,
      the debt stays, and the paid and free balances fall by exactly the paid and free takes. */
  lemma SpendingCommutes(l: Ledger, now: int, takes: seq<Lot>, amount: nat, reservation: Option<string>)
    requires DistinctGrants(l.grants)
    requires Below(takes, StateOf(l, now, true).snapshots)
    ensures var after := ChargeTo(l, takes, amount, reservation);
            && Adds(takes, StateOf(after, now, true).snapshots, StateOf(l, now, true).snapshots)
            && StateOf(after, now, true).recoveryDebt == StateOf(l, now, true).recoveryDebt
            && BalanceOf(after, now).paid == BalanceOf(l, now).paid - Total(takes, OfKind(Paid))
            && BalanceOf(after, now).free == BalanceOf(l, now).free - Total(takes, OfKind(Free))
  {
    var after := ChargeTo(l, takes, amount, reservation);
    var lots := Holdings(l.grants, l.usages, now);
    var rest := Holdings(l.grants, after.usages, now);
    HoldingsAfterCharge(l, now, takes, amount, reservation);
    TakingCommutes(lots, takes, rest, PoolsOf(l, true));
    forall c: Class
      ensures Total(StateOf(l, now, true).snapshots, c)
           == Total(takes, c) + Total(StateOf(after, now, true).snapshots, c)
    {
      TotalAdds(takes, StateOf(after, now, true).snapshots, StateOf(l, now, true).snapshots, c);
    }
  }

  /** An allocation that succeeds sums to the amount, respects every availability, and keeps paid at or above zero. */
  lemma AllocationSound(l: Ledger, now: int, amount: nat)
    requires Allocate(l, now, amount).Ok?
    ensures var takes := Allocate(l, now, amount).value;
            && Feasible(takes, StateOf(l, now, true).snapshots, Max(0, BalanceOf(l, now).paid), amount)
            && Total(takes, OfKind(Free)) + Total(takes, OfKind(Paid)) == amount
  {
    TakesSound(StateOf(l, now, true).snapshots, Max(0, BalanceOf(l, now).paid), amount);
  }

  /** Free, and expiring by the given time; with no time given, free at all. */
  predicate Early(g: Grant, until: Option<int>) {
    g.kind == Free && (until.Some? ==> g.expiresAt.Some? && g.expiresAt.value <= until.value)
  }

  lemma EarlyGoesFirst(a: Grant, b: Grant, until: Option<int>)
    requires Before(a, b) && Early(b, until)
    ensures Early(a, until)
  {
  }

  /** In the order of the grant query the early grants come first. */
  lemma EarlyPrefix(grants: seq<Grant>, until: Option<int>) returns (k: nat)
    requires Sorted(grants)
    ensures k <= |grants|
    ensures forall i | 0 <= i < |grants| :: Early(grants[i], until) <==> i < k
  {
    k := 0;
    while k < |grants| && Early(grants[k], until)
      invariant k <= |grants|
      invariant forall i | 0 <= i < k :: Early(grants[i], until)
    {
      k := k + 1;
    }
    forall i | k <= i < |grants| ensures !Early(grants[i], until) {
      if k < i && Early(grants[i], until) {
        EarlyGoesFirst(grants[k], grants[i], until);
      }
    }
  }

  /** Among all ways to pay the amount, the service spends the least beyond the free grants that expire by any given
      time, and the least beyond the free grants altogether. */
  lemma AllocatesEarliestFirst(l: Ledger, now: int, amount: nat, other: seq<Lot>, until: Option<int>) returns (k: nat)
    requires WellFormed(l) && Allocate(l, now, amount).Ok?
    requires Feasible(other, StateOf(l, now, true).snapshots, Max(0, BalanceOf(l, now).paid), amount)
    ensures k <= |l.grants| == |other|
    ensures forall i | 0 <= i < |l.grants| :: Early(l.grants[i], until) <==> i < k
    ensures Total(Allocate(l, now, amount).value[k..], Every) <= Total(other[k..], Every)
  {
    k := EarlyPrefix(l.grants, until);
    LeastAfterEveryCut(StateOf(l, now, true).snapshots, Max(0, BalanceOf(l, now).paid), amount, other, k);
  }

  /** No way to pay the amount spends fewer paid credits. */
  lemma AllocatesFewestPaid(l: Ledger, now: int, amount: nat, other: seq<Lot>)
    requires WellFormed(l) && Allocate(l, now, amount).Ok?
    requires Feasible(other, StateOf(l, now, true).snapshots, Max(0, BalanceOf(l, now).paid), amount)
    ensures Total(Allocate(l, now, amount).value, OfKind(Paid)) <= Total(other, OfKind(Paid))
  {
    var k := EarlyPrefix(l.grants, None);
    var snapshots := StateOf(l, now, true).snapshots;
    forall i | 0 <= i < |snapshots| ensures snapshots[i].grant == l.grants[i] {
      AvailableWithinGrant(l, now, true, i);
    }
    FewestPaid(snapshots, Max(0, BalanceOf(l, now).paid), amount, other, k);
  }

  /** The free balance is all that is available free, and the paid balance is covered by what is available paid. */
  lemma BalancesOfState(l: Ledger, now: int)
    requires Adjusted(l.adjustments, Paid) <= 0 && Adjusted(l.adjustments, Free) == 0
    ensures BalanceOf(l, now).free == Total(StateOf(l, now, true).snapshots, OfKind(Free))
    ensures Max(0, BalanceOf(l, now).paid) <= Total(StateOf(l, now, true).snapshots, OfKind(Paid))
  {
  }

  /** With no free adjustment and no positive paid one, allocation fails exactly when the balances fall short. */
  lemma AllocationFailsExactly(l: Ledger, now: int, amount: nat)
    requires Adjusted(l.adjustments, Paid) <= 0 && Adjusted(l.adjustments, Free) == 0
    ensures Allocate(l, now, amount).Ok? <==> amount <= BalanceOf(l, now).free + Max(0, BalanceOf(l, now).paid)
  {
    var snapshots, cap := StateOf(l, now, true).snapshots, Max(0, BalanceOf(l, now).paid);
    BalancesOfState(l, now);
    FallsShortExactly(snapshots, cap, amount);
  }

  // ----- what a second call does

  lemma FindAppended(rows: seq<Reservation>, row: Reservation, r: string)
    ensures FindReservation(rows + [row], r)
         == if row.reference == r then Some(|rows|) else FindReservation(rows, r)
  {
    assert (rows + [row])[..|rows|] == rows;
  }

  lemma {:induction false} FindAfterStatus(rows: seq<Reservation>, i: nat, status: ReservationStatus, reference: string)
    requires i < |rows|
    ensures FindReservation(WithStatus(rows, i, status), reference) == FindReservation(rows, reference)
  {
    var n := |rows| - 1;
    var after := WithStatus(rows, i, status);
    if after[n].reference != reference {
      if i < n {
        assert after[..n] == WithStatus(rows[..n], i, status);
        FindAfterStatus(rows[..n], i, status, reference);
      } else {
        assert after[..n] == rows[..n];
      }
    }
  }

  /** A reservation is settled once: capturing again or releasing afterwards changes nothing, and one that was found
      expired can no longer be captured. */
  lemma SettledStays(l: Ledger, now: int, reference: string, later: int)
    requires Capture(l, now, reference).Ok?
    ensures var out := Capture(l, now, reference).value;
            && Release(out.ledger, reference) == Ok(out.ledger)
            && Capture(out.ledger, later, reference)
               == if out.expired then Err(Conflict) else Ok(CaptureOutcome(out.ledger, false))
  {
    var i := FindReservation(l.reservations, reference).value;
    FindAfterStatus(l.reservations, i, Captured, reference);
    FindAfterStatus(l.reservations, i, Released, reference);
  }

  /** Releasing is settled once, too: the reservation can then no longer be captured, unless it already was. */
  lemma ReleasedStays(l: Ledger, reference: string, later: int)
    requires Release(l, reference).Ok?
    ensures var after := Release(l, reference).value;
            && Release(after, reference) == Ok(after)
            && (Capture(after, later, reference) == Err(Conflict)
                || Capture(after, later, reference) == Ok(CaptureOutcome(after, false)))
  {
    var i := FindReservation(l.reservations, reference).value;
    FindAfterStatus(l.reservations, i, Released, reference);
  }

  /** Granting again under the same external reference grants nothing more. */
  lemma GrantOncePerReference(l: Ledger, now: int, input: GrantInput, later: int)
    requires input.reference.Some? && AddGrant(l, now, input).Ok?
    ensures var after := AddGrant(l, now, input).value; AddGrant(after, later, input) == Ok(after)
  {
    var after := AddGrant(l, now, input).value;
    if after != l {
      var g := NewGrant(l, now, input);
      var k := Slot(l.grants, g);
      assert after.grants[k] == g;
      forall h | h in after.grants && h.reference == input.reference
        ensures h == g
      {
        assert h in l.grants[..k] + [g] + l.grants[k..];
      }
    }
  }
}
