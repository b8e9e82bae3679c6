/** The usage ledger: every captured reservation is charged once, and every charge is itemised by its usage rows. */
module Charges {
  import opened Prelude
  import opened Tables
  import opened Allocation
  import opened CreditRules
  import opened PurchaseRules
  import opened Solvency

  /** How many usage ledger rows name the reservation. */
  function CountFor(charges: seq<Charge>, reference: string): nat {
    if charges == [] then 0
    else
      var last := charges[|charges| - 1];
      CountFor(charges[..|charges| - 1], reference) + if last.reservation == Some(reference) then 1 else 0
  }

  /** What the credit_usage rows of a usage ledger row sum to. */
  function UsageOf(usages: seq<Usage>, id: nat): nat {
    if usages == [] then 0
    else
      var last := usages[|usages| - 1];
      UsageOf(usages[..|usages| - 1], id) + if last.ledger == id then last.amount else 0
  }

  predicate IsCaptured(reservations: seq<Reservation>, reference: string) {
    var found := FindReservation(reservations, reference);
    found.Some? && reservations[found.value].status == ReservationStatus.Captured
  }

  /** Usage ledger rows have ids of their own, and each is itemised exactly. */
  ghost predicate Itemised(charges: seq<Charge>, usages: seq<Usage>, nextId: nat) {
    && (forall i | 0 <= i < |charges| ::
          charges[i].id < nextId && UsageOf(usages, charges[i].id) == charges[i].amount)
    && (forall i, j | 0 <= i < j < |charges| :: charges[i].id != charges[j].id)
    && (forall i | 0 <= i < |usages| :: usages[i].ledger < nextId)
  }

  /** A reservation has one usage ledger row, of its amount, if it is captured, and otherwise none. */
  ghost predicate Matched(charges: seq<Charge>, reservations: seq<Reservation>) {
    && (forall r: string :: CountFor(charges, r) == if IsCaptured(reservations, r) then 1 else 0)
    && (forall i | 0 <= i < |charges| && charges[i].reservation.Some? ::
          var found := FindReservation(reservations, charges[i].reservation.value);
          found.Some? && reservations[found.value].amount == charges[i].amount)
  }

  ghost predicate DistinctReferences(reservations: seq<Reservation>) {
    forall i, j | 0 <= i < j < |reservations| :: reservations[i].reference != reservations[j].reference
  }

  ghost predicate Accounted(l: Ledger) {
    && Itemised(l.charges, l.usages, l.nextId)
    && Matched(l.charges, l.reservations)
    && DistinctReferences(l.reservations)
  }

  // ----- usage rows

  lemma {:induction false} UsageConcat(a: seq<Usage>, b: seq<Usage>, id: nat)
    ensures UsageOf(a + b, id) == UsageOf(a, id) + UsageOf(b, id)
  {
    if b == [] {
      assert a + b == a;
    } else {
      var n := |b| - 1;
      assert (a + b)[..|a + b| - 1] == a + b[..n];
      UsageConcat(a, b[..n], id);
    }
  }

  lemma {:induction false} RowsItemise(takes: seq<Lot>, ledger: nat, id: nat)
    ensures UsageOf(Rows(takes, ledger), id) == if id == ledger then Total(takes, Every) else 0
    ensures forall i | 0 <= i < |Rows(takes, ledger)| :: Rows(takes, ledger)[i].ledger == ledger
  {
    if takes != [] {
      var n := |takes| - 1;
      RowsItemise(takes[..n], ledger, id);
      if takes[n].amount > 0 {
        var row := Usage(ledger, takes[n].grant.id, takes[n].amount);
        UsageConcat(Rows(takes[..n], ledger), [row], id);
        assert [row][..0] == [];
      } else {
        assert Rows(takes, ledger) == Rows(takes[..n], ledger);
      }
    }
  }

  lemma {:induction false} NoRowsYet(usages: seq<Usage>, id: nat)
    requires forall i | 0 <= i < |usages| :: usages[i].ledger != id
    ensures UsageOf(usages, id) == 0
  {
    if usages != [] {
      NoRowsYet(usages[..|usages| - 1], id);
    }
  }

  lemma ChargeItemises(l: Ledger, takes: seq<Lot>, amount: nat, reservation: Option<string>)
    requires Itemised(l.charges, l.usages, l.nextId) && Total(takes, Every) == amount
    ensures var t := ChargeTo(l, takes, amount, reservation); Itemised(t.charges, t.usages, t.nextId)
  {
    var t := ChargeTo(l, takes, amount, reservation);
    var rows := Rows(takes, l.nextId);
    NoRowsYet(l.usages, l.nextId);
    forall i | 0 <= i < |t.charges| ensures UsageOf(t.usages, t.charges[i].id) == t.charges[i].amount {
      UsageConcat(l.usages, rows, t.charges[i].id);
      RowsItemise(takes, l.nextId, t.charges[i].id);
    }
    RowsItemise(takes, l.nextId, 0);
  }

  // ----- reservations

  lemma CountAppended(charges: seq<Charge>, c: Charge, r: string)
    ensures CountFor(charges + [c], r) == CountFor(charges, r) + if c.reservation == Some(r) then 1 else 0
  {
    assert (charges + [c])[..|charges|] == charges;
  }

  lemma {:induction false} FoundIn(charges: seq<Charge>, r: string) returns (i: nat)
    requires CountFor(charges, r) > 0
    ensures i < |charges| && charges[i].reservation == Some(r)
  {
    var n := |charges| - 1;
    if charges[n].reservation == Some(r) {
      i := n;
    } else {
      i := FoundIn(charges[..n], r);
    }
  }

  lemma ReserveMatches(charges: seq<Charge>, rows: seq<Reservation>, row: Reservation)
    requires Matched(charges, rows)
    requires FindReservation(rows, row.reference).None? && row.status == ReservationStatus.Open
    ensures Matched(charges, rows + [row])
  {
    forall r: string ensures CountFor(charges, r) == if IsCaptured(rows + [row], r) then 1 else 0 {
      FindAppended(rows, row, r);
    }
    forall i | 0 <= i < |charges| && charges[i].reservation.Some?
      ensures var found := FindReservation(rows + [row], charges[i].reservation.value);
              found.Some? && (rows + [row])[found.value].amount == charges[i].amount
    {
      FindAppended(rows, row, charges[i].reservation.value);
    }
  }

  /** An open reservation that is closed: released without a charge, or captured with one. */
  lemma StatusMatches(charges: seq<Charge>, rows: seq<Reservation>, i: nat, status: ReservationStatus,
                      after: seq<Charge>)
    requires Matched(charges, rows) && status != ReservationStatus.Open
    requires i < |rows| && rows[i].status == ReservationStatus.Open
    requires FindReservation(rows, rows[i].reference) == Some(i)
    requires status == ReservationStatus.Released ==> after == charges
    requires status == ReservationStatus.Captured ==>
               |after| == |charges| + 1 && after == charges + [after[|charges|]]
               && after[|charges|].reservation == Some(rows[i].reference) && after[|charges|].amount == rows[i].amount
    ensures Matched(after, WithStatus(rows, i, status))
  {
    var z := WithStatus(rows, i, status);
    forall r: string ensures CountFor(after, r) == if IsCaptured(z, r) then 1 else 0 {
      FindAfterStatus(rows, i, status, r);
      if status == ReservationStatus.Captured {
        CountAppended(charges, after[|charges|], r);
      }
    }
    forall k | 0 <= k < |after| && after[k].reservation.Some?
      ensures var found := FindReservation(z, after[k].reservation.value);
              found.Some? && z[found.value].amount == after[k].amount
    {
      FindAfterStatus(rows, i, status, after[k].reservation.value);
    }
  }

  /** A charge that names no reservation. */
  lemma SpendMatches(charges: seq<Charge>, rows: seq<Reservation>, c: Charge)
    requires Matched(charges, rows) && c.reservation.None?
    ensures Matched(charges + [c], rows)
  {
    forall r: string ensures CountFor(charges + [c], r) == if IsCaptured(rows, r) then 1 else 0 {
      CountAppended(charges, c, r);
    }
  }

  // ----- steps and runs

  lemma CaptureAccounts(l: Ledger, now: int, reference: string)
    requires Accounted(l) && Capture(l, now, reference).Ok?
    ensures Accounted(Capture(l, now, reference).value.ledger)
  {
    var i := FindReservation(l.reservations, reference).value;
    var row := l.reservations[i];
    if row.status == ReservationStatus.Open {
      if Expired(row.expiresAt, now) {
        StatusMatches(l.charges, l.reservations, i, Released, l.charges);
      } else {
        var takes := Allocate(l, now, row.amount).value;
        var charged := ChargeTo(l, takes, row.amount, Some(reference));
        AllocationSound(l, now, row.amount);
        ChargeItemises(l, takes, row.amount, Some(reference));
        StatusMatches(l.charges, l.reservations, i, Captured, charged.charges);
      }
    }
  }

  lemma SpendAccounts(l: Ledger, now: int, amount: int)
    requires Accounted(l) && Spend(l, now, amount).Ok?
    ensures Accounted(Spend(l, now, amount).value)
  {
    var takes := Allocate(l, now, amount).value;
    AllocationSound(l, now, amount);
    ChargeItemises(l, takes, amount, None);
    SpendMatches(l.charges, l.reservations, Charge(l.nextId, amount, None));
  }

  lemma ReserveAccounts(l: Ledger, now: int, action: ActionType, reference: string, expiry: Expiry)
    requires Accounted(l) && Reserve(l, now, action, reference, expiry).Ok?
    ensures Accounted(Reserve(l, now, action, reference, expiry).value)
  {
    var after := Reserve(l, now, action, reference, expiry).value;
    if after != l {
      ReserveMatches(l.charges, l.reservations, after.reservations[|l.reservations|]);
    }
  }

  lemma ReleaseAccounts(l: Ledger, reference: string)
    requires Accounted(l) && Release(l, reference).Ok?
    ensures Accounted(Release(l, reference).value)
  {
    var i := FindReservation(l.reservations, reference).value;
    if l.reservations[i].status == ReservationStatus.Open {
      StatusMatches(l.charges, l.reservations, i, Released, l.charges);
    }
  }

  /** Grants and refunds leave usage and reservations alone. */
  lemma ElsewhereAccounts(l: Ledger, after: Ledger)
    requires Accounted(l) && after.charges == l.charges && after.usages == l.usages
    requires after.reservations == l.reservations && after.nextId >= l.nextId
    ensures Accounted(after)
  {
  }

  lemma StepAccounts(y: System, step: Step)
    requires Accounted(y.store.ledger) && Enabled(y, step)
    ensures Accounted(Next(y, step).store.ledger)
  {
    var l := y.store.ledger;
    match step
    case DoReserve(a, r, e) => if Reserve(l, y.now, a, r, e).Ok? { ReserveAccounts(l, y.now, a, r, e); }
    case DoCapture(r) => if Capture(l, y.now, r).Ok? { CaptureAccounts(l, y.now, r); }
    case DoRelease(r) => if Release(l, r).Ok? { ReleaseAccounts(l, r); }
    case DoSpend(n) => if Spend(l, y.now, n).Ok? { SpendAccounts(l, y.now, n); }
    case DoGrant(input) => ElsewhereAccounts(l, Next(y, step).store.ledger);
    case DoRequestRefund(p, key) => ElsewhereAccounts(l, Next(y, step).store.ledger);
    case DoAnswer(i, answer) => ElsewhereAccounts(l, Next(y, step).store.ledger);
    case DoCompleteRefund(i) => ElsewhereAccounts(l, Next(y, step).store.ledger);
    case DoTick(to) =>
  }

  lemma {:induction false} AccountedOverRuns(y: System, steps: seq<Step>, z: System)
    requires Accounted(y.store.ledger) && Run(y, steps, z)
    ensures Accounted(z.store.ledger)
    decreases |steps|
  {
    if steps != [] {
      StepAccounts(y, steps[0]);
      AccountedOverRuns(Next(y, steps[0]), steps[1..], z);
    }
  }

  /** The charge of a reservation: its one usage ledger row, of its amount, itemised by its usage rows. */
  ghost predicate ChargedOnce(l: Ledger, row: Reservation) {
    && CountFor(l.charges, row.reference) == 1
    && exists k | 0 <= k < |l.charges| ::
         && l.charges[k].reservation == Some(row.reference)
         && l.charges[k].amount == row.amount
         && UsageOf(l.usages, l.charges[k].id) == row.amount
  }

  lemma {:induction false} FindDistinct(rows: seq<Reservation>, i: nat)
    requires DistinctReferences(rows) && i < |rows|
    ensures FindReservation(rows, rows[i].reference) == Some(i)
  {
    var n := |rows| - 1;
    if i < n {
      assert rows[..n][i] == rows[i];
      FindDistinct(rows[..n], i);
    }
  }

  /** In every state of every run a reservation is charged once, exactly and itemised, if it is captured, and never
      otherwise; usage ledger rows name no other reservation. */
  lemma ChargedExactlyOverRuns(y: System, steps: seq<Step>, z: System, i: nat)
    requires Accounted(y.store.ledger) && Run(y, steps, z)
    requires i < |z.store.ledger.reservations|
    ensures var row := z.store.ledger.reservations[i];
            && (row.status == ReservationStatus.Captured ==> ChargedOnce(z.store.ledger, row))
            && (row.status != ReservationStatus.Captured ==> CountFor(z.store.ledger.charges, row.reference) == 0)
    ensures forall k | 0 <= k < |z.store.ledger.charges| && z.store.ledger.charges[k].reservation.Some? ::
              IsCaptured(z.store.ledger.reservations, z.store.ledger.charges[k].reservation.value)
  {
    var l := z.store.ledger;
    AccountedOverRuns(y, steps, z);
    FindDistinct(l.reservations, i);
    if l.reservations[i].status == ReservationStatus.Captured {
      var k := FoundIn(l.charges, l.reservations[i].reference);
    }
    forall k | 0 <= k < |l.charges| && l.charges[k].reservation.Some?
      ensures IsCaptured(l.reservations, l.charges[k].reservation.value)
    {
      NamedIsCounted(l.charges, k);
    }
  }

  lemma {:induction false} NamedIsCounted(charges: seq<Charge>, k: nat)
    requires k < |charges| && charges[k].reservation.Some?
    ensures CountFor(charges, charges[k].reservation.value) > 0
  {
    var n := |charges| - 1;
    if k < n {
      NamedIsCounted(charges[..n], k);
    }
  }

  lemma EmptyIsAccounted(nextId: nat)
    ensures Accounted(Ledger([], [], [], [], [], [], [], nextId))
  {
  }
}
