/** The credit tables of one user: grants, usage rows, refund recoveries, refunds, adjustments and reservations. */
module Tables {
  import opened Prelude

  datatype Kind = Free | Paid

  /** A row's external reference; the purchase grant is the one reference the model looks up by meaning. */
  datatype Reference = PurchaseGrant(purchase: nat) | External(text: string)

  datatype Grant = Grant(
    id: nat,
    kind: Kind,
    purchase: Option<nat>,
    promo: bool,
    amount: nat,
    expiresAt: Option<int>,
    createdAt: int,
    reference: Option<Reference>)

  datatype Usage = Usage(ledger: nat, grant: nat, amount: nat)

  datatype Recovery = Recovery(purchase: nat, amount: nat, refund: nat)

  datatype Adjustment = Adjustment(kind: Kind, amount: int)

  datatype RefundStatus = Reserved | PaymentProcessing | PaymentSucceeded | Completed | Failed | Canceled

  datatype Refund = Refund(
    id: nat,
    purchase: nat,
    key: string,
    status: RefundStatus,
    creditAmount: nat,
    promotionAmount: nat,
    freePromotionAmount: nat,
    lockedAmount: nat,
    recoveryAmount: nat,
    debtAmount: nat,
    grossAmount: int,
    feeAmount: int,
    refundAmount: int)

  /** A ledger row of type usage; its credit_usage rows say which grants paid for it. */
  datatype Charge = Charge(id: nat, amount: nat, reservation: Option<string>)

  datatype ReservationStatus = Open | Captured | Released

  datatype ActionType = ChatReply

  datatype Reservation = Reservation(
    reference: string,
    action: ActionType,
    amount: nat,
    status: ReservationStatus,
    expiresAt: Option<int>)

  /** Every credit table of one user. There is no stored balance. */
  datatype Ledger = Ledger(
    grants: seq<Grant>,
    charges: seq<Charge>,
    usages: seq<Usage>,
    recoveries: seq<Recovery>,
    refunds: seq<Refund>,
    adjustments: seq<Adjustment>,
    reservations: seq<Reservation>,
    nextId: nat)

  // ----- payment tables

  datatype Channel = Web | Apple | Google

  datatype PaymentStatus =
    | Pending
    | Verified
    | Processing
    | PaidUp
    | PaymentFailed
    | PaymentCanceled
    | PartiallyRefunded
    | Refunded
    | Reversed

  datatype PurchaseStatus =
    | PurchasePending
    | PurchaseCompleted
    | PurchaseFailed
    | PurchaseRefunded
    | PurchaseReversed

  /** A purchase and its one payment row (payments are unique per purchase). */
  datatype Payment = Payment(
    channel: Channel,
    provider: string,
    status: PaymentStatus,
    purchaseStatus: PurchaseStatus,
    creditAmount: int,
    amount: Option<int>,
    netAmount: Option<int>,
    taxAmount: Option<int>,
    currency: Option<string>,
    productId: string,
    transactionId: Option<string>)

  datatype MoneyType = CaptureIn | RefundOut | Chargeback

  datatype Money = Money(purchase: nat, flow: MoneyType, amount: Option<int>, event: Option<string>)

  datatype EventType = PaidEvent | RefundedEvent | ReversedEvent | FailedEvent | IgnoredEvent

  datatype InboxStatus = Received | Processed | Rejected

  datatype Inbox = Inbox(eventType: EventType, status: InboxStatus)

  /** Everything the purchase service reads and writes. */
  datatype Store = Store(
    ledger: Ledger,
    payments: map<nat, Payment>,
    money: seq<Money>,
    inbox: map<(string, string), Inbox>)

  /** A grant with an amount attached: what it still holds, what is available, or what an allocation takes. */
  datatype Lot = Lot(grant: Grant, amount: nat)

  /** The grant classes that the services sum over. */
  datatype Class =
    | Every
    | OfKind(kind: Kind)
    | Linked(purchase: nat)
    | Refundable(purchase: nat)
    | BasePaid(purchase: nat)
    | Promotion(purchase: nat)
    | PaidPromotion(purchase: nat)
    | FreePromotion(purchase: nat)
    | PlainFree(purchase: nat)
  {
    predicate Has(g: Grant) {
      match this
      case Every => true
      case OfKind(k) => g.kind == k
      case Linked(p) => g.purchase == Some(p)
      case Refundable(p) => g.purchase == Some(p) && (g.kind == Paid || g.promo)
      case BasePaid(p) => g.purchase == Some(p) && g.kind == Paid && !g.promo
      case Promotion(p) => g.purchase == Some(p) && g.promo
      case PaidPromotion(p) => g.purchase == Some(p) && g.kind == Paid && g.promo
      case FreePromotion(p) => g.purchase == Some(p) && g.kind == Free && g.promo
      case PlainFree(p) => g.purchase == Some(p) && g.kind == Free && !g.promo
    }
  }

  function Total(lots: seq<Lot>, c: Class): nat {
    if lots == [] then 0
    else
      var last := lots[|lots| - 1];
      Total(lots[..|lots| - 1], c) + if c.Has(last.grant) then last.amount else 0
  }

  lemma TotalOfOne(lot: Lot, c: Class)
    ensures Total([lot], c) == if c.Has(lot.grant) then lot.amount else 0
  {
    assert [lot][..0] == [];
  }

  lemma {:induction false} TotalConcat(a: seq<Lot>, b: seq<Lot>, c: Class)
    ensures Total(a + b, c) == Total(a, c) + Total(b, c)
  {
    if b == [] {
      assert a + b == a;
    } else {
      var n := |b| - 1;
      assert (a + b)[..|a + b| - 1] == a + b[..n];
      TotalConcat(a, b[..n], c);
    }
  }

  /** Summing over a class that is the disjoint union of two others adds their sums. */
  lemma {:induction false} TotalSplit(lots: seq<Lot>, a: Class, b: Class, whole: Class)
    requires forall g: Grant :: whole.Has(g) <==> a.Has(g) || b.Has(g)
    requires forall g: Grant :: !(a.Has(g) && b.Has(g))
    ensures Total(lots, whole) == Total(lots, a) + Total(lots, b)
  {
    if lots != [] {
      TotalSplit(lots[..|lots| - 1], a, b, whole);
    }
  }

  /** Both sequences carry the same grants, and each amount of the first is at most the second's. */
  ghost predicate Below(xs: seq<Lot>, ys: seq<Lot>) {
    |xs| == |ys| && forall i | 0 <= i < |xs| :: xs[i].grant == ys[i].grant && xs[i].amount <= ys[i].amount
  }

  lemma BelowPrefix(xs: seq<Lot>, ys: seq<Lot>)
    requires Below(xs, ys) && xs != []
    ensures Below(xs[..|xs| - 1], ys[..|xs| - 1])
  {
  }

  lemma {:induction false} TotalMonotone(xs: seq<Lot>, ys: seq<Lot>, c: Class)
    requires Below(xs, ys)
    ensures Total(xs, c) <= Total(ys, c)
  {
    if xs != [] {
      TotalMonotone(xs[..|xs| - 1], ys[..|ys| - 1], c);
    }
  }

  /** Each amount of `zs` is the sum of the amounts of `xs` and `ys` at the same grant. */
  ghost predicate Adds(xs: seq<Lot>, ys: seq<Lot>, zs: seq<Lot>) {
    |xs| == |ys| == |zs|
    && forall i | 0 <= i < |xs| ::
         xs[i].grant == ys[i].grant == zs[i].grant && xs[i].amount + ys[i].amount == zs[i].amount
  }

  lemma AddsPrefix(xs: seq<Lot>, ys: seq<Lot>, zs: seq<Lot>)
    requires Adds(xs, ys, zs) && xs != []
    ensures Adds(xs[..|xs| - 1], ys[..|xs| - 1], zs[..|xs| - 1])
  {
  }

  lemma AddsOneMore(xs: seq<Lot>, ys: seq<Lot>, zs: seq<Lot>, x: Lot, y: Lot, z: Lot)
    requires Adds(xs, ys, zs)
    requires x.grant == y.grant == z.grant && x.amount + y.amount == z.amount
    ensures Adds(xs + [x], ys + [y], zs + [z])
  {
  }

  lemma {:induction false} TotalAdds(xs: seq<Lot>, ys: seq<Lot>, zs: seq<Lot>, c: Class)
    requires Adds(xs, ys, zs)
    ensures Total(zs, c) == Total(xs, c) + Total(ys, c)
  {
    if xs != [] {
      var n := |xs| - 1;
      TotalAdds(xs[..n], ys[..n], zs[..n], c);
    }
  }

  function Without(lots: seq<Lot>, j: nat): seq<Lot>
    requires j < |lots|
  {
    lots[..j] + lots[j + 1..]
  }

  lemma TotalWithout(lots: seq<Lot>, j: nat, c: Class)
    requires j < |lots|
    ensures Total(lots, c) == Total(Without(lots, j), c) + if c.Has(lots[j].grant) then lots[j].amount else 0
  {
    var x := lots[j];
    assert lots == lots[..j] + [x] + lots[j + 1..];
    TotalConcat(lots[..j] + [x], lots[j + 1..], c);
    TotalConcat(lots[..j], lots[j + 1..], c);
    assert (lots[..j] + [x])[..j] == lots[..j];
  }

  lemma WithoutMultiset(lots: seq<Lot>, j: nat)
    requires j < |lots|
    ensures multiset(Without(lots, j)) == multiset(lots) - multiset{lots[j]}
  {
    assert lots == lots[..j] + [lots[j]] + lots[j + 1..];
  }

  lemma FindLast(xs: seq<Lot>, ys: seq<Lot>) returns (j: nat)
    requires multiset(xs) == multiset(ys) && xs != []
    ensures j < |ys| && ys[j] == xs[|xs| - 1]
    ensures multiset(Without(ys, j)) == multiset(xs[..|xs| - 1])
  {
    var n := |xs| - 1;
    assert xs[n] in multiset(ys);
    j :| 0 <= j < |ys| && ys[j] == xs[n];
    WithoutMultiset(ys, j);
    WithoutMultiset(xs, n);
    assert Without(xs, n) == xs[..n];
  }

  /** A sum over a class does not depend on the order of the lots. */
  lemma {:induction false} TotalPermutation(xs: seq<Lot>, ys: seq<Lot>, c: Class)
    requires multiset(xs) == multiset(ys)
    ensures Total(xs, c) == Total(ys, c)
  {
    if xs == [] {
      assert |multiset(ys)| == 0;
    } else {
      var j := FindLast(xs, ys);
      TotalPermutation(xs[..|xs| - 1], Without(ys, j), c);
      TotalWithout(ys, j, c);
    }
  }

  /** No lot of the class holds anything exactly when the class sums to zero. */
  lemma {:induction false} TotalZero(lots: seq<Lot>, c: Class)
    ensures Total(lots, c) == 0 <==> forall i | 0 <= i < |lots| && c.Has(lots[i].grant) :: lots[i].amount == 0
  {
    if lots != [] {
      var n := |lots| - 1;
      TotalZero(lots[..n], c);
      assert forall i | 0 <= i < n :: lots[..n][i] == lots[i];
    }
  }
}
