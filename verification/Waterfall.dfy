/** The two-stage waterfall over ordered grants: refund recovery first, then refund lock, kept per purchase. */
module Waterfall {
  import opened Prelude
  import opened Tables

  /** What is still to be recovered and still to be locked, per purchase. */
  datatype Pools = Pools(recovery: map<nat, nat>, lock: map<nat, nat>)

  function RecoveredFrom(lot: Lot, pools: Pools): nat {
    match lot.grant.purchase
    case None => 0
    case Some(p) => Min(lot.amount, Get(pools.recovery, p))
  }

  function LockedFrom(lot: Lot, pools: Pools): nat {
    match lot.grant.purchase
    case None => 0
    case Some(p) => Min(lot.amount - RecoveredFrom(lot, pools), Get(pools.lock, p))
  }

  function Remaining(lot: Lot, pools: Pools): Lot {
    lot.(amount := lot.amount - RecoveredFrom(lot, pools) - LockedFrom(lot, pools))
  }

  /** The pools after one grant has absorbed its share. */
  function Drain(lot: Lot, pools: Pools): Pools {
    match lot.grant.purchase
    case None => pools
    case Some(p) =>
      Pools(
        pools.recovery[p := Get(pools.recovery, p) - RecoveredFrom(lot, pools)],
        pools.lock[p := Get(pools.lock, p) - LockedFrom(lot, pools)])
  }

  function Drained(lots: seq<Lot>, pools: Pools): Pools {
    if lots == [] then pools
    else Drain(lots[|lots| - 1], Drained(lots[..|lots| - 1], pools))
  }

  function Snapshots(lots: seq<Lot>, pools: Pools): (snapshots: seq<Lot>)
    ensures |snapshots| == |lots|
  {
    if lots == [] then []
    else
      var n := |lots| - 1;
      Snapshots(lots[..n], pools) + [Remaining(lots[n], Drained(lots[..n], pools))]
  }

  /** Debt summed over the given purchases. */
  function Debt(purchases: seq<nat>, recovery: map<nat, nat>): nat {
    if purchases == [] then 0
    else Debt(purchases[..|purchases| - 1], recovery) + Get(recovery, purchases[|purchases| - 1])
  }

  /** The i-th snapshot is computed from the pools left by the grants before it. */
  lemma {:induction false} SnapshotAt(lots: seq<Lot>, pools: Pools, i: nat)
    requires i < |lots|
    ensures Snapshots(lots, pools)[i] == Remaining(lots[i], Drained(lots[..i], pools))
    ensures Snapshots(lots, pools)[..i] == Snapshots(lots[..i], pools)
  {
    var n := |lots| - 1;
    if i < n {
      SnapshotAt(lots[..n], pools, i);
      assert lots[..n][..i] == lots[..i];
      assert Snapshots(lots, pools)[..i] == Snapshots(lots[..n], pools)[..i];
    }
  }

  lemma {:induction false} SnapshotsBelow(lots: seq<Lot>, pools: Pools)
    ensures Below(Snapshots(lots, pools), lots)
  {
    if lots != [] {
      SnapshotsBelow(lots[..|lots| - 1], pools);
    }
  }

  // ----- closed form

  /** After any prefix, the pools of a purchase depend only on how much its grants held in total. */
  lemma {:induction false} PoolsClosedForm(lots: seq<Lot>, pools: Pools, p: nat)
    ensures Get(Drained(lots, pools).recovery, p) == Monus(Get(pools.recovery, p), Total(lots, Linked(p)))
    ensures Get(Drained(lots, pools).recovery, p) + Get(Drained(lots, pools).lock, p)
         == Monus(Get(pools.recovery, p) + Get(pools.lock, p), Total(lots, Linked(p)))
  {
    if lots != [] {
      PoolsClosedForm(lots[..|lots| - 1], pools, p);
    }
  }

  /** Per purchase the waterfall leaves max(0, held - recovery - lock) available. */
  lemma {:induction false} AvailableClosedForm(lots: seq<Lot>, pools: Pools, p: nat)
    ensures Total(Snapshots(lots, pools), Linked(p))
         == Monus(Total(lots, Linked(p)), Get(pools.recovery, p) + Get(pools.lock, p))
  {
    if lots != [] {
      var n := |lots| - 1;
      AvailableClosedForm(lots[..n], pools, p);
      PoolsClosedForm(lots[..n], pools, p);
      assert Snapshots(lots, pools)[..n] == Snapshots(lots[..n], pools);
    }
  }

  /** One grant's availability, from the amounts held up to it. */
  lemma SnapshotClosedForm(lots: seq<Lot>, pools: Pools, i: nat)
    requires i < |lots|
    ensures Snapshots(lots, pools)[i].grant == lots[i].grant
    ensures lots[i].grant.purchase == None ==> Snapshots(lots, pools)[i].amount == lots[i].amount
    ensures forall p | lots[i].grant.purchase == Some(p) ::
              var taken := Get(pools.recovery, p) + Get(pools.lock, p);
              Snapshots(lots, pools)[i].amount
              == Monus(Total(lots[..i + 1], Linked(p)), taken) - Monus(Total(lots[..i], Linked(p)), taken)
  {
    SnapshotAt(lots, pools, i);
    if lots[i].grant.purchase.Some? {
      var p := lots[i].grant.purchase.value;
      PoolsClosedForm(lots[..i], pools, p);
      assert lots[..i + 1][..i] == lots[..i];
    }
  }

  /** Leftover debt, and what is available per purchase, are the same for every order of the grants. */
  lemma OrderIndependent(lots: seq<Lot>, other: seq<Lot>, pools: Pools, p: nat)
    requires multiset(lots) == multiset(other)
    ensures Total(Snapshots(lots, pools), Linked(p)) == Total(Snapshots(other, pools), Linked(p))
    ensures Get(Drained(lots, pools).recovery, p) == Get(Drained(other, pools).recovery, p)
  {
    TotalPermutation(lots, other, Linked(p));
    AvailableClosedForm(lots, pools, p);
    AvailableClosedForm(other, pools, p);
    PoolsClosedForm(lots, pools, p);
    PoolsClosedForm(other, pools, p);
  }

  /** A purchase keeps debt only when every one of its grants is drained. */
  lemma DebtOnlyWhenDrained(lots: seq<Lot>, pools: Pools, p: nat)
    requires Get(Drained(lots, pools).recovery, p) > 0
    ensures forall i | 0 <= i < |lots| && lots[i].grant.purchase == Some(p) ::
              Snapshots(lots, pools)[i].amount == 0
  {
    PoolsClosedForm(lots, pools, p);
    AvailableClosedForm(lots, pools, p);
    TotalZero(Snapshots(lots, pools), Linked(p));
    SnapshotsBelow(lots, pools);
  }

  // ----- comparison of two waterfalls

  ghost predicate Lighter(a: Pools, b: Pools) {
    && (forall p: nat :: Get(a.recovery, p) <= Get(b.recovery, p))
    && (forall p: nat :: Get(a.lock, p) <= Get(b.lock, p))
  }

  lemma DrainPools(lot: Lot, pools: Pools, p: nat)
    ensures Get(Drain(lot, pools).recovery, p)
         == if lot.grant.purchase == Some(p) then Monus(Get(pools.recovery, p), lot.amount) else Get(pools.recovery, p)
    ensures Get(Drain(lot, pools).lock, p)
         == if lot.grant.purchase == Some(p)
            then Monus(Get(pools.lock, p), Monus(lot.amount, Get(pools.recovery, p)))
            else Get(pools.lock, p)
  {
  }

  lemma DrainKeepsLighter(lot: Lot, a: Pools, b: Pools)
    requires Lighter(a, b)
    ensures Lighter(Drain(lot, a), Drain(lot, b))
    ensures Remaining(lot, b).amount <= Remaining(lot, a).amount
  {
    forall p: nat
      ensures Get(Drain(lot, a).recovery, p) <= Get(Drain(lot, b).recovery, p)
      ensures Get(Drain(lot, a).lock, p) <= Get(Drain(lot, b).lock, p)
    {
      DrainPools(lot, a, p);
      DrainPools(lot, b, p);
    }
  }

  /** Smaller pools leave every grant at least as much, and leave smaller pools behind. */
  lemma {:induction false} LighterPools(lots: seq<Lot>, a: Pools, b: Pools)
    requires Lighter(a, b)
    ensures Lighter(Drained(lots, a), Drained(lots, b))
    ensures Below(Snapshots(lots, b), Snapshots(lots, a))
  {
    if lots != [] {
      var n := |lots| - 1;
      LighterPools(lots[..n], a, b);
      DrainKeepsLighter(lots[n], Drained(lots[..n], a), Drained(lots[..n], b));
    }
  }

  lemma DrainLighter(lot: Lot, pools: Pools)
    ensures Lighter(Drain(lot, pools), pools)
  {
  }

  lemma {:induction false} DrainedConcat(a: seq<Lot>, b: seq<Lot>, pools: Pools)
    ensures Drained(a + b, pools) == Drained(b, Drained(a, pools))
    ensures Snapshots(a + b, pools) == Snapshots(a, pools) + Snapshots(b, Drained(a, pools))
  {
    if b == [] {
      assert a + b == a;
    } else {
      var n := |b| - 1;
      assert (a + b)[..|a + b| - 1] == a + b[..n];
      DrainedConcat(a, b[..n], pools);
    }
  }

  /** A further grant anywhere in the order lowers no availability and raises no leftover pool. */
  lemma MoreGrants(before: seq<Lot>, lot: Lot, after: seq<Lot>, pools: Pools)
    ensures Lighter(Drained(before + [lot] + after, pools), Drained(before + after, pools))
    ensures forall c: Class ::
              Total(Snapshots(before + after, pools), c) <= Total(Snapshots(before + [lot] + after, pools), c)
  {
    var mid := Drained(before, pools);
    var next := Drained(before + [lot], pools);
    DrainedConcat(before, after, pools);
    DrainedConcat(before + [lot], after, pools);
    DrainedConcat(before, [lot], pools);
    assert [lot][..0] == [];
    DrainLighter(lot, mid);
    LighterPools(after, next, mid);
    forall c: Class
      ensures Total(Snapshots(before + after, pools), c) <= Total(Snapshots(before + [lot] + after, pools), c)
    {
      TotalConcat(Snapshots(before, pools), Snapshots(after, mid), c);
      TotalConcat(Snapshots(before + [lot], pools), Snapshots(after, next), c);
      TotalConcat(Snapshots(before, pools), Snapshots([lot], mid), c);
      TotalMonotone(Snapshots(after, mid), Snapshots(after, next), c);
    }
  }

  ghost predicate SameWeight(a: Pools, b: Pools) {
    forall p: nat :: Get(a.recovery, p) + Get(a.lock, p) == Get(b.recovery, p) + Get(b.lock, p)
  }

  lemma DrainKeepsWeight(lot: Lot, a: Pools, b: Pools)
    requires SameWeight(a, b)
    ensures SameWeight(Drain(lot, a), Drain(lot, b))
    ensures Remaining(lot, a) == Remaining(lot, b)
  {
    forall p: nat
      ensures Get(Drain(lot, a).recovery, p) + Get(Drain(lot, a).lock, p)
           == Get(Drain(lot, b).recovery, p) + Get(Drain(lot, b).lock, p)
    {
      DrainPools(lot, a, p);
      DrainPools(lot, b, p);
    }
  }

  /** Moving an amount from lock to recovery changes no availability. */
  lemma {:induction false} SameWeightPools(lots: seq<Lot>, a: Pools, b: Pools)
    requires SameWeight(a, b)
    ensures SameWeight(Drained(lots, a), Drained(lots, b))
    ensures Snapshots(lots, a) == Snapshots(lots, b)
  {
    if lots != [] {
      var n := |lots| - 1;
      SameWeightPools(lots[..n], a, b);
      DrainKeepsWeight(lots[n], Drained(lots[..n], a), Drained(lots[..n], b));
    }
  }

  lemma TakeThenDrain(lot: Lot, take: nat, pools: Pools)
    requires take <= Remaining(lot, pools).amount
    ensures Drain(lot.(amount := lot.amount - take), pools) == Drain(lot, pools)
    ensures Remaining(lot.(amount := lot.amount - take), pools).amount == Remaining(lot, pools).amount - take
  {
  }

  /** Taking from what a waterfall left available, and running it again, takes exactly that and nothing else. */
  lemma {:induction false} TakingCommutes(lots: seq<Lot>, takes: seq<Lot>, rest: seq<Lot>, pools: Pools)
    requires Below(takes, Snapshots(lots, pools))
    requires Adds(takes, rest, lots)
    ensures Drained(rest, pools) == Drained(lots, pools)
    ensures Adds(takes, Snapshots(rest, pools), Snapshots(lots, pools))
  {
    if lots != [] {
      var n := |lots| - 1;
      var before := Drained(lots[..n], pools);
      var old_, new_ := Snapshots(lots[..n], pools), Snapshots(rest[..n], pools);
      AddsPrefix(takes, rest, lots);
      BelowPrefix(takes, Snapshots(lots, pools));
      assert Snapshots(lots, pools)[..n] == old_;
      TakingCommutes(lots[..n], takes[..n], rest[..n], pools);
      TakeThenDrain(lots[n], takes[n].amount, before);
      assert rest[n] == lots[n].(amount := lots[n].amount - takes[n].amount);
      AddsOneMore(takes[..n], new_, old_, takes[n], Remaining(rest[n], before), Remaining(lots[n], before));
      assert takes == takes[..n] + [takes[n]];
    }
  }

  lemma {:induction false} DebtMonotone(purchases: seq<nat>, a: map<nat, nat>, b: map<nat, nat>)
    requires forall p: nat :: Get(a, p) <= Get(b, p)
    ensures Debt(purchases, a) <= Debt(purchases, b)
  {
    if purchases != [] {
      DebtMonotone(purchases[..|purchases| - 1], a, b);
    }
  }
}
