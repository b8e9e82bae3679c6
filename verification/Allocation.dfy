/** The greedy allocation of a usage over ordered grants, with a cap on the paid part. */
module Allocation {
  import opened Prelude
  import opened Tables

  /** What the next grant gives, after `takes` has been taken from the grants before it. */
  function Take(snapshot: Lot, takes: seq<Lot>, cap: nat, amount: nat): nat {
    var capacity :=
      if snapshot.grant.kind == Paid
      then Min(snapshot.amount, Monus(cap, Total(takes, OfKind(Paid))))
      else snapshot.amount;
    Min(Monus(amount, Total(takes, Every)), capacity)
  }

  function Takes(snapshots: seq<Lot>, cap: nat, amount: nat): (takes: seq<Lot>)
    ensures |takes| == |snapshots|
  {
    if snapshots == [] then []
    else
      var n := |snapshots| - 1;
      var before := Takes(snapshots[..n], cap, amount);
      before + [Lot(snapshots[n].grant, Take(snapshots[n], before, cap, amount))]
  }

  /** A way to take exactly `amount` that respects every availability and the paid cap. */
  ghost predicate Feasible(takes: seq<Lot>, snapshots: seq<Lot>, cap: nat, amount: nat) {
    && Below(takes, snapshots)
    && Total(takes, OfKind(Paid)) <= cap
    && Total(takes, Every) == amount
  }

  lemma TotalKinds(lots: seq<Lot>)
    ensures Total(lots, Every) == Total(lots, OfKind(Free)) + Total(lots, OfKind(Paid))
  {
    TotalSplit(lots, OfKind(Free), OfKind(Paid), Every);
  }

  lemma {:induction false} TakesPrefix(snapshots: seq<Lot>, cap: nat, amount: nat, k: nat)
    requires k <= |snapshots|
    ensures Takes(snapshots, cap, amount)[..k] == Takes(snapshots[..k], cap, amount)
  {
    var n := |snapshots|;
    if k < n {
      TakesPrefix(snapshots[..n - 1], cap, amount, k);
      assert snapshots[..n - 1][..k] == snapshots[..k];
    } else {
      assert snapshots[..k] == snapshots;
    }
  }

  /** What one more grant adds to the sums of an allocation. */
  lemma TakeAdds(snapshots: seq<Lot>, cap: nat, amount: nat, c: Class)
    requires snapshots != []
    ensures var n := |snapshots| - 1;
            var before := Takes(snapshots[..n], cap, amount);
            Total(Takes(snapshots, cap, amount), c)
            == Total(before, c) + if c.Has(snapshots[n].grant) then Take(snapshots[n], before, cap, amount) else 0
  {
    var n := |snapshots| - 1;
    assert Takes(snapshots, cap, amount)[..n] == Takes(snapshots[..n], cap, amount);
  }

  lemma {:induction false} TakesBelow(snapshots: seq<Lot>, cap: nat, amount: nat)
    ensures Below(Takes(snapshots, cap, amount), snapshots)
  {
    if snapshots != [] {
      TakesBelow(snapshots[..|snapshots| - 1], cap, amount);
    }
  }

  /** The allocator never takes more than it may, and stops short only once every source is used up. */
  lemma {:induction false} TakesMaximal(snapshots: seq<Lot>, cap: nat, amount: nat)
    ensures Below(Takes(snapshots, cap, amount), snapshots)
    ensures Total(Takes(snapshots, cap, amount), OfKind(Paid)) <= cap
    ensures Total(Takes(snapshots, cap, amount), Every) <= amount
    ensures Total(Takes(snapshots, cap, amount), Every) < amount ==>
              && Total(Takes(snapshots, cap, amount), OfKind(Free)) == Total(snapshots, OfKind(Free))
              && Total(Takes(snapshots, cap, amount), OfKind(Paid)) == Min(cap, Total(snapshots, OfKind(Paid)))
  {
    TakesBelow(snapshots, cap, amount);
    if snapshots != [] {
      TakesMaximal(snapshots[..|snapshots| - 1], cap, amount);
      TakeAdds(snapshots, cap, amount, Every);
      TakeAdds(snapshots, cap, amount, OfKind(Paid));
      TakeAdds(snapshots, cap, amount, OfKind(Free));
    }
  }

  /** How much the first grants give: all that the amount, their availability and the cap allow. */
  lemma TakesTotal(snapshots: seq<Lot>, cap: nat, amount: nat)
    ensures Total(Takes(snapshots, cap, amount), Every)
         == Min(amount, Total(snapshots, OfKind(Free)) + Min(cap, Total(snapshots, OfKind(Paid))))
  {
    var takes := Takes(snapshots, cap, amount);
    TakesMaximal(snapshots, cap, amount);
    TotalKinds(takes);
    TotalMonotone(takes, snapshots, OfKind(Free));
    TotalMonotone(takes, snapshots, OfKind(Paid));
  }

  /** An allocation that does not fall short is feasible, and its free and paid parts make up the amount. */
  lemma TakesSound(snapshots: seq<Lot>, cap: nat, amount: nat)
    requires Total(Takes(snapshots, cap, amount), Every) >= amount
    ensures Feasible(Takes(snapshots, cap, amount), snapshots, cap, amount)
    ensures Total(Takes(snapshots, cap, amount), OfKind(Free)) + Total(Takes(snapshots, cap, amount), OfKind(Paid))
         == amount
  {
    TakesMaximal(snapshots, cap, amount);
    TotalKinds(Takes(snapshots, cap, amount));
  }

  lemma FeasibleBound(takes: seq<Lot>, snapshots: seq<Lot>, cap: nat)
    requires Below(takes, snapshots)
    requires Total(takes, OfKind(Paid)) <= cap
    ensures Total(takes, Every) <= Total(snapshots, OfKind(Free)) + Min(cap, Total(snapshots, OfKind(Paid)))
  {
    TotalKinds(takes);
    TotalMonotone(takes, snapshots, OfKind(Free));
    TotalMonotone(takes, snapshots, OfKind(Paid));
  }

  /** Allocation succeeds exactly when some allocation exists, and that is a comparison of sums. */
  lemma SucceedsExactlyWhenFeasible(snapshots: seq<Lot>, cap: nat, amount: nat)
    ensures Total(Takes(snapshots, cap, amount), Every) == amount
        <==> exists takes :: Feasible(takes, snapshots, cap, amount)
    ensures Total(Takes(snapshots, cap, amount), Every) == amount
        <==> amount <= Total(snapshots, OfKind(Free)) + Min(cap, Total(snapshots, OfKind(Paid)))
  {
    TakesMaximal(snapshots, cap, amount);
    TakesTotal(snapshots, cap, amount);
    if Total(Takes(snapshots, cap, amount), Every) == amount {
      assert Feasible(Takes(snapshots, cap, amount), snapshots, cap, amount);
    }
    if takes :| Feasible(takes, snapshots, cap, amount) {
      FeasibleBound(takes, snapshots, cap);
    }
  }

  lemma FallsShortExactly(snapshots: seq<Lot>, cap: nat, amount: nat)
    requires cap <= Total(snapshots, OfKind(Paid))
    ensures Total(Takes(snapshots, cap, amount), Every) < amount <==> Total(snapshots, OfKind(Free)) + cap < amount
  {
    TakesTotal(snapshots, cap, amount);
  }

  lemma CutSums(lots: seq<Lot>, k: nat, c: Class)
    requires k <= |lots|
    ensures Total(lots, c) == Total(lots[..k], c) + Total(lots[k..], c)
  {
    assert lots == lots[..k] + lots[k..];
    TotalConcat(lots[..k], lots[k..], c);
  }

  lemma CutBelow(xs: seq<Lot>, ys: seq<Lot>, k: nat)
    requires Below(xs, ys) && k <= |xs|
    ensures Below(xs[..k], ys[..k])
  {
  }

  lemma PrefixAtMost(other: seq<Lot>, snapshots: seq<Lot>, cap: nat, amount: nat, k: nat)
    requires Feasible(other, snapshots, cap, amount) && k <= |snapshots|
    ensures Total(other[..k], Every) <= Total(Takes(snapshots[..k], cap, amount), Every)
  {
    CutSums(other, k, Every);
    CutSums(other, k, OfKind(Paid));
    CutBelow(other, snapshots, k);
    FeasibleBound(other[..k], snapshots[..k], cap);
    TakesTotal(snapshots[..k], cap, amount);
  }

  /** For every cut of the order, no allocation takes less from the part after the cut. */
  lemma LeastAfterEveryCut(snapshots: seq<Lot>, cap: nat, amount: nat, other: seq<Lot>, k: nat)
    requires Feasible(other, snapshots, cap, amount)
    requires k <= |snapshots|
    ensures Total(Takes(snapshots, cap, amount)[k..], Every) <= Total(other[k..], Every)
  {
    PrefixAtMost(other, snapshots, cap, amount, k);
    TakesPrefix(snapshots, cap, amount, k);
    TakesTotal(snapshots, cap, amount);
    CutTheRest(Takes(snapshots, cap, amount), other, k);
  }

  lemma CutTheRest(a: seq<Lot>, b: seq<Lot>, k: nat)
    requires k <= |a| == |b|
    requires Total(b[..k], Every) <= Total(a[..k], Every)
    requires Total(a, Every) <= Total(b, Every)
    ensures Total(a[k..], Every) <= Total(b[k..], Every)
  {
    CutSums(a, k, Every);
    CutSums(b, k, Every);
  }

  /** With free grants ahead of paid ones, no allocation spends fewer paid credits. */
  lemma FewestPaid(snapshots: seq<Lot>, cap: nat, amount: nat, other: seq<Lot>, frees: nat)
    requires Feasible(other, snapshots, cap, amount)
    requires frees <= |snapshots|
    requires forall i | 0 <= i < |snapshots| :: snapshots[i].grant.kind == Free <==> i < frees
    ensures Total(Takes(snapshots, cap, amount), OfKind(Paid)) <= Total(other, OfKind(Paid))
  {
    TakesMaximal(snapshots, cap, amount);
    LeastAfterEveryCut(snapshots, cap, amount, other, frees);
    PaidAfter(Takes(snapshots, cap, amount), frees);
    PaidAfter(other, frees);
  }

  lemma {:induction false} PaidAfter(lots: seq<Lot>, frees: nat)
    requires frees <= |lots|
    requires forall i | 0 <= i < |lots| :: lots[i].grant.kind == Free <==> i < frees
    ensures Total(lots, OfKind(Paid)) == Total(lots[frees..], Every)
  {
    var n := |lots|;
    if frees == n {
      NoneOf(lots, OfKind(Paid));
    } else {
      PaidAfter(lots[..n - 1], frees);
      assert lots[frees..][..n - 1 - frees] == lots[..n - 1][frees..];
    }
  }

  lemma {:induction false} NoneOf(lots: seq<Lot>, c: Class)
    requires forall i | 0 <= i < |lots| :: !c.Has(lots[i].grant)
    ensures Total(lots, c) == 0
  {
    if lots != [] {
      NoneOf(lots[..|lots| - 1], c);
    }
  }

  // ----- usage rows

  /** The stored rows: one per grant that gave something. */
  function Rows(takes: seq<Lot>, ledger: nat): seq<Usage> {
    if takes == [] then []
    else
      var last := takes[|takes| - 1];
      Rows(takes[..|takes| - 1], ledger)
      + if last.amount > 0 then [Usage(ledger, last.grant.id, last.amount)] else []
  }

  /** The allocations that the loop pushes: the grants that gave something. */
  function Chosen(takes: seq<Lot>): seq<Lot> {
    if takes == [] then []
    else
      var last := takes[|takes| - 1];
      Chosen(takes[..|takes| - 1]) + if last.amount > 0 then [last] else []
  }

  lemma {:induction false} RowsOfChosen(takes: seq<Lot>, ledger: nat)
    ensures Rows(takes, ledger)
         == seq(|Chosen(takes)|, i requires 0 <= i < |Chosen(takes)| =>
                Usage(ledger, Chosen(takes)[i].grant.id, Chosen(takes)[i].amount))
  {
    if takes != [] {
      RowsOfChosen(takes[..|takes| - 1], ledger);
    }
  }

  /** One more grant in the allocation. */
  lemma NextTake(snapshots: seq<Lot>, cap: nat, amount: nat, i: nat)
    requires i < |snapshots|
    ensures var before := Takes(snapshots[..i], cap, amount);
            var take := Lot(snapshots[i].grant, Take(snapshots[i], before, cap, amount));
            var after := Takes(snapshots[..i + 1], cap, amount);
            && after == before + [take]
            && Total(after, Every) == Total(before, Every) + take.amount
            && Total(after, OfKind(Paid))
               == Total(before, OfKind(Paid)) + (if take.grant.kind == Paid then take.amount else 0)
            && Chosen(after) == Chosen(before) + if take.amount > 0 then [take] else []
  {
    assert snapshots[..i + 1][..i] == snapshots[..i];
    var before := Takes(snapshots[..i], cap, amount);
    assert Takes(snapshots[..i + 1], cap, amount)[..i] == before;
  }

  /** What the loop computes from its running counters is what the next grant gives. */
  lemma CapacityLeft(snapshots: seq<Lot>, i: nat, cap: nat, amount: nat, remaining: int, paidCapacity: int)
    requires i < |snapshots|
    requires remaining == amount - Total(Takes(snapshots[..i], cap, amount), Every)
    requires paidCapacity == cap - Total(Takes(snapshots[..i], cap, amount), OfKind(Paid))
    ensures Take(snapshots[i], Takes(snapshots[..i], cap, amount), cap, amount)
         == Min(remaining, if snapshots[i].grant.kind == Paid then Min(snapshots[i].amount, paidCapacity)
                           else snapshots[i].amount)
  {
    TakesMaximal(snapshots[..i], cap, amount);
  }

  /** Once the amount is reached, the grants after it give nothing. */
  lemma {:induction false} ChosenStops(snapshots: seq<Lot>, cap: nat, amount: nat, k: nat)
    requires k <= |snapshots|
    requires Total(Takes(snapshots[..k], cap, amount), Every) == amount
    ensures Chosen(Takes(snapshots, cap, amount)) == Chosen(Takes(snapshots[..k], cap, amount))
    ensures Total(Takes(snapshots, cap, amount), Every) == amount
  {
    var n := |snapshots|;
    if k == n {
      assert snapshots[..k] == snapshots;
    } else {
      assert snapshots[..n - 1][..k] == snapshots[..k];
      ChosenStops(snapshots[..n - 1], cap, amount, k);
      assert Takes(snapshots, cap, amount)[..n - 1] == Takes(snapshots[..n - 1], cap, amount);
    }
  }

  function Used(usages: seq<Usage>, grant: nat): nat {
    if usages == [] then 0
    else
      var last := usages[|usages| - 1];
      Used(usages[..|usages| - 1], grant) + if last.grant == grant then last.amount else 0
  }

  lemma {:induction false} UsedConcat(a: seq<Usage>, b: seq<Usage>, grant: nat)
    ensures Used(a + b, grant) == Used(a, grant) + Used(b, grant)
  {
    if b == [] {
      assert a + b == a;
    } else {
      var n := |b| - 1;
      assert (a + b)[..|a + b| - 1] == a + b[..n];
      UsedConcat(a, b[..n], grant);
    }
  }

  ghost predicate DistinctIds(lots: seq<Lot>) {
    forall i, j | 0 <= i < j < |lots| :: lots[i].grant.id != lots[j].grant.id
  }

  lemma RowsStep(takes: seq<Lot>, ledger: nat, grant: nat)
    requires takes != []
    ensures Used(Rows(takes, ledger), grant)
         == Used(Rows(takes[..|takes| - 1], ledger), grant)
          + if takes[|takes| - 1].grant.id == grant then takes[|takes| - 1].amount else 0
  {
    var n := |takes| - 1;
    if takes[n].amount > 0 {
      var row := Usage(ledger, takes[n].grant.id, takes[n].amount);
      UsedConcat(Rows(takes[..n], ledger), [row], grant);
      assert [row][..0] == [];
    } else {
      assert Rows(takes, ledger) == Rows(takes[..n], ledger);
    }
  }

  lemma {:induction false} RowsElsewhere(takes: seq<Lot>, ledger: nat, grant: nat)
    requires forall i | 0 <= i < |takes| :: takes[i].grant.id != grant
    ensures Used(Rows(takes, ledger), grant) == 0
  {
    if takes != [] {
      RowsElsewhere(takes[..|takes| - 1], ledger, grant);
      RowsStep(takes, ledger, grant);
    }
  }

  lemma LastCharge(takes: seq<Lot>, ledger: nat)
    requires DistinctIds(takes) && takes != []
    ensures Used(Rows(takes, ledger), takes[|takes| - 1].grant.id) == takes[|takes| - 1].amount
  {
    var n := |takes| - 1;
    var first := takes[..n];
    forall k | 0 <= k < |first|
      ensures first[k].grant.id != takes[n].grant.id
    {
      assert first[k] == takes[k];
    }
    RowsElsewhere(first, ledger, takes[n].grant.id);
    RowsStep(takes, ledger, takes[n].grant.id);
  }

  lemma DistinctPrefix(takes: seq<Lot>, n: nat)
    requires DistinctIds(takes) && n <= |takes|
    ensures DistinctIds(takes[..n])
  {
  }

  /** The rows stored for an allocation charge each grant with exactly what was taken from it. */
  lemma {:induction false} RowsCharge(takes: seq<Lot>, ledger: nat, i: nat)
    requires DistinctIds(takes)
    requires i < |takes|
    ensures Used(Rows(takes, ledger), takes[i].grant.id) == takes[i].amount
  {
    var n := |takes| - 1;
    if i == n {
      LastCharge(takes, ledger);
    } else {
      DistinctPrefix(takes, n);
      RowsStep(takes, ledger, takes[i].grant.id);
      RowsCharge(takes[..n], ledger, i);
    }
  }
}
