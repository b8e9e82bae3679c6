/** Insertion sort by a comparator, and what it means for a result to be in order. */
module Sorting {
  /** Where a row goes in a stable sort: ahead of the first row it precedes. */
  function Place<T>(less: (T, T) -> bool, sorted: seq<T>, x: T): (k: nat)
    ensures k <= |sorted|
    ensures forall i | 0 <= i < k :: !less(x, sorted[i])
    ensures k < |sorted| ==> less(x, sorted[k])
  {
    if sorted == [] || less(x, sorted[0]) then 0 else 1 + Place(less, sorted[1..], x)
  }

  function Insert<T>(less: (T, T) -> bool, sorted: seq<T>, x: T): seq<T> {
    var k := Place(less, sorted, x);
    sorted[..k] + [x] + sorted[k..]
  }

  function Sort<T>(less: (T, T) -> bool, rows: seq<T>): seq<T> {
    if rows == [] then [] else Insert(less, Sort(less, rows[..|rows| - 1]), rows[|rows| - 1])
  }

  ghost predicate Ordered<T>(order: (T, T) -> bool, rows: seq<T>) {
    forall i, j | 0 <= i < j < |rows| :: order(rows[i], rows[j])
  }

  /** A strict order. */
  ghost predicate Strict<T(!new)>(order: (T, T) -> bool) {
    && (forall a, b, c | order(a, b) && order(b, c) :: order(a, c))
    && (forall a, b | order(a, b) :: !order(b, a))
  }

  /** Sorting by `less` leads to `order`: it refines it, and rows it ties already stand in that order. */
  ghost predicate Leads<T>(less: (T, T) -> bool, order: (T, T) -> bool, rows: seq<T>) {
    && (forall i, j | 0 <= i < |rows| && 0 <= j < |rows| && less(rows[i], rows[j]) :: order(rows[i], rows[j]))
    && (forall i, j | 0 <= i < j < |rows| && !less(rows[j], rows[i]) :: order(rows[i], rows[j]))
  }

  lemma InsertKeepsRows<T>(less: (T, T) -> bool, sorted: seq<T>, x: T)
    ensures |Insert(less, sorted, x)| == |sorted| + 1
    ensures multiset(Insert(less, sorted, x)) == multiset(sorted) + multiset{x}
  {
    var k := Place(less, sorted, x);
    assert sorted == sorted[..k] + sorted[k..];
  }

  lemma {:induction false} SortKeepsRows<T>(less: (T, T) -> bool, rows: seq<T>)
    ensures |Sort(less, rows)| == |rows|
    ensures multiset(Sort(less, rows)) == multiset(rows)
  {
    if rows != [] {
      var n := |rows| - 1;
      SortKeepsRows(less, rows[..n]);
      InsertKeepsRows(less, Sort(less, rows[..n]), rows[n]);
      assert rows == rows[..n] + [rows[n]];
    }
  }

  lemma SortKeepsMembers<T>(less: (T, T) -> bool, rows: seq<T>)
    ensures |Sort(less, rows)| == |rows|
    ensures forall x :: x in Sort(less, rows) <==> x in rows
  {
    SortKeepsRows(less, rows);
    forall x ensures x in Sort(less, rows) <==> x in rows {
      assert x in Sort(less, rows) <==> x in multiset(Sort(less, rows));
      assert x in rows <==> x in multiset(rows);
    }
  }

  lemma InsertOrders<T(!new)>(less: (T, T) -> bool, order: (T, T) -> bool, sorted: seq<T>, x: T)
    requires Strict(order) && Ordered(order, sorted)
    requires forall i | 0 <= i < |sorted| && less(x, sorted[i]) :: order(x, sorted[i])
    requires forall i | 0 <= i < |sorted| && !less(x, sorted[i]) :: order(sorted[i], x)
    ensures Ordered(order, Insert(less, sorted, x))
  {
    var k := Place(less, sorted, x);
    forall i | k <= i < |sorted| ensures order(x, sorted[i]) {
      assert order(x, sorted[k]);
      assert k < i ==> order(sorted[k], sorted[i]);
    }
  }

  lemma {:induction false} SortOrders<T(!new)>(less: (T, T) -> bool, order: (T, T) -> bool, rows: seq<T>)
    requires Strict(order) && Leads(less, order, rows)
    ensures Ordered(order, Sort(less, rows))
  {
    if rows != [] {
      var n := |rows| - 1;
      SortOrders(less, order, rows[..n]);
      SortKeepsMembers(less, rows[..n]);
      var sorted := Sort(less, rows[..n]);
      forall i | 0 <= i < |sorted|
        ensures less(rows[n], sorted[i]) ==> order(rows[n], sorted[i])
        ensures !less(rows[n], sorted[i]) ==> order(sorted[i], rows[n])
      {
        assert sorted[i] in rows[..n];
        var m :| 0 <= m < n && rows[m] == sorted[i];
      }
      InsertOrders(less, order, sorted, rows[n]);
    }
  }

  // ----- comparing ordered lists

  /** In an ordered list that contains another, no row stands earlier than in the other. */
  lemma {:induction false} EmbeddedIndex<T(!new)>(order: (T, T) -> bool, a: seq<T>, f: seq<T>, k: nat, i: nat)
    requires Strict(order) && Ordered(order, a) && Ordered(order, f) && (forall x | x in a :: x in f)
    requires k < |a| && i < |f| && a[k] == f[i]
    ensures k <= i
    decreases k
  {
    if k > 0 {
      assert a[k - 1] in f;
      var h :| 0 <= h < |f| && f[h] == a[k - 1];
      assert order(f[h], f[i]);
      assert h < i;
      EmbeddedIndex(order, a, f, k - 1, h);
    }
  }

  lemma SameIndex<T(!new)>(order: (T, T) -> bool, a: seq<T>, f: seq<T>, m: nat, i: nat)
    requires Strict(order) && Ordered(order, a) && Ordered(order, f) && (forall x | x in a :: x in f)
    requires i < m <= |f| && (forall x | x in f[..m] :: x in a)
    ensures i < |a| && a[i] == f[i]
  {
    assert f[..m][i] in a;
    var k :| 0 <= k < |a| && a[k] == f[i];
    EmbeddedIndex(order, a, f, k, i);
    EmbeddedIndex(order, f[..m], a, i, k);
  }

  /** Two ordered lists agree up to any point before which neither has a row of its own. */
  lemma PrefixAgrees<T(!new)>(order: (T, T) -> bool, a: seq<T>, f: seq<T>, m: nat)
    requires Strict(order) && Ordered(order, a) && Ordered(order, f) && (forall x | x in a :: x in f)
    requires m <= |f| && (forall x | x in f[..m] :: x in a)
    ensures m <= |a| && a[..m] == f[..m]
  {
    if m > 0 {
      SameIndex(order, a, f, m, m - 1);
    }
    forall i | 0 <= i < m ensures a[i] == f[i] {
      SameIndex(order, a, f, m, i);
    }
  }

  /** Two ordered arrangements of the same rows are the same. */
  lemma OrderedIsUnique<T(!new)>(order: (T, T) -> bool, xs: seq<T>, ys: seq<T>)
    requires Strict(order) && Ordered(order, xs) && Ordered(order, ys) && multiset(xs) == multiset(ys)
    ensures xs == ys
  {
    forall x ensures x in xs <==> x in ys {
      assert x in xs <==> x in multiset(xs);
      assert x in ys <==> x in multiset(ys);
    }
    assert |xs| == |multiset(xs)| && |ys| == |multiset(ys)|;
    assert ys[..|ys|] == ys;
    PrefixAgrees(order, xs, ys, |ys|);
    assert xs[..|ys|] == xs;
  }
}
