/** The paged scan over liked authors that a character may come to follow. */
module FollowScan {
  import opened Prelude
  import opened SocialTables

  const PAGE_SIZE: nat := 100

  /** A liked author and on how many distinct posts. */
  datatype Liked = Liked(author: nat, posts: nat)

  ghost predicate Ascending(all: seq<Liked>) {
    forall i, j | 0 <= i < j < |all| :: all[i].author < all[j].author
  }

  function After(all: seq<Liked>, cursor: Option<nat>): seq<Liked> {
    if all == [] || cursor.None? || all[0].author > cursor.value then all else After(all[1..], cursor)
  }

  /** The grouped query in author order: authors after the cursor, at most `limit` of them. */
  function Page(all: seq<Liked>, cursor: Option<nat>, limit: nat): seq<Liked> {
    var rest := After(all, cursor);
    if |rest| <= limit then rest else rest[..limit]
  }

  datatype Criteria = Criteria(threshold: nat, active: set<nat>, existing: set<nat>)

  predicate Qualifies(l: Liked, c: Criteria) {
    l.posts >= c.threshold && l.author in c.active && l.author !in c.existing
  }

  /** The qualified authors of the whole list, in order. */
  function Qualified(all: seq<Liked>, c: Criteria): (authors: seq<nat>)
    ensures forall a | a in authors :: a in c.active && a !in c.existing
  {
    if all == [] then []
    else
      var n := |all| - 1;
      Qualified(all[..n], c) + if Qualifies(all[n], c) then [all[n].author] else []
  }

  lemma {:induction false} QualifiedConcat(a: seq<Liked>, b: seq<Liked>, c: Criteria)
    ensures Qualified(a + b, c) == Qualified(a, c) + Qualified(b, c)
  {
    if b == [] {
      assert a + b == a;
    } else {
      var n := |b| - 1;
      assert (a + b)[..|a + b| - 1] == a + b[..n];
      QualifiedConcat(a, b[..n], c);
    }
  }

  /** The authors after the k-th are the rest of the list. */
  lemma {:induction false} AfterIsRest(all: seq<Liked>, k: nat)
    requires Ascending(all) && k < |all|
    ensures After(all, Some(all[k].author)) == all[k + 1..]
  {
    if k == 0 {
      if |all| > 1 {
        assert all[1].author > all[0].author;
        assert all[1..][0] == all[1];
      }
    } else {
      assert all[0].author < all[k].author;
      AfterIsRest(all[1..], k - 1);
      assert all[1..][k - 1] == all[k];
      assert all[1..][k..] == all[k + 1..];
    }
  }

  lemma FirstOfConcat(a: seq<nat>, b: seq<nat>, limit: nat)
    requires |a| <= limit
    ensures FirstOf(a + b, limit) == a + FirstOf(b, limit - |a|)
  {
  }

  lemma FirstOfMore(a: seq<nat>, b: seq<nat>, limit: nat)
    requires |a| >= limit
    ensures FirstOf(a + b, limit) == FirstOf(a, limit)
  {
  }

  /** One more page of the scan. */
  lemma NextPage(all: seq<Liked>, c: Criteria, cursor: Option<nat>, k: nat)
    requires Ascending(all) && k <= |all| && After(all, cursor) == all[k..]
    ensures var page := Page(all, cursor, PAGE_SIZE);
            var next := k + |page|;
            && next <= |all| && page == all[k..next]
            && Qualified(all[..next], c) == Qualified(all[..k], c) + Qualified(page, c)
            && (|page| < PAGE_SIZE ==> next == |all|)
            && (page != [] ==> After(all, Some(page[|page| - 1].author)) == all[next..])
  {
    var page := Page(all, cursor, PAGE_SIZE);
    var next := k + |page|;
    assert all[..next] == all[..k] + page;
    QualifiedConcat(all[..k], page, c);
    if page != [] {
      AfterIsRest(all, next - 1);
    }
  }

  /** What is selected from a page continues the selection from the pages before it. */
  lemma SelectMore(before: seq<nat>, page: seq<nat>, selected: seq<nat>, limit: nat)
    requires selected == FirstOf(before, limit) && |selected| < limit
    ensures selected + FirstOf(page, limit - |selected|) == FirstOf(before + page, limit)
  {
    FirstOfConcat(before, page, limit);
  }

  /** Once enough are selected, the rest of the list adds nothing. */
  lemma EnoughSelected(all: seq<Liked>, c: Criteria, k: nat, selected: seq<nat>, limit: nat)
    requires k <= |all| && selected == FirstOf(Qualified(all[..k], c), limit) && |selected| >= limit
    ensures selected == FirstOf(Qualified(all, c), limit)
  {
    assert all == all[..k] + all[k..];
    QualifiedConcat(all[..k], all[k..], c);
    FirstOfMore(Qualified(all[..k], c), Qualified(all[k..], c), limit);
  }

  class CharacterFollowService {
    const database: SocialDatabase

    constructor (database: SocialDatabase)
      ensures this.database == database
    {
      this.database := database;
    }

    /** Pages through the liked authors until enough are selected or none are left, and follows exactly the first
        `limit` qualified authors of the whole list. */
    method FollowQualifiedAuthors(character: nat, all: seq<Liked>, active: set<nat>, threshold: nat, limit: nat,
                                  now: int)
      requires Ascending(all)
      modifies database`feeds
      ensures database.feeds ==
              var feed := FeedOf(old(database.feeds), character);
              var selected := FirstOf(Qualified(all, Criteria(threshold, active, feed.follows.Keys)), limit);
              old(database.feeds)[character := feed.(follows := Inserted(feed.follows, selected, now))]
    {
      var feed := FeedOf(database.feeds, character);
      var selected := [];
      if limit > 0 {
        selected := ScanPages(all, Criteria(threshold, active, feed.follows.Keys), limit);
      }
      database.feeds := database.feeds[character := feed.(follows := Inserted(feed.follows, selected, now))];
    }

    /** The scan loop; a page holds at most PAGE_SIZE authors and a short page is the last one. */
    method ScanPages(all: seq<Liked>, c: Criteria, limit: nat) returns (selected: seq<nat>)
      requires Ascending(all)
      ensures selected == FirstOf(Qualified(all, c), limit)
    {
      selected := [];
      var cursor: Option<nat> := None;
      ghost var k := 0;
      while |selected| < limit
        invariant 0 <= k <= |all|
        invariant After(all, cursor) == all[k..]
        invariant selected == FirstOf(Qualified(all[..k], c), limit)
        decreases |all| - k, limit - |selected|
      {
        NextPage(all, c, cursor, k);
        var page := Page(all, cursor, PAGE_SIZE);
        if page == [] {
          assert all[..k] == all;
          return;
        }
        cursor := Some(page[|page| - 1].author);
        SelectMore(Qualified(all[..k], c), Qualified(page, c), selected, limit);
        selected := selected + FirstOf(Qualified(page, c), limit - |selected|);
        k := k + |page|;
        if |page| < PAGE_SIZE {
          assert all[..k] == all;
          return;
        }
      }
      EnoughSelected(all, c, k, selected, limit);
    }
  }
}
