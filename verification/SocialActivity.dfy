/** One activity of a character under its daily quotas: which posts it views and likes and whom it follows. */
module SocialActivity {
  import opened Prelude
  import opened SocialTables
  import opened FollowScan

  // ----- the policy

  /** Times of day are milliseconds since midnight. */
  const DAY_MS: nat := 86400000

  predicate IsInWindow(time: Option<nat>, start: nat, end: nat) {
    && time.Some?
    && if start < end then start <= time.value < end else time.value >= start || time.value < end
  }

  /** The window is the arc of the clock that runs from its start to its end; with equal ends it is the whole day. */
  lemma WindowIsAnArc(time: nat, start: nat, end: nat)
    requires time < DAY_MS && start < DAY_MS && end < DAY_MS
    ensures IsInWindow(Some(time), start, end) <==>
            start == end || (time + DAY_MS - start) % DAY_MS < (end + DAY_MS - start) % DAY_MS
  {
    Turn(time, start);
    Turn(end, start);
  }

  lemma Turn(time: nat, start: nat)
    requires time < DAY_MS && start < DAY_MS
    ensures (time + DAY_MS - start) % DAY_MS == if start <= time then time - start else time + DAY_MS - start
  {
  }

  /** The character's row at some instant, with its local time and the bounds of its local day. */
  datatype Context = Context(active: bool, validTimezone: bool, localTime: Option<nat>, day: Option<Day>)

  predicate CanAct(policy: Option<Policy>, context: Option<Context>) {
    && policy.Some? && policy.value.enabled
    && context.Some? && context.value.active && context.value.validTimezone && context.value.day.Some?
    && IsInWindow(context.value.localTime, policy.value.activeStart, policy.value.activeEnd)
  }

  datatype Allowances = Allowances(views: nat, likes: nat, follows: nat)

  function RemainingAllowances(policy: Policy, used: Allowances, postsPerRun: nat): Allowances {
    Allowances(Min(postsPerRun, Monus(policy.maxDailyViews, used.views)),
               Monus(policy.maxDailyLikes, used.likes),
               Monus(policy.maxDailyFollows, used.follows))
  }

  function UsedOn(f: Feed, day: Day): Allowances {
    Allowances(CountIn(f.views, day), CountIn(f.likes, day), CountIn(f.follows, day))
  }

  // ----- the activity

  /** One activity: its policy, day and clock, and what the world answers. `pool` lists the posts matching the
      character's interests, newest first; `picked` are the posts whose coin came up heads; `liked` are the liked
      authors with their counts, as the scan reads them after the likes are stored. */
  datatype Visit = Visit(policy: Policy, day: Day, now: int, pool: seq<nat>, picked: set<nat>,
                         liked: seq<Liked>, active: set<nat>)

  /** The candidates not yet viewed. */
  function Unseen(pool: seq<nat>, views: map<nat, int>): seq<nat> {
    if pool == [] then []
    else
      var n := |pool| - 1;
      Unseen(pool[..n], views) + if pool[n] in views then [] else [pool[n]]
  }

  /** The ids whose coin came up heads. */
  function Picked(ids: seq<nat>, picked: set<nat>): seq<nat> {
    if ids == [] then []
    else
      var n := |ids| - 1;
      Picked(ids[..n], picked) + if ids[n] in picked then [ids[n]] else []
  }

  function Allowed(f: Feed, v: Visit, o: Options): Allowances {
    RemainingAllowances(v.policy, UsedOn(f, v.day), o.postsPerRun)
  }

  function ToView(f: Feed, v: Visit, o: Options): seq<nat> {
    FirstOf(Unseen(v.pool, f.views), Allowed(f, v, o).views)
  }

  function ToLike(f: Feed, v: Visit, o: Options): seq<nat> {
    FirstOf(Picked(Fresh(f.views, ToView(f, v, o)), v.picked), Allowed(f, v, o).likes)
  }

  function ToFollow(f: Feed, v: Visit, o: Options): seq<nat> {
    FirstOf(Qualified(v.liked, Criteria(o.threshold, v.active, f.follows.Keys)), Allowed(f, v, o).follows)
  }

  function Visited(f: Feed, v: Visit, o: Options): Feed {
    Feed(Inserted(f.views, ToView(f, v, o), v.now),
         Inserted(f.likes, ToLike(f, v, o), v.now),
         Inserted(f.follows, ToFollow(f, v, o), v.now))
  }

  function VisitedAll(f: Feed, visits: seq<Visit>, o: Options): Feed {
    if visits == [] then f
    else
      var n := |visits| - 1;
      Visited(VisitedAll(f, visits[..n], o), visits[n], o)
  }

  // ----- quotas

  datatype Quota = Quota(views: int, likes: int, follows: int)

  predicate Within(policy: Policy, q: Quota) {
    policy.maxDailyViews <= q.views && policy.maxDailyLikes <= q.likes && policy.maxDailyFollows <= q.follows
  }

  /** A visit on the day counts against that day: a time zone gives every instant one local day. */
  predicate CountsOn(v: Visit, day: Day) {
    day.Has(v.now) ==> v.day == day
  }

  lemma InsertWithin(rows: map<nat, int>, ids: seq<nat>, now: int, day: Day, limit: int)
    requires |ids| <= Monus(limit, CountIn(rows, day))
    ensures CountIn(Inserted(rows, ids, now), day) <= Max(CountIn(rows, day), limit)
  {
    InsertedCount(rows, ids, now, day);
    FreshIds(rows, ids);
  }

  lemma OtherDay(rows: map<nat, int>, ids: seq<nat>, now: int, day: Day)
    requires !day.Has(now)
    ensures CountIn(Inserted(rows, ids, now), day) == CountIn(rows, day)
  {
    InsertedCount(rows, ids, now, day);
  }

  /** One activity takes no count of a day over its limit; a count already over it does not grow. */
  lemma VisitWithinQuota(f: Feed, v: Visit, o: Options, day: Day, q: Quota)
    requires Within(v.policy, q) && CountsOn(v, day)
    ensures CountIn(Visited(f, v, o).views, day) <= Max(CountIn(f.views, day), q.views)
    ensures CountIn(Visited(f, v, o).likes, day) <= Max(CountIn(f.likes, day), q.likes)
    ensures CountIn(Visited(f, v, o).follows, day) <= Max(CountIn(f.follows, day), q.follows)
  {
    if day.Has(v.now) {
      InsertWithin(f.views, ToView(f, v, o), v.now, day, v.policy.maxDailyViews);
      InsertWithin(f.likes, ToLike(f, v, o), v.now, day, v.policy.maxDailyLikes);
      InsertWithin(f.follows, ToFollow(f, v, o), v.now, day, v.policy.maxDailyFollows);
    } else {
      OtherDay(f.views, ToView(f, v, o), v.now, day);
      OtherDay(f.likes, ToLike(f, v, o), v.now, day);
      OtherDay(f.follows, ToFollow(f, v, o), v.now, day);
    }
  }

  /** Over every run of activities, on this day and on others, the day's counts never exceed their limits if they
      started within them. */
  lemma {:induction false} QuotaOverVisits(f: Feed, visits: seq<Visit>, o: Options, day: Day, q: Quota)
    requires forall v | v in visits :: Within(v.policy, q) && CountsOn(v, day)
    ensures CountIn(VisitedAll(f, visits, o).views, day) <= Max(CountIn(f.views, day), q.views)
    ensures CountIn(VisitedAll(f, visits, o).likes, day) <= Max(CountIn(f.likes, day), q.likes)
    ensures CountIn(VisitedAll(f, visits, o).follows, day) <= Max(CountIn(f.follows, day), q.follows)
  {
    if visits != [] {
      var n := |visits| - 1;
      QuotaOverVisits(f, visits[..n], o, day, q);
      VisitWithinQuota(VisitedAll(f, visits[..n], o), visits[n], o, day, q);
    }
  }

  // ----- what is liked and who is followed

  lemma {:induction false} PickedIds(ids: seq<nat>, picked: set<nat>)
    ensures forall k :: k in Picked(ids, picked) <==> k in ids && k in picked
  {
    if ids != [] {
      var n := |ids| - 1;
      PickedIds(ids[..n], picked);
      assert ids == ids[..n] + [ids[n]];
    }
  }

  lemma {:induction false} UnseenIds(pool: seq<nat>, views: map<nat, int>)
    ensures forall k :: k in Unseen(pool, views) <==> k in pool && k !in views
  {
    if pool != [] {
      var n := |pool| - 1;
      UnseenIds(pool[..n], views);
      assert pool == pool[..n] + [pool[n]];
    }
  }

  /** Every like of an activity is on a post of the pool that the character first viewed in that same activity, and
      whose coin came up heads. */
  lemma LikesFirstViewed(f: Feed, v: Visit, o: Options, post: nat)
    requires post in Visited(f, v, o).likes && post !in f.likes
    ensures post !in f.views && post in v.pool && post in v.picked
    ensures post in Visited(f, v, o).views && Visited(f, v, o).views[post] == v.now
    ensures Visited(f, v, o).likes[post] == v.now
  {
    InsertedRows(f.likes, ToLike(f, v, o), v.now);
    InsertedRows(f.views, ToView(f, v, o), v.now);
    PickedIds(Fresh(f.views, ToView(f, v, o)), v.picked);
    FreshIds(f.views, ToView(f, v, o));
    UnseenIds(v.pool, f.views);
  }

  /** Over every run, a post liked in it was first viewed in it, at the same time. */
  lemma {:induction false} LikesFirstViewedOverVisits(f: Feed, visits: seq<Visit>, o: Options, post: nat)
    requires post in VisitedAll(f, visits, o).likes && post !in f.likes
    ensures post !in f.views && post in VisitedAll(f, visits, o).views
    ensures VisitedAll(f, visits, o).views[post] == VisitedAll(f, visits, o).likes[post]
  {
    var n := |visits| - 1;
    var before := VisitedAll(f, visits[..n], o);
    InsertedRows(before.views, ToView(before, visits[n], o), visits[n].now);
    InsertedRows(before.likes, ToLike(before, visits[n], o), visits[n].now);
    ViewsStay(f, visits[..n], o, post);
    if post in before.likes {
      LikesFirstViewedOverVisits(f, visits[..n], o, post);
    } else {
      LikesFirstViewed(before, visits[n], o, post);
    }
  }

  lemma {:induction false} ViewsStay(f: Feed, visits: seq<Visit>, o: Options, post: nat)
    ensures post in f.views ==> post in VisitedAll(f, visits, o).views
  {
    if visits != [] {
      var n := |visits| - 1;
      ViewsStay(f, visits[..n], o, post);
      var before := VisitedAll(f, visits[..n], o);
      InsertedRows(before.views, ToView(before, visits[n], o), visits[n].now);
    }
  }

  function LikedBy(likes: map<nat, int>, authors: map<nat, nat>, author: nat): set<nat> {
    set p | p in likes && p in authors && authors[p] == author
  }

  /** The grouped query: in order of author, everyone but the character who wrote a liked post, with the number of
      liked posts. */
  ghost predicate Groups(liked: seq<Liked>, likes: map<nat, int>, authors: map<nat, nat>, self: nat) {
    && Ascending(liked)
    && (forall i | 0 <= i < |liked| ::
          liked[i].author != self && liked[i].posts == |LikedBy(likes, authors, liked[i].author)|)
    && (forall p | p in likes && p in authors && authors[p] != self ::
          exists i | 0 <= i < |liked| :: liked[i].author == authors[p])
  }

  lemma {:induction false} QualifiedExactly(all: seq<Liked>, c: Criteria, author: nat)
    ensures author in Qualified(all, c) <==>
              exists i | 0 <= i < |all| :: all[i].author == author && Qualifies(all[i], c)
  {
    if all != [] {
      var n := |all| - 1;
      QualifiedExactly(all[..n], c, author);
      if author in Qualified(all[..n], c) {
        var i :| 0 <= i < n && all[..n][i].author == author && Qualifies(all[..n][i], c);
        assert all[i].author == author && Qualifies(all[i], c);
      }
      if i :| 0 <= i < n && all[i].author == author && Qualifies(all[i], c) {
        assert all[..n][i].author == author && Qualifies(all[..n][i], c);
      }
    }
  }

  /** Whoever an activity newly follows is another, active character of whom at least `threshold` posts are liked. */
  lemma FollowsAreEarned(f: Feed, v: Visit, o: Options, authors: map<nat, nat>, self: nat, author: nat)
    requires Groups(v.liked, Visited(f, v, o).likes, authors, self)
    requires author in Visited(f, v, o).follows && author !in f.follows
    ensures author != self && author in v.active
    ensures |LikedBy(Visited(f, v, o).likes, authors, author)| >= o.threshold
  {
    InsertedRows(f.follows, ToFollow(f, v, o), v.now);
    QualifiedExactly(v.liked, Criteria(o.threshold, v.active, f.follows.Keys), author);
  }

  /** An activity that had follows to spare followed every other active author who had earned it. */
  lemma FollowsAreComplete(f: Feed, v: Visit, o: Options, authors: map<nat, nat>, self: nat, author: nat)
    requires Groups(v.liked, Visited(f, v, o).likes, authors, self)
    requires |ToFollow(f, v, o)| < Allowed(f, v, o).follows
    requires author != self && author in v.active && o.threshold > 0
    requires |LikedBy(Visited(f, v, o).likes, authors, author)| >= o.threshold
    ensures author in Visited(f, v, o).follows
  {
    var mine := LikedBy(Visited(f, v, o).likes, authors, author);
    assert mine != {};
    var p :| p in mine;
    var i :| 0 <= i < |v.liked| && v.liked[i].author == authors[p];
    InsertedRows(f.follows, ToFollow(f, v, o), v.now);
    QualifiedExactly(v.liked, Criteria(o.threshold, v.active, f.follows.Keys), author);
    if author !in f.follows {
      assert Qualifies(v.liked[i], Criteria(o.threshold, v.active, f.follows.Keys));
    }
  }

  /** Every visit of a run read the counts of liked posts as they were after its own likes. */
  ghost predicate CountsRead(f: Feed, visits: seq<Visit>, o: Options, authors: map<nat, nat>, self: nat) {
    visits != [] ==>
      var n := |visits| - 1;
      && CountsRead(f, visits[..n], o, authors, self)
      && Groups(visits[n].liked, Visited(VisitedAll(f, visits[..n], o), visits[n], o).likes, authors, self)
  }

  lemma MoreLikes(likes: map<nat, int>, more: map<nat, int>, authors: map<nat, nat>, author: nat)
    requires likes.Keys <= more.Keys
    ensures |LikedBy(likes, authors, author)| <= |LikedBy(more, authors, author)|
  {
    var few, many := LikedBy(likes, authors, author), LikedBy(more, authors, author);
    assert few <= many;
    assert many == few + (many - few);
  }

  lemma LikesStay(f: Feed, v: Visit, o: Options)
    ensures f.likes.Keys <= Visited(f, v, o).likes.Keys
  {
    InsertedRows(f.likes, ToLike(f, v, o), v.now);
  }

  /** Over every run, whoever was followed in it is another character of whom at least `threshold` posts are liked. */
  lemma {:induction false} FollowsAreEarnedOverVisits(f: Feed, visits: seq<Visit>, o: Options, authors: map<nat, nat>,
                                                      self: nat, author: nat)
    requires CountsRead(f, visits, o, authors, self)
    requires author in VisitedAll(f, visits, o).follows && author !in f.follows
    ensures author != self && |LikedBy(VisitedAll(f, visits, o).likes, authors, author)| >= o.threshold
  {
    var n := |visits| - 1;
    var before := VisitedAll(f, visits[..n], o);
    if author in before.follows {
      FollowsAreEarnedOverVisits(f, visits[..n], o, authors, self, author);
      LikesStay(before, visits[n], o);
      MoreLikes(before.likes, Visited(before, visits[n], o).likes, authors, author);
    } else {
      FollowsAreEarned(before, visits[n], o, authors, self, author);
    }
  }
}
