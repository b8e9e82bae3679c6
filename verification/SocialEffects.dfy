/** When the steps of character social activity take effect, and how far an activity goes. */
module SocialEffects {
  import opened Prelude
  import opened SocialTables
  import opened SocialActivity
  import opened SocialJobs
  import FollowScan

  // ----- who may act

  /** The time lies on the arc of the clock from start to end; equal ends are the whole day. */
  predicate OnArc(time: nat, start: nat, end: nat) {
    start == end || (time + DAY_MS - start) % DAY_MS < (end + DAY_MS - start) % DAY_MS
  }

  /** The policy is enabled, the character active in a valid time zone that has a day, and its local time lies in the
      activity window. */
  predicate MayAct(policy: Policy, context: Option<Context>) {
    && policy.enabled
    && context.Some? && context.value.active && context.value.validTimezone && context.value.day.Some?
    && context.value.localTime.Some?
    && OnArc(context.value.localTime.value, policy.activeStart, policy.activeEnd)
  }

  /** Times of day are within the day, as the schema demands of policies and the clock gives of characters. */
  predicate OfDay(policy: Policy, context: Option<Context>) {
    && policy.activeStart < DAY_MS && policy.activeEnd < DAY_MS
    && (context.Some? && context.value.localTime.Some? ==> context.value.localTime.value < DAY_MS)
  }

  lemma CanActExactly(policy: Policy, context: Option<Context>)
    requires OfDay(policy, context)
    ensures CanAct(Some(policy), context) <==> MayAct(policy, context)
  {
    if context.Some? && context.value.localTime.Some? {
      WindowIsAnArc(context.value.localTime.value, policy.activeStart, policy.activeEnd);
    }
  }

  // ----- scheduling

  /** A job opens exactly for a due and enabled policy whose character may act, when no job of the character has that
      time and none is queued or running. The opened job is queued at once; a due policy moves on either way, and
      nothing else changes. */
  lemma ScheduleOpensExactly(r: Rows, character: nat, now: int, context: Option<Context>)
    requires r.next !in r.jobs
    requires character in r.policies ==> OfDay(r.policies[character].policy, context)
    ensures var after := ScheduleDue(r, character, now, context);
            var due := character in r.policies && r.policies[character].policy.enabled
                       && r.policies[character].nextAt <= now;
            && (after.jobs != r.jobs <==>
                  && due && MayAct(r.policies[character].policy, context)
                  && forall j | j in r.jobs && r.jobs[j].character == character ::
                       r.jobs[j].scheduledAt != now && r.jobs[j].status != Queued && r.jobs[j].status != Running)
            && (after.jobs != r.jobs ==>
                  && after.jobs == r.jobs[r.next := Job(character, now, now, Queued, 0, None, None, None)]
                  && after.next == r.next + 1)
            && after.feeds == r.feeds
            && after.policies ==
               if due then r.policies[character := PolicyRow(r.policies[character].policy,
                                                             now + r.policies[character].policy.intervalMs)]
               else r.policies
  {
    if character in r.policies {
      CanActExactly(r.policies[character].policy, context);
    }
    assert r.jobs[r.next := NewJob(character, now)] != r.jobs;
  }

  // ----- claiming

  /** A job is leased exactly when it is queued and its time has come, or its lease has expired, and an attempt is
      left; then it runs under the new token with the attempt counted. Out of attempts, it fails; otherwise nothing
      changes. */
  lemma ClaimExactly(r: Rows, j: nat, token: nat, now: int, o: Options)
    requires j in r.jobs
    ensures var job := r.jobs[j];
            var ready := (job.status == Queued && job.nextAttemptAt <= now)
                         || (job.status == Running && job.lease.Some? && job.lease.value <= now);
            var (after, claim) := TryClaim(r, j, token, now, o);
            && (claim.Some? <==> ready && job.attempts < o.maxAttempts)
            && (claim.Some? ==>
                  && claim.value == Claim(j, job.character, token, job.attempts + 1)
                  && after == r.(jobs := r.jobs[j := job.(status := Running, attempts := job.attempts + 1,
                                                          token := Some(token), lease := Some(now + o.leaseMs))]))
            && (claim.None? && ready ==>
                  after == r.(jobs := r.jobs[j := job.(status := Failed, token := None, lease := None,
                                                       finishedAt := Some(now))]))
            && (!ready ==> after == r)
  {
  }

  /** A claim gives its job up exactly while it holds the live token: for good on the last attempt, and otherwise back
      to the queue after the backoff. */
  lemma FailExactly(r: Rows, c: Claim, now: int, o: Options)
    ensures var live := c.job in r.jobs && r.jobs[c.job].status == Running && r.jobs[c.job].token == Some(c.token)
                        && r.jobs[c.job].lease.Some? && r.jobs[c.job].lease.value > now;
            && (FailJob(r, c, now, o).Some? <==> live)
            && (live ==>
                  var after := FailJob(r, c, now, o).value;
                  && after == r.(jobs := r.jobs[c.job := after.jobs[c.job]])
                  && after.jobs[c.job].token.None? && after.jobs[c.job].lease.None?
                  && (c.attempts >= o.maxAttempts ==>
                        after.jobs[c.job].status == Failed && after.jobs[c.job].finishedAt == Some(now))
                  && (c.attempts < o.maxAttempts ==>
                        && after.jobs[c.job].status == Queued && after.jobs[c.job].finishedAt.None?
                        && after.jobs[c.job].nextAttemptAt == now + o.backoffMs))
  {
  }

  // ----- processing

  /** The claim's job is running under its token and of its character, under a lease that is live at both readings of
      the clock. */
  predicate Live(r: Rows, c: Claim, x: Execution) {
    && c.job in r.jobs && r.jobs[c.job].status == Running && r.jobs[c.job].token == Some(c.token)
    && r.jobs[c.job].character == c.character
    && r.jobs[c.job].lease.Some? && r.jobs[c.job].lease.value > x.now && r.jobs[c.job].lease.value > x.end
  }

  /** An activity takes effect exactly when its claim is live throughout and its character may act; a live claim of a
      character that may not act cancels the job; any other execution leaves the tables alone. */
  lemma ProcessExactly(r: Rows, c: Claim, x: Execution, o: Options)
    requires c.character in r.policies ==> OfDay(r.policies[c.character].policy, x.context)
    ensures var after := Process(r, c, x, o);
            var acts := c.character in r.policies && MayAct(r.policies[c.character].policy, x.context);
            && (Live(r, c, x) && acts ==>
                  && after.jobs == r.jobs[c.job := r.jobs[c.job].(status := Completed, token := None, lease := None,
                                                                  finishedAt := Some(x.end))]
                  && after.feeds == r.feeds[c.character := Visited(
                       FeedOf(r.feeds, c.character),
                       Visit(r.policies[c.character].policy, x.context.value.day.value, x.now, x.pool, x.picked,
                             x.liked, x.active),
                       o)])
            && (Live(r, c, x) && !acts ==>
                  after == r.(jobs := r.jobs[c.job := r.jobs[c.job].(status := JobStatus.Cancelled, token := None,
                                                                     lease := None, finishedAt := Some(x.end))]))
            && (!Live(r, c, x) ==> after == r)
  {
    if c.character in r.policies {
      CanActExactly(r.policies[c.character].policy, x.context);
    }
  }

  /** Every step that opens a job or brings effects finds a character that may act. */
  lemma StepActsInWindow(s: State, step: Step, o: Options)
    requires Enabled(s, step)
    requires forall q | q in s.rows.policies ::
               && (step.DoSchedule? ==> OfDay(s.rows.policies[q].policy, step.context))
               && (step.DoProcess? ==> OfDay(s.rows.policies[q].policy, step.execution.context))
    ensures Next(s, step, o).log != s.log || Next(s, step, o).rows.feeds != s.rows.feeds ==>
              && step.DoProcess?
              && var character := s.claims[step.token].character;
                 character in s.rows.policies && MayAct(s.rows.policies[character].policy, step.execution.context)
    ensures Next(s, step, o).rows.jobs.Keys != s.rows.jobs.Keys ==>
              && step.DoSchedule? && step.character in s.rows.policies
              && MayAct(s.rows.policies[step.character].policy, step.context)
              && s.rows.policies[step.character].nextAt <= step.now
  {
    match step
    case DoSchedule(character, _, context) =>
      if character in s.rows.policies {
        CanActExactly(s.rows.policies[character].policy, context);
      }
    case DoProcess(token, x) =>
      if s.claims[token].character in s.rows.policies {
        CanActExactly(s.rows.policies[s.claims[token].character].policy, x.context);
      }
    case _ =>
  }

  /** Policies and characters in the steps have times of day. */
  predicate StepOfDay(step: Step) {
    match step
    case DoPolicy(_, row) => row.policy.activeStart < DAY_MS && row.policy.activeEnd < DAY_MS
    case DoSchedule(_, _, context) => Timed(context)
    case DoProcess(_, x) => Timed(x.context)
    case _ => true
  }

  predicate Timed(context: Option<Context>) {
    context.Some? && context.value.localTime.Some? ==> context.value.localTime.value < DAY_MS
  }

  /** Every committed activity was of a character that could act, on the day that was its local day then. */
  ghost predicate InWindow(s: State) {
    && (forall q | q in s.rows.policies ::
          s.rows.policies[q].policy.activeStart < DAY_MS && s.rows.policies[q].policy.activeEnd < DAY_MS)
    && (forall i | 0 <= i < |s.log| ::
          MayAct(s.log[i].visit.policy, s.log[i].context) && s.log[i].context.value.day == Some(s.log[i].visit.day))
  }

  lemma StepKeepsInWindow(s: State, step: Step, o: Options)
    requires InWindow(s) && Enabled(s, step) && StepOfDay(step)
    ensures InWindow(Next(s, step, o))
  {
    if step.DoProcess? && Processed(s.rows, s.claims[step.token], step.execution, o).Committed? {
      CanActExactly(s.rows.policies[s.claims[step.token].character].policy, step.execution.context);
    }
  }

  /** Over every run each committed visit was of a character that could act then, inside the activity window of an
      enabled policy; the feeds hold those visits and nothing else (`EffectsOnceOverRuns`). */
  lemma {:induction false} ActsInWindowOverRuns(s: State, steps: seq<Step>, o: Options, z: State)
    requires InWindow(s) && Run(s, steps, o, z)
    requires forall step | step in steps :: StepOfDay(step)
    ensures InWindow(z)
    decreases |steps|
  {
    if steps != [] {
      StepKeepsInWindow(s, steps[0], o);
      ActsInWindowOverRuns(Next(s, steps[0], o), steps[1..], o, z);
    }
  }

  // ----- how far an activity goes

  /** What the day leaves: of each kind the limit less what was used, if anything, and of views at most
      `postsPerRun`. */
  lemma AllowancesExactly(f: Feed, v: Visit, o: Options)
    ensures Allowed(f, v, o).views
         == Min(o.postsPerRun, Max(0, v.policy.maxDailyViews - |set k | k in f.views && v.day.Has(f.views[k])|))
    ensures Allowed(f, v, o).likes == Max(0, v.policy.maxDailyLikes - |set k | k in f.likes && v.day.Has(f.likes[k])|)
    ensures Allowed(f, v, o).follows
         == Max(0, v.policy.maxDailyFollows - |set k | k in f.follows && v.day.Has(f.follows[k])|)
  {
    assert RowsIn(f.views, v.day) == set k | k in f.views && v.day.Has(f.views[k]);
    assert RowsIn(f.likes, v.day) == set k | k in f.likes && v.day.Has(f.likes[k]);
    assert RowsIn(f.follows, v.day) == set k | k in f.follows && v.day.Has(f.follows[k]);
  }

  ghost predicate DistinctPosts(pool: seq<nat>) {
    forall i, j | 0 <= i < j < |pool| :: pool[i] != pool[j]
  }

  /** How many of the first n posts of the pool are not viewed yet. */
  function UnseenBefore(pool: seq<nat>, views: map<nat, int>, n: nat): nat
    requires n <= |pool|
  {
    if n == 0 then 0 else UnseenBefore(pool, views, n - 1) + if pool[n - 1] in views then 0 else 1
  }

  lemma {:induction false} UnseenCounts(pool: seq<nat>, views: map<nat, int>, n: nat)
    requires n <= |pool|
    ensures |Unseen(pool[..n], views)| == UnseenBefore(pool, views, n)
  {
    if n > 0 {
      UnseenCounts(pool, views, n - 1);
      assert pool[..n][..n - 1] == pool[..n - 1];
    }
  }

  lemma {:induction false} UnseenPrefix(pool: seq<nat>, views: map<nat, int>, n: nat)
    requires n <= |pool|
    ensures |Unseen(pool[..n], views)| <= |Unseen(pool, views)|
    ensures Unseen(pool, views)[..|Unseen(pool[..n], views)|] == Unseen(pool[..n], views)
    decreases |pool|
  {
    if n < |pool| {
      var m := |pool| - 1;
      UnseenPrefix(pool[..m], views, n);
      assert pool[..m][..n] == pool[..n];
      assert Unseen(pool, views)[..|Unseen(pool[..m], views)|] == Unseen(pool[..m], views);
    } else {
      assert pool[..n] == pool;
    }
  }

  lemma UnseenAt(pool: seq<nat>, views: map<nat, int>, n: nat)
    requires n < |pool| && pool[n] !in views
    ensures UnseenBefore(pool, views, n) < |Unseen(pool, views)|
    ensures Unseen(pool, views)[UnseenBefore(pool, views, n)] == pool[n]
  {
    UnseenCounts(pool, views, n);
    UnseenExtended(pool, views, n);
    UnseenPrefix(pool, views, n + 1);
    PrefixAt(Unseen(pool, views), Unseen(pool[..n + 1], views), UnseenBefore(pool, views, n));
  }

  lemma UnseenExtended(pool: seq<nat>, views: map<nat, int>, n: nat)
    requires n < |pool| && pool[n] !in views
    ensures Unseen(pool[..n + 1], views) == Unseen(pool[..n], views) + [pool[n]]
  {
    assert pool[..n + 1][..n] == pool[..n];
  }

  lemma PrefixAt(xs: seq<nat>, prefix: seq<nat>, k: nat)
    requires k < |prefix| <= |xs| && xs[..|prefix|] == prefix
    ensures xs[k] == prefix[k]
  {
    assert xs[..|prefix|][k] == xs[k];
  }

  lemma NewlyViewed(f: Feed, v: Visit, o: Options, post: nat)
    requires post !in f.views
    ensures post in Visited(f, v, o).views <==> post in FirstOf(Unseen(v.pool, f.views), Allowed(f, v, o).views)
  {
    InsertedRows(f.views, ToView(f, v, o), v.now);
  }

  /** The n-th post of the pool, if not viewed yet, is viewed exactly when fewer unseen posts are ahead of it than the
      day and the run allow: an activity views the newest unseen posts, and as many as it may. */
  lemma ViewsExactly(f: Feed, v: Visit, o: Options, n: nat)
    requires DistinctPosts(v.pool) && n < |v.pool| && v.pool[n] !in f.views
    ensures v.pool[n] in Visited(f, v, o).views <==>
            UnseenBefore(v.pool, f.views, n)
            < Min(o.postsPerRun, Max(0, v.policy.maxDailyViews - |set k | k in f.views && v.day.Has(f.views[k])|))
  {
    AllowancesExactly(f, v, o);
    UnseenAt(v.pool, f.views, n);
    UnseenDistinct(v.pool, f.views);
    HeadHas(Unseen(v.pool, f.views), UnseenBefore(v.pool, f.views, n), Allowed(f, v, o).views);
    NewlyViewed(f, v, o, v.pool[n]);
  }

  lemma HeadHas(xs: seq<nat>, k: nat, limit: nat)
    requires DistinctPosts(xs) && k < |xs|
    ensures xs[k] in FirstOf(xs, limit) <==> k < limit
  {
    if k < limit {
      assert FirstOf(xs, limit)[k] == xs[k];
    }
  }

  lemma {:induction false} UnseenDistinct(pool: seq<nat>, views: map<nat, int>)
    requires DistinctPosts(pool)
    ensures DistinctPosts(Unseen(pool, views))
  {
    if pool != [] {
      var n := |pool| - 1;
      UnseenDistinct(pool[..n], views);
      UnseenIds(pool[..n], views);
      var before := Unseen(pool[..n], views);
      forall i | 0 <= i < |before| ensures before[i] != pool[n] {
        assert before[i] in pool[..n];
      }
    }
  }

  /** An activity that liked fewer posts than the day allowed has liked every post it newly viewed whose coin came up
      heads. */
  lemma LikesAreComplete(f: Feed, v: Visit, o: Options, post: nat)
    requires |ToLike(f, v, o)| < Max(0, v.policy.maxDailyLikes - |set k | k in f.likes && v.day.Has(f.likes[k])|)
    requires post in Visited(f, v, o).views && post !in f.views && post in v.picked
    ensures post in Visited(f, v, o).likes
  {
    AllowancesExactly(f, v, o);
    InsertedRows(f.views, ToView(f, v, o), v.now);
    FreshIds(f.views, ToView(f, v, o));
    PickedIds(Fresh(f.views, ToView(f, v, o)), v.picked);
    InsertedRows(f.likes, ToLike(f, v, o), v.now);
  }

  /** An activity that followed fewer authors than the day allowed follows every other active author who has earned
      it. */
  lemma FollowsGoAllTheWay(f: Feed, v: Visit, o: Options, authors: map<nat, nat>, self: nat, author: nat)
    requires Groups(v.liked, Visited(f, v, o).likes, authors, self)
    requires |ToFollow(f, v, o)|
             < Max(0, v.policy.maxDailyFollows - |set k | k in f.follows && v.day.Has(f.follows[k])|)
    requires author != self && author in v.active && o.threshold > 0
    requires |LikedBy(Visited(f, v, o).likes, authors, author)| >= o.threshold
    ensures author in Visited(f, v, o).follows
  {
    AllowancesExactly(f, v, o);
    FollowsAreComplete(f, v, o, authors, self, author);
  }
}
