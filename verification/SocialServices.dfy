/** The services of character social activity over their tables. */
module SocialServices {
  import opened Prelude
  import opened SocialTables
  import opened SocialActivity
  import opened SocialJobs
  import FollowScan

  class CharacterSocialActivityJobRepository {
    const database: SocialDatabase

    constructor (database: SocialDatabase)
      ensures this.database == database
    {
      this.database := database;
    }

    /** INSERT ... ON CONFLICT DO NOTHING against the two unique indexes. */
    method InsertJob(character: nat, now: int) returns (inserted: bool)
      modifies database`jobs, database`next
      ensures database.Contents() == Insert(old(database.Contents()), character, now)
      ensures inserted <==> database.next == old(database.next) + 1
      ensures !inserted ==> database.next == old(database.next)
    {
      inserted := Admits(database.jobs, character, now);
      if inserted {
        database.jobs := database.jobs[database.next := NewJob(character, now)];
        database.next := database.next + 1;
      }
    }

    method MarkAttemptsExhausted(j: nat, now: int)
      requires j in database.jobs
      modifies database`jobs
      ensures database.jobs == old(database.jobs)[j := Exhausted(old(database.jobs)[j], now)]
    {
      var job := database.jobs[j].(status := Failed, token := None, lease := None, finishedAt := Some(now));
      database.jobs := database.jobs[j := job];
    }

    method AssignLease(j: nat, token: nat, now: int, o: Options) returns (attempts: nat)
      requires j in database.jobs
      modifies database`jobs
      ensures database.jobs == old(database.jobs)[j := Leased(old(database.jobs)[j], token, now, o)]
      ensures attempts == old(database.jobs)[j].attempts + 1
    {
      attempts := database.jobs[j].attempts + 1;
      var job := database.jobs[j].(status := Running, attempts := attempts);
      job := job.(token := Some(token), lease := Some(now + o.leaseMs));
      database.jobs := database.jobs[j := job];
    }

    /** Completing and cancelling share one guarded update; false means it matched no row. */
    method FinishJob(c: Claim, now: int, status: JobStatus) returns (done: bool)
      modifies database`jobs
      ensures match Finish(old(database.Contents()), c, now, status)
              case None => !done && database.Contents() == old(database.Contents())
              case Some(rows) => done && database.Contents() == rows
    {
      done := Holds(database.jobs, c, now);
      if done {
        var job := database.jobs[c.job].(status := status, token := None, lease := None, finishedAt := Some(now));
        database.jobs := database.jobs[c.job := job];
      }
    }

    method Fail(c: Claim, now: int, terminal: bool, retryAt: int) returns (done: bool)
      modifies database`jobs
      ensures done <==> Holds(old(database.jobs), c, now)
      ensures !done ==> database.jobs == old(database.jobs)
      ensures done ==>
                var job := old(database.jobs)[c.job];
                var failed := job.(status := if terminal then Failed else Queued, token := None, lease := None,
                                   nextAttemptAt := retryAt, finishedAt := if terminal then Some(now) else None);
                database.jobs == old(database.jobs)[c.job := failed]
    {
      done := Holds(database.jobs, c, now);
      if done {
        var job := database.jobs[c.job].(token := None, lease := None, nextAttemptAt := retryAt);
        if terminal {
          job := job.(status := Failed, finishedAt := Some(now));
        } else {
          job := job.(status := Queued, finishedAt := None);
        }
        database.jobs := database.jobs[c.job := job];
      }
    }
  }

  class CharacterSocialActivityJobService {
    const database: SocialDatabase
    const repository: CharacterSocialActivityJobRepository
    const options: Options

    ghost predicate Valid() {
      repository.database == database
    }

    constructor (database: SocialDatabase, repository: CharacterSocialActivityJobRepository, options: Options)
      requires repository.database == database
      ensures Valid() && this.database == database && this.options == options
    {
      this.database, this.repository, this.options := database, repository, options;
    }

    /** The body of one claim transaction. */
    method ClaimOne(candidate: nat, token: nat, now: int) returns (claim: Option<Claim>)
      requires Valid()
      modifies database`jobs
      ensures (database.Contents(), claim) == TryClaim(old(database.Contents()), candidate, token, now, options)
    {
      if candidate !in database.jobs {
        return None;
      }
      var job := database.jobs[candidate];
      var eligible := (job.status == Queued && job.nextAttemptAt <= now)
                   || (job.status == Running && job.lease.Some? && job.lease.value <= now);
      if !eligible {
        return None;
      }
      if job.attempts >= options.maxAttempts {
        repository.MarkAttemptsExhausted(candidate, now);
        return None;
      }
      var attempts := repository.AssignLease(candidate, token, now, options);
      return Some(Claim(candidate, job.character, token, attempts));
    }

    /** Tries the candidates in turn until one is leased. */
    method ClaimNext(candidates: seq<nat>, clocks: seq<int>, token: nat) returns (claim: Option<Claim>)
      requires Valid() && |clocks| == |candidates|
      modifies database`jobs
      ensures (database.Contents(), claim)
           == ClaimFirst(old(database.Contents()), candidates, clocks, token, options)
    {
      ghost var before := database.Contents();
      claim := None;
      for i := 0 to |candidates|
        invariant ClaimFirst(before, candidates, clocks, token, options)
               == ClaimFirst(database.Contents(), candidates[i..], clocks[i..], token, options)
      {
        assert candidates[i..][1..] == candidates[i + 1..] && clocks[i..][1..] == clocks[i + 1..];
        claim := ClaimOne(candidates[i], token, clocks[i]);
        if claim.Some? {
          return;
        }
      }
      claim := None;
    }

    method Fail(c: Claim, now: int) returns (done: bool)
      requires Valid()
      modifies database`jobs
      ensures match FailJob(old(database.Contents()), c, now, options)
              case None => !done && database.Contents() == old(database.Contents())
              case Some(rows) => done && database.Contents() == rows
    {
      done := repository.Fail(c, now, c.attempts >= options.maxAttempts, now + options.backoffMs);
    }
  }

  class PostReactionService {
    const database: SocialDatabase

    constructor (database: SocialDatabase)
      ensures this.database == database
    {
      this.database := database;
    }

    /** Likes the picked ones among the posts, up to the limit. */
    method LikeViewedPosts(character: nat, posts: seq<nat>, picked: set<nat>, limit: nat, now: int)
      modifies database`feeds
      ensures database.feeds ==
              var feed := FeedOf(old(database.feeds), character);
              old(database.feeds)[character :=
                feed.(likes := Inserted(feed.likes, FirstOf(Picked(posts, picked), limit), now))]
    {
      var selected := FirstOf(Picked(posts, picked), limit);
      var feed := FeedOf(database.feeds, character);
      database.feeds := database.feeds[character := feed.(likes := Inserted(feed.likes, selected, now))];
    }
  }

  class CharacterPostViewService {
    const database: SocialDatabase

    constructor (database: SocialDatabase)
      ensures this.database == database
    {
      this.database := database;
    }

    /** Records views and returns those that were new. */
    method Record(character: nat, posts: seq<nat>, now: int) returns (viewed: seq<nat>)
      modifies database`feeds
      ensures viewed == Fresh(FeedOf(old(database.feeds), character).views, posts)
      ensures database.feeds ==
              var feed := FeedOf(old(database.feeds), character);
              old(database.feeds)[character := feed.(views := Inserted(feed.views, posts, now))]
    {
      var feed := FeedOf(database.feeds, character);
      viewed := Fresh(feed.views, posts);
      database.feeds := database.feeds[character := feed.(views := Inserted(feed.views, posts, now))];
    }
  }

  class CharacterSocialActivityApplicationService {
    const database: SocialDatabase
    const jobs: CharacterSocialActivityJobService
    const reactions: PostReactionService
    const views: CharacterPostViewService
    const follows: FollowScan.CharacterFollowService

    ghost predicate Valid() {
      && jobs.Valid() && jobs.database == database
      && reactions.database == database && views.database == database && follows.database == database
    }

    constructor (database: SocialDatabase, jobs: CharacterSocialActivityJobService, reactions: PostReactionService,
                 views: CharacterPostViewService, follows: FollowScan.CharacterFollowService)
      requires jobs.Valid() && jobs.database == database
      requires reactions.database == database && views.database == database && follows.database == database
      ensures Valid() && this.database == database && this.jobs == jobs
    {
      this.database, this.jobs := database, jobs;
      this.reactions, this.views, this.follows := reactions, views, follows;
    }

    /** One transaction of the scheduler. */
    method ScheduleOne(character: nat, now: int, context: Option<Context>) returns (inserted: bool)
      requires Valid()
      modifies database
      ensures database.Contents() == ScheduleDue(old(database.Contents()), character, now, context)
      ensures database.next == old(database.next) + if inserted then 1 else 0
    {
      if !(character in database.policies && database.policies[character].policy.enabled
           && database.policies[character].nextAt <= now) {
        return false;
      }
      var row := database.policies[character];
      database.policies := database.policies[character := row.(nextAt := now + row.policy.intervalMs)];
      if !CanAct(Some(row.policy), context) {
        return false;
      }
      inserted := jobs.repository.InsertJob(character, now);
    }

    /** Schedules the due characters and counts the jobs it opened. */
    method ScheduleDueActivities(characters: seq<nat>, now: int, contexts: map<nat, Context>) returns (scheduled: nat)
      requires Valid()
      modifies database
      ensures database.Contents() == ScheduleAll(old(database.Contents()), characters, now, contexts)
      ensures database.next == old(database.next) + scheduled
    {
      scheduled := 0;
      for i := 0 to |characters|
        invariant database.Contents() == ScheduleAll(old(database.Contents()), characters[..i], now, contexts)
        invariant database.next == old(database.next) + scheduled
      {
        assert characters[..i + 1][..i] == characters[..i];
        var inserted := ScheduleOne(characters[i], now, ContextOf(contexts, characters[i]));
        if inserted {
          scheduled := scheduled + 1;
        }
      }
      assert characters[..|characters|] == characters;
    }

    /** Views, likes and follows of one activity, in the order of the source. */
    method Act(character: nat, v: Visit)
      requires Valid() && FollowScan.Ascending(v.liked)
      modifies database`feeds
      ensures database.feeds == WithVisit(old(database.feeds), character, v, jobs.options)
    {
      var feed := FeedOf(database.feeds, character);
      var used := Allowances(CountIn(feed.views, v.day), CountIn(feed.likes, v.day), CountIn(feed.follows, v.day));
      var allowances := RemainingAllowances(v.policy, used, jobs.options.postsPerRun);
      var candidates := FirstOf(Unseen(v.pool, feed.views), allowances.views);
      var viewed := views.Record(character, candidates, v.now);
      reactions.LikeViewedPosts(character, viewed, v.picked, allowances.likes, v.now);
      follows.FollowQualifiedAuthors(character, v.liked, v.active, jobs.options.threshold, allowances.follows, v.now);
    }

    /** The claimed activity in one transaction: its effects and the end of the job commit together, or the exception
        undoes both. */
    method ProcessClaimedActivity(c: Claim, x: Execution) returns (result: Result<bool, ()>)
      requires Valid() && FollowScan.Ascending(x.liked)
      modifies database`jobs, database`feeds
      ensures database.Contents() == Process(old(database.Contents()), c, x, jobs.options)
      ensures result == match Processed(old(database.Contents()), c, x, jobs.options)
                        case Skipped => Ok(false)
                        case Cancelled => Ok(true)
                        case Committed(_) => Ok(true)
                        case Threw => Err(())
    {
      if !HasLiveLease(database.jobs, c, x.now) {
        return Ok(false);
      }
      var policy := if c.character in database.policies then Some(database.policies[c.character].policy) else None;
      if policy.None? || !CanAct(policy, x.context) {
        var done := jobs.repository.FinishJob(c, x.end, JobStatus.Cancelled);
        return Ok(done);
      }
      var visit := Visit(policy.value, x.context.value.day.value, x.now, x.pool, x.picked, x.liked, x.active);
      var saved := database.feeds;
      Act(c.character, visit);
      var done := jobs.repository.FinishJob(c, x.end, Completed);
      if !done {
        database.feeds := saved;
        return Err(());
      }
      return Ok(true);
    }

    /** Claims a job and processes it; an exception fails the claim and is passed on. */
    method ProcessNextActivity(candidates: seq<nat>, clocks: seq<int>, token: nat, x: Execution, failedAt: int)
      returns (result: Result<bool, ()>)
      requires Valid() && |clocks| == |candidates| && FollowScan.Ascending(x.liked)
      modifies database`jobs, database`feeds
      ensures var (rows, claim) := ClaimFirst(old(database.Contents()), candidates, clocks, token, jobs.options);
              if claim.None? then result == Ok(false) && database.Contents() == rows
              else if Processed(rows, claim.value, x, jobs.options).Threw?
              then result.Err? && database.Contents()
                   == match FailJob(rows, claim.value, failedAt, jobs.options)
                      case None => rows
                      case Some(failed) => failed
              else result == Ok(true) && database.Contents() == Process(rows, claim.value, x, jobs.options)
    {
      var claim := jobs.ClaimNext(candidates, clocks, token);
      if claim.None? {
        return Ok(false);
      }
      result := ProcessClaimedActivity(claim.value, x);
      if result.Err? {
        var _ := jobs.Fail(claim.value, failedAt);
        return Err(());
      }
      return Ok(true);
    }
  }
}
