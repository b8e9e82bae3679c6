/** The tables of character social activity: policies, jobs, and what each character has viewed, liked and followed. */
module SocialTables {
  import opened Prelude

  /** Post views, post likes and follows of one character, by post or author, with the time of the row. */
  datatype Feed = Feed(views: map<nat, int>, likes: map<nat, int>, follows: map<nat, int>)

  const EMPTY := Feed(map[], map[], map[])

  datatype Policy = Policy(
    enabled: bool,
    activeStart: nat,
    activeEnd: nat,
    intervalMs: nat,
    maxDailyViews: int,
    maxDailyLikes: int,
    maxDailyFollows: int)

  datatype PolicyRow = PolicyRow(policy: Policy, nextAt: int)

  datatype JobStatus = Queued | Running | Completed | Failed | Cancelled

  datatype Job = Job(
    character: nat,
    scheduledAt: int,
    nextAttemptAt: int,
    status: JobStatus,
    attempts: nat,
    token: Option<nat>,
    lease: Option<int>,
    finishedAt: Option<int>)

  /** `next` is the sequence that numbers the jobs. */
  datatype Rows = Rows(jobs: map<nat, Job>, next: nat, feeds: map<nat, Feed>, policies: map<nat, PolicyRow>)

  function FeedOf(feeds: map<nat, Feed>, character: nat): Feed {
    if character in feeds then feeds[character] else EMPTY
  }

  datatype Options = Options(maxAttempts: nat, leaseMs: int, backoffMs: int, postsPerRun: nat, threshold: nat)

  class SocialDatabase {
    var jobs: map<nat, Job>
    var next: nat
    var feeds: map<nat, Feed>
    var policies: map<nat, PolicyRow>

    constructor ()
      ensures Contents() == Rows(map[], 0, map[], map[])
    {
      jobs, next, feeds, policies := map[], 0, map[], map[];
    }

    function Contents(): Rows
      reads this
    {
      Rows(jobs, next, feeds, policies)
    }
  }

  // ----- rows with a time

  function FirstOf(xs: seq<nat>, limit: nat): seq<nat> {
    if |xs| <= limit then xs else xs[..limit]
  }

  /** INSERT of one row per id, ON CONFLICT DO NOTHING. */
  function Inserted(rows: map<nat, int>, ids: seq<nat>, now: int): map<nat, int> {
    if ids == [] then rows
    else
      var n := |ids| - 1;
      var before := Inserted(rows, ids[..n], now);
      if ids[n] in before then before else before[ids[n] := now]
  }

  /** The ids such an INSERT returns: those that were new. */
  function Fresh(rows: map<nat, int>, ids: seq<nat>): seq<nat> {
    if ids == [] then []
    else
      var n := |ids| - 1;
      Fresh(rows, ids[..n]) + if ids[n] in rows || ids[n] in ids[..n] then [] else [ids[n]]
  }

  datatype Day = Day(start: int, end: int) {
    predicate Has(t: int) {
      start <= t < end
    }
  }

  function RowsIn(rows: map<nat, int>, day: Day): set<nat> {
    set k | k in rows && day.Has(rows[k])
  }

  function CountIn(rows: map<nat, int>, day: Day): nat {
    |RowsIn(rows, day)|
  }

  /** An insert keeps the old rows and gives every new one the time of the insert. */
  lemma {:induction false} InsertedRows(rows: map<nat, int>, ids: seq<nat>, now: int)
    ensures forall k :: k in Inserted(rows, ids, now) <==> k in rows || k in ids
    ensures forall k | k in Inserted(rows, ids, now) ::
              Inserted(rows, ids, now)[k] == if k in rows then rows[k] else now
  {
    if ids != [] {
      var n := |ids| - 1;
      InsertedRows(rows, ids[..n], now);
      assert ids == ids[..n] + [ids[n]];
    }
  }

  lemma {:induction false} FreshIds(rows: map<nat, int>, ids: seq<nat>)
    ensures |Fresh(rows, ids)| <= |ids|
    ensures forall k :: k in Fresh(rows, ids) <==> k in ids && k !in rows
  {
    if ids != [] {
      var n := |ids| - 1;
      FreshIds(rows, ids[..n]);
      assert ids == ids[..n] + [ids[n]];
    }
  }

  lemma OneMoreRow(rows: map<nat, int>, k: nat, now: int, day: Day)
    requires k !in rows
    ensures CountIn(rows[k := now], day) == CountIn(rows, day) + if day.Has(now) then 1 else 0
  {
    if day.Has(now) {
      assert RowsIn(rows[k := now], day) == RowsIn(rows, day) + {k};
    } else {
      assert RowsIn(rows[k := now], day) == RowsIn(rows, day);
    }
  }

  /** The rows of a day grow by exactly the rows inserted on that day. */
  lemma {:induction false} InsertedCount(rows: map<nat, int>, ids: seq<nat>, now: int, day: Day)
    ensures CountIn(Inserted(rows, ids, now), day)
         == CountIn(rows, day) + if day.Has(now) then |Fresh(rows, ids)| else 0
  {
    if ids != [] {
      var n := |ids| - 1;
      InsertedCount(rows, ids[..n], now, day);
      InsertedRows(rows, ids[..n], now);
      var before := Inserted(rows, ids[..n], now);
      if ids[n] !in before {
        OneMoreRow(before, ids[n], now, day);
      }
    }
  }
}
