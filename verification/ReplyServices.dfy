/** The message service and the reply worker over their tables. */
module ReplyServices {
  import opened Prelude
  import opened ReplyJobs

  class ReplyDatabase {
    var jobs: map<nat, Job>
    var holds: map<nat, Hold>
    var messages: seq<Message>

    constructor ()
      ensures Contents() == Rows(map[], map[], [])
    {
      jobs, holds, messages := map[], map[], [];
    }

    function Contents(): Rows
      reads this
    {
      Rows(jobs, holds, messages)
    }
  }

  class MessagesService {
    const database: ReplyDatabase

    constructor (database: ReplyDatabase)
      ensures this.database == database
    {
      this.database := database;
    }

    method AppendMessage(job: nat, fromUser: bool)
      modifies database`messages
      ensures database.messages == old(database.messages) + [Message(job, fromUser)]
    {
      database.messages := database.messages + [Message(job, fromUser)];
    }

    /** The transaction of a sent message: the user's message, then its job under the reserved reference. */
    method SaveMessage(j: nat, conversation: nat, turn: nat, reference: nat, now: int)
      modifies database`jobs, database`messages
      ensures database.Contents() == SaveTurn(old(database.Contents()), j, conversation, turn, reference, now)
    {
      AppendMessage(j, true);
      database.jobs := database.jobs[j := Job(conversation, turn, Queued, reference, now, 0, None, None, None)];
    }

    /** The guarded update of a user's retry; false when the job is no longer failed. */
    method RequeueFailed(j: nat, reference: nat, now: int) returns (requeued: bool)
      modifies database`jobs
      ensures match Requeue(old(database.Contents()), j, reference, now)
              case None => !requeued && database.Contents() == old(database.Contents())
              case Some(rows) => requeued && database.Contents() == rows
    {
      if j !in database.jobs || database.jobs[j].status != Failed {
        return false;
      }
      var job := database.jobs[j];
      job := job.(status := Queued, reservation := reference, readyAt := now, attempts := 0);
      job := job.(lease := None, startedAt := None, deadline := None);
      database.jobs := database.jobs[j := job];
      return true;
    }
  }

  /** A row of the worker's poll: a claimable job and its conversation, in the order of the query. */
  datatype Candidate = Candidate(job: nat, conversation: nat)

  predicate Serves(rows: seq<Candidate>, conversation: nat) {
    exists i | 0 <= i < |rows| :: rows[i].conversation == conversation
  }

  /** The rows whose conversation no earlier row has, in the order of the query. */
  function FirstOfEach(rows: seq<Candidate>): seq<Candidate> {
    if rows == [] then []
    else
      var n := |rows| - 1;
      FirstOfEach(rows[..n]) + if Serves(rows[..n], rows[n].conversation) then [] else [rows[n]]
  }

  function AtMost(rows: seq<Candidate>, limit: nat): seq<Candidate> {
    if |rows| <= limit then rows else rows[..limit]
  }

  /** A conversation is served exactly when it was polled. */
  lemma {:induction false} FirstOfEachServes(rows: seq<Candidate>, conversation: nat)
    ensures Serves(FirstOfEach(rows), conversation) <==> Serves(rows, conversation)
  {
    if rows != [] {
      var n := |rows| - 1;
      var before := FirstOfEach(rows[..n]);
      FirstOfEachServes(rows[..n], conversation);
      assert rows == rows[..n] + [rows[n]];
      ServesAppended(rows[..n], rows[n], conversation);
      if Serves(rows[..n], rows[n].conversation) {
        assert FirstOfEach(rows) == before;
      } else {
        assert FirstOfEach(rows) == before + [rows[n]];
        ServesAppended(before, rows[n], conversation);
      }
    }
  }

  lemma ServesAppended(rows: seq<Candidate>, row: Candidate, conversation: nat)
    ensures Serves(rows + [row], conversation) <==> Serves(rows, conversation) || row.conversation == conversation
  {
    if i :| 0 <= i < |rows| && rows[i].conversation == conversation {
      assert (rows + [row])[i].conversation == conversation;
    }
    assert (rows + [row])[|rows|] == row;
  }

  lemma {:induction false} FirstOfEachDiffer(rows: seq<Candidate>)
    ensures forall i, k | 0 <= i < k < |FirstOfEach(rows)| ::
              FirstOfEach(rows)[i].conversation != FirstOfEach(rows)[k].conversation
  {
    if rows != [] {
      var n := |rows| - 1;
      var before, c := FirstOfEach(rows[..n]), rows[n].conversation;
      FirstOfEachDiffer(rows[..n]);
      FirstOfEachServes(rows[..n], c);
      forall i | 0 <= i < |before| && !Serves(rows[..n], c) ensures before[i].conversation != c {
        assert before[i].conversation == c ==> Serves(before, c);
      }
    }
  }

  /** One more row of the poll. */
  lemma NextPolled(rows: seq<Candidate>, n: nat)
    requires n < |rows|
    ensures FirstOfEach(rows[..n + 1])
         == FirstOfEach(rows[..n]) + if Serves(rows[..n], rows[n].conversation) then [] else [rows[n]]
    ensures forall c: nat :: Serves(rows[..n + 1], c) <==> Serves(rows[..n], c) || rows[n].conversation == c
  {
    assert rows[..n + 1][..n] == rows[..n];
    assert rows[..n + 1] == rows[..n] + [rows[n]];
    forall c: nat ensures Serves(rows[..n + 1], c) <==> Serves(rows[..n], c) || rows[n].conversation == c {
      ServesAppended(rows[..n], rows[n], c);
    }
  }

  class MessageReplyWorker {
    const database: ReplyDatabase
    const messages: MessagesService
    const options: Options

    ghost predicate Valid() {
      messages.database == database
    }

    constructor (database: ReplyDatabase, messages: MessagesService, options: Options)
      requires messages.database == database
      ensures Valid() && this.database == database && this.options == options
    {
      this.database, this.messages, this.options := database, messages, options;
    }

    /** Of the polled rows, the first of each conversation, at most `concurrency` of them in the order of the query. */
    method FirstPerConversation(rows: seq<Candidate>, concurrency: nat) returns (first: seq<Candidate>)
      ensures first == AtMost(FirstOfEach(rows), concurrency)
    {
      first := [];
      var seen: set<nat> := {};
      for n := 0 to |rows|
        invariant first == FirstOfEach(rows[..n])
        invariant forall c :: c in seen <==> Serves(rows[..n], c)
      {
        NextPolled(rows, n);
        if rows[n].conversation !in seen {
          first := first + [rows[n]];
          seen := seen + {rows[n].conversation};
        }
      }
      assert rows[..|rows|] == rows;
      if |first| > concurrency {
        first := first[..concurrency];
      }
    }

    /** The claim transaction: re-check the job, give way to a live job of the conversation, then take the lease. */
    method ClaimJob(j: nat, now: int) returns (claim: Option<Claim>)
      requires Valid()
      modifies database`jobs
      ensures match TryClaim(old(database.Contents()), j, now, options)
              case None => claim == None && database.Contents() == old(database.Contents())
              case Some((rows, c)) => claim == Some(c) && database.Contents() == rows
    {
      if j !in database.jobs {
        return None;
      }
      var job := database.jobs[j];
      var ready :=
        || (job.status == Queued && job.readyAt <= now)
        || (job.status == Running && job.lease.Some? && job.lease.value <= now);
      if !ready {
        return None;
      }
      if Busy(database.jobs, j, now) {
        return None;
      }
      var startedAt := if job.startedAt.Some? then job.startedAt else Some(now);
      var deadline := if job.deadline.Some? then job.deadline.value else now + options.deadlineMs;
      var lease := now + options.leaseMs;
      database.jobs := database.jobs[
        j := job.(status := Running, attempts := job.attempts + 1, lease := Some(lease),
                  startedAt := startedAt, deadline := Some(deadline))];
      return Some(Claim(j, job.attempts + 1, deadline, job.reservation, lease));
    }

    /** Close, reply, capture: a throw while capturing rolls the whole transaction back. */
    method CompleteJob(c: Claim, funded: bool) returns (threw: bool)
      requires Valid()
      modifies database`jobs, database`holds, database`messages
      ensures match Complete(old(database.Contents()), c, funded)
              case None => threw && database.Contents() == old(database.Contents())
              case Some(rows) => !threw && database.Contents() == rows
    {
      if c.job !in database.jobs || database.jobs[c.job].status != Running {
        return false;
      }
      var jobs, stored := database.jobs, database.messages;
      database.jobs := jobs[c.job := jobs[c.job].(status := Completed, lease := None)];
      messages.AppendMessage(c.job, false);
      var captured := CaptureHold(database.holds, c.reservation, funded);
      if captured.None? {
        database.jobs, database.messages := jobs, stored;
        return true;
      }
      database.holds := captured.value;
      return false;
    }

    method FinalizeJob(c: Claim)
      requires Valid()
      modifies database`jobs, database`holds
      ensures database.Contents() == FinalizeFailure(old(database.Contents()), c)
    {
      if c.job !in database.jobs || database.jobs[c.job].status != Running {
        return;
      }
      database.jobs := database.jobs[c.job := database.jobs[c.job].(status := Failed, lease := None)];
      if c.reservation in database.holds && database.holds[c.reservation] == Reserved {
        database.holds := database.holds[c.reservation := Released];
      }
    }

    method HandleJobFailure(c: Claim, now: int, retryable: bool)
      requires Valid()
      modifies database`jobs, database`holds
      ensures database.Contents() == HandleFailure(old(database.Contents()), c, now, options, retryable)
    {
      var exhausted := c.attempts >= options.maxAttempts;
      var expired := c.deadline <= now;
      if !retryable || exhausted || expired {
        FinalizeJob(c);
        return;
      }
      if c.job in database.jobs && database.jobs[c.job].status == Running {
        database.jobs := database.jobs[
          c.job := database.jobs[c.job].(status := Queued, readyAt := now + options.backoffMs, lease := None)];
      }
    }
  }
}
