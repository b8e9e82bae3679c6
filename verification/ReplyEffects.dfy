/** When the steps of the reply queue take effect, and what they leave. */
module ReplyEffects {
  import opened Prelude
  import opened ReplyJobs

  // ----- single transactions

  /** A job is claimed exactly when it is queued and its time has come, or its lease has expired, and no other job of
      its conversation runs under a live lease. The claim counts the attempt and starts the lease; the deadline is set
      by the first claim and kept by later ones. */
  lemma ClaimExactly(r: Rows, j: nat, now: int, o: Options)
    requires j in r.jobs
    ensures var job := r.jobs[j];
            TryClaim(r, j, now, o).Some? <==>
            && ((job.status == Queued && job.readyAt <= now)
                || (job.status == Running && job.lease.Some? && job.lease.value <= now))
            && forall k | k in r.jobs && k != j && r.jobs[k].conversation == job.conversation ::
                 !(r.jobs[k].status == Running && r.jobs[k].lease.Some? && r.jobs[k].lease.value > now)
    ensures TryClaim(r, j, now, o).Some? ==>
              var job := r.jobs[j];
              var (after, c) := TryClaim(r, j, now, o).value;
              var claimed := after.jobs[j];
              && after == r.(jobs := r.jobs[j := claimed])
              && claimed.status == Running && claimed.attempts == job.attempts + 1
              && claimed.lease == Some(now + o.leaseMs) && claimed.reservation == job.reservation
              && claimed.startedAt == (if job.startedAt.Some? then job.startedAt else Some(now))
              && claimed.deadline == (if job.deadline.Some? then job.deadline else Some(now + o.deadlineMs))
              && c == Claim(j, job.attempts + 1, claimed.deadline.value, job.reservation, now + o.leaseMs)
  {
  }

  /** A completion of a running job closes it, appends the character's message and captures the claim's reservation, if
      that one is captured already or reserved and paid for; otherwise it throws. A job that is not running is left
      alone. */
  lemma CompletionExactly(r: Rows, c: Claim, funded: bool)
    ensures var running := c.job in r.jobs && r.jobs[c.job].status == Running;
            var pays := c.reservation in r.holds
                        && (r.holds[c.reservation] == Captured || (r.holds[c.reservation] == Reserved && funded));
            && (!running ==> Complete(r, c, funded) == Some(r))
            && (running && !pays ==> Complete(r, c, funded).None?)
            && (running && pays ==>
                  && Complete(r, c, funded).Some?
                  && var t := Complete(r, c, funded).value;
                     && t.jobs == r.jobs[c.job := r.jobs[c.job].(status := Completed, lease := None)]
                     && t.messages == r.messages + [Message(c.job, false)]
                     && t.holds == r.holds[c.reservation := Captured])
  {
    assert c.reservation in r.holds && r.holds[c.reservation] == Captured ==>
        r.holds[c.reservation := Captured] == r.holds;
  }

  /** A failure of a running job closes it and frees a reserved reservation when it is not worth retrying, its attempts
      are used up or its deadline has passed; otherwise the job waits for the backoff and keeps its reservation. */
  lemma FailureExactly(r: Rows, c: Claim, now: int, o: Options, retryable: bool)
    ensures var running := c.job in r.jobs && r.jobs[c.job].status == Running;
            var over := !retryable || c.attempts >= o.maxAttempts || c.deadline <= now;
            var t := HandleFailure(r, c, now, o, retryable);
            && t.messages == r.messages
            && (!running ==> t == r)
            && (running && over ==>
                  && t.jobs == r.jobs[c.job := r.jobs[c.job].(status := Failed, lease := None)]
                  && t.holds == if c.reservation in r.holds && r.holds[c.reservation] == Reserved
                                then r.holds[c.reservation := Released] else r.holds)
            && (running && !over ==>
                  && t.jobs == r.jobs[c.job := r.jobs[c.job].(status := Queued, lease := None,
                                                              readyAt := now + o.backoffMs)]
                  && t.holds == r.holds)
  {
  }

  /** A user's retry reopens exactly a failed job, with its attempts and deadline as if it were new. */
  lemma RetryExactly(r: Rows, j: nat, reference: nat, now: int)
    requires j in r.jobs
    ensures Requeue(r, j, reference, now).Some? <==> r.jobs[j].status == Failed
    ensures Requeue(r, j, reference, now).Some? ==>
              Requeue(r, j, reference, now).value
              == r.(jobs := r.jobs[j := Job(r.jobs[j].conversation, r.jobs[j].turn, Queued, reference, now, 0,
                                            None, None, None)])
  {
  }

  /** A request that comes to nothing gives its reservation back: a retry that finds its job no longer failed leaves the
      tables alone and then releases, and so does a message that could not be saved. */
  lemma LostRequestReleases(s: State, ticket: nat, o: Options)
    requires TicketsApart(s) && ticket in s.tickets
    ensures s.tickets[ticket].Retrying?
            && !(s.tickets[ticket].job in s.rows.jobs && s.rows.jobs[s.tickets[ticket].job].status == Failed) ==>
              var lost := Next(s, DoRetryRequeue(ticket), o);
              && lost.rows == s.rows && Enabled(lost, DoRelease(ticket))
              && Next(lost, DoRelease(ticket), o).rows
                 == s.rows.(holds := s.rows.holds[s.tickets[ticket].reference := Released])
    ensures !s.tickets[ticket].Retrying? ==>
              && Enabled(s, DoRelease(ticket))
              && Next(s, DoRelease(ticket), o).rows
                 == s.rows.(holds := s.rows.holds[s.tickets[ticket].reference := Released])
  {
  }

  // ----- a job from claim to reply

  /** A waiting job whose turn it is gets its reply: a free worker that claims it and completes it in time, with the
      credits there, leaves it completed with one reply and one charge. */
  lemma ReplyArrives(s: State, w: nat, j: nat, o: Options)
    requires Followed(s) && w !in s.claims && j in s.rows.jobs
    requires s.rows.jobs[j].status == Queued && s.rows.jobs[j].readyAt <= s.now
    requires forall k | k in s.rows.jobs && k != j && s.rows.jobs[k].conversation == s.rows.jobs[j].conversation ::
               !(s.rows.jobs[k].status == Running && s.rows.jobs[k].lease.Some? && s.rows.jobs[k].lease.value > s.now)
    ensures var claimed := Next(s, DoClaim(w, j), o);
            && w in claimed.claims
            && var done := Next(claimed, DoComplete(w, true), o);
               && j in done.rows.jobs && done.rows.jobs[j].status == Completed
               && done.rows.messages == s.rows.messages + [Message(j, false)]
               && s.rows.jobs[j].reservation in done.rows.holds
               && done.rows.holds[s.rows.jobs[j].reservation] == Captured
               && ExactlyOnce(done, j)
  {
    ClaimExactly(s.rows, j, s.now, o);
    var claimed := Next(s, DoClaim(w, j), o);
    StepAccounts(s, DoClaim(w, j), o);
    CompletionExactly(claimed.rows, claimed.claims[w], true);
    CompletedState(claimed, w, true, o);
    StepAccounts(claimed, DoComplete(w, true), o);
    AccountedMeans(Next(claimed, DoComplete(w, true), o), j);
  }

  /** A waiting job that is claimed and completed at once: its reply is appended, its reservation captured, and every
      other row is as before. */
  lemma ClaimThenComplete(s: State, w: nat, j: nat, o: Options)
    requires w !in s.claims && j in s.rows.jobs
    requires s.rows.jobs[j].status == Queued && s.rows.jobs[j].readyAt <= s.now
    requires s.rows.jobs[j].reservation in s.rows.holds && s.rows.holds[s.rows.jobs[j].reservation] == Reserved
    requires forall k | k in s.rows.jobs && k != j && s.rows.jobs[k].conversation == s.rows.jobs[j].conversation ::
               !Live(s.rows.jobs[k], s.now)
    ensures var claimed := Next(s, DoClaim(w, j), o);
            && w in claimed.claims
            && var done := Next(claimed, DoComplete(w, true), o);
               && j in done.rows.jobs
               && done.rows == Rows(s.rows.jobs[j := done.rows.jobs[j]],
                                    s.rows.holds[s.rows.jobs[j].reservation := Captured],
                                    s.rows.messages + [Message(j, false)])
               && done.rows.jobs[j].status == Completed
               && done.rows.jobs[j].conversation == s.rows.jobs[j].conversation
               && done.rows.jobs[j].turn == s.rows.jobs[j].turn
  {
    ClaimExactly(s.rows, j, s.now, o);
    var claimed := Next(s, DoClaim(w, j), o);
    CompletionExactly(claimed.rows, claimed.claims[w], true);
  }

  /** The whole way of a message: sent under a new reservation to a conversation without a live job, it is stored,
      answered once and charged once. */
  lemma SentMessageIsAnswered(s: State, o: Options, ticket: nat, w: nat, j: nat, conversation: nat, turn: nat,
                              reference: nat)
    requires ticket !in s.tickets && w !in s.claims
    requires j !in s.rows.jobs && reference !in s.rows.holds
    requires forall k | k in s.rows.jobs && s.rows.jobs[k].conversation == conversation :: !Live(s.rows.jobs[k], s.now)
    ensures var reserved := Next(s, DoSendReserve(ticket, reference), o);
            && Enabled(reserved, DoSendSave(ticket, j, conversation, turn))
            && var claimed := Next(Next(reserved, DoSendSave(ticket, j, conversation, turn), o), DoClaim(w, j), o);
               && w in claimed.claims
               && var done := Next(claimed, DoComplete(w, true), o);
                  && done.rows.messages == s.rows.messages + [Message(j, true)] + [Message(j, false)]
                  && j in done.rows.jobs && done.rows.jobs[j].status == Completed
                  && done.rows.jobs[j].conversation == conversation && done.rows.jobs[j].turn == turn
                  && done.rows.holds == s.rows.holds[reference := Captured]
  {
    var reserved := Next(s, DoSendReserve(ticket, reference), o);
    var saved := Next(reserved, DoSendSave(ticket, j, conversation, turn), o);
    SavedRows(s, o, ticket, j, conversation, turn, reference);
    ClaimThenComplete(saved, w, j, o);
    assert s.rows.holds[reference := Reserved][reference := Captured] == s.rows.holds[reference := Captured];
  }

  lemma SavedRows(s: State, o: Options, ticket: nat, j: nat, conversation: nat, turn: nat, reference: nat)
    requires ticket !in s.tickets && j !in s.rows.jobs && reference !in s.rows.holds
    ensures var reserved := Next(s, DoSendReserve(ticket, reference), o);
            && Enabled(reserved, DoSendSave(ticket, j, conversation, turn))
            && var saved := Next(reserved, DoSendSave(ticket, j, conversation, turn), o);
               && saved.now == s.now && saved.claims == s.claims
               && saved.rows == Rows(s.rows.jobs[j := Job(conversation, turn, Queued, reference, s.now, 0,
                                                          None, None, None)],
                                     s.rows.holds[reference := Reserved],
                                     s.rows.messages + [Message(j, true)])
  {
  }

  // ----- the user's messages

  function UserTurns(messages: seq<Message>, j: nat): nat {
    if messages == [] then 0
    else
      var last := messages[|messages| - 1];
      UserTurns(messages[..|messages| - 1], j) + if last.job == j && last.fromUser then 1 else 0
  }

  lemma UserTurnsAppended(messages: seq<Message>, m: Message, j: nat)
    ensures UserTurns(messages + [m], j) == UserTurns(messages, j) + if m.job == j && m.fromUser then 1 else 0
  {
    assert (messages + [m])[..|messages|] == messages;
  }

  ghost predicate TurnsStored(s: State) {
    forall j: nat :: UserTurns(s.rows.messages, j) == if j in s.rows.jobs then 1 else 0
  }

  lemma SaveStoresTurn(s: State, step: Step, o: Options)
    requires TurnsStored(s) && Enabled(s, step) && step.DoSendSave?
    ensures TurnsStored(Next(s, step, o))
  {
    var z := Next(s, step, o);
    forall j: nat ensures UserTurns(z.rows.messages, j) == if j in z.rows.jobs then 1 else 0 {
      UserTurnsAppended(s.rows.messages, Message(step.job, true), j);
    }
  }

  lemma CompleteStoresNoTurn(s: State, step: Step, o: Options)
    requires TurnsStored(s) && Enabled(s, step) && step.DoComplete?
    ensures TurnsStored(Next(s, step, o))
  {
    var z := Next(s, step, o);
    var c := s.claims[step.worker];
    CompletedState(s, step.worker, step.funded, o);
    forall j: nat ensures UserTurns(z.rows.messages, j) == if j in z.rows.jobs then 1 else 0 {
      UserTurnsAppended(s.rows.messages, Message(c.job, false), j);
    }
  }

  lemma OtherStepsKeepTurns(s: State, step: Step, o: Options)
    requires TurnsStored(s) && Enabled(s, step) && !step.DoSendSave? && !step.DoComplete?
    ensures TurnsStored(Next(s, step, o))
  {
    var z := Next(s, step, o);
    assert z.rows.messages == s.rows.messages && z.rows.jobs.Keys == s.rows.jobs.Keys;
    forall j: nat ensures UserTurns(z.rows.messages, j) == if j in z.rows.jobs then 1 else 0 {
      assert j in z.rows.jobs.Keys <==> j in s.rows.jobs.Keys;
    }
  }

  /** In every reachable state every job has exactly one message of the user, however often it was retried; nothing else
      stores one. */
  lemma {:induction false} TurnsStoredOverRuns(s: State, steps: seq<Step>, o: Options, z: State)
    requires TurnsStored(s) && Run(s, steps, o, z)
    ensures TurnsStored(z)
    decreases |steps|
  {
    if steps != [] {
      var step := steps[0];
      if step.DoSendSave? {
        SaveStoresTurn(s, step, o);
      } else if step.DoComplete? {
        CompleteStoresNoTurn(s, step, o);
      } else {
        OtherStepsKeepTurns(s, step, o);
      }
      TurnsStoredOverRuns(Next(s, step, o), steps[1..], o, z);
    }
  }

  // ----- attempts

  /** A live claim knows how often its job was tried, and a waiting job has an attempt left. */
  ghost predicate AttemptsLeft(s: State, o: Options) {
    && (forall w | w in s.claims && s.now < s.claims[w].lease ::
          s.claims[w].job in s.rows.jobs && s.rows.jobs[s.claims[w].job].attempts == s.claims[w].attempts)
    && (forall j | j in s.rows.jobs && s.rows.jobs[j].status == Queued :: s.rows.jobs[j].attempts < o.maxAttempts)
  }

  lemma ClaimKeepsAttempts(s: State, w: nat, j: nat, o: Options)
    requires AttemptsLeft(s, o) && LiveClaims(s) && w !in s.claims
    ensures AttemptsLeft(Next(s, DoClaim(w, j), o), o)
  {
  }

  lemma WorkerKeepsAttempts(s: State, step: Step, o: Options)
    requires AttemptsLeft(s, o) && LiveClaims(s) && Enabled(s, step) && OnTime(s, step)
    requires step.DoComplete? || step.DoFail? || step.DoDeadline?
    ensures AttemptsLeft(Next(s, step, o), o)
  {
  }

  lemma OthersKeepAttempts(s: State, step: Step, o: Options)
    requires AttemptsLeft(s, o) && LiveClaims(s) && Enabled(s, step) && o.maxAttempts > 0
    requires !step.DoClaim? && !step.DoComplete? && !step.DoFail? && !step.DoDeadline?
    ensures AttemptsLeft(Next(s, step, o), o)
  {
  }

  /** With workers that are on time, no job ever waits for a further attempt once its attempts are used up. */
  lemma {:induction false} AttemptsLeftOverRuns(s: State, steps: seq<Step>, o: Options, z: State)
    requires o.maxAttempts > 0 && AttemptsLeft(s, o) && LiveClaims(s) && Accounted(s)
    requires PunctualRun(s, steps, o, z)
    ensures AttemptsLeft(z, o)
    decreases |steps|
  {
    if steps != [] {
      var step := steps[0];
      match step {
        case DoClaim(w, j) => ClaimKeepsAttempts(s, w, j, o);
        case DoComplete(_, _) => WorkerKeepsAttempts(s, step, o);
        case DoFail(_, _) => WorkerKeepsAttempts(s, step, o);
        case DoDeadline(_) => WorkerKeepsAttempts(s, step, o);
        case _ => OthersKeepAttempts(s, step, o);
      }
      StepAccounts(s, step, o);
      StepKeepsLive(s, step, o);
      AttemptsLeftOverRuns(Next(s, step, o), steps[1..], o, z);
    }
  }
}
