/** Reply jobs: a lease queue without a fencing token, coupled to credit reservations. */
module ReplyJobs {
  import opened Prelude

  datatype JobStatus = Queued | Running | Completed | Failed

  datatype Job = Job(
    conversation: nat,
    turn: nat,
    status: JobStatus,
    reservation: nat,
    readyAt: int,
    attempts: nat,
    lease: Option<int>,
    startedAt: Option<int>,
    deadline: Option<int>)

  datatype Hold = Reserved | Captured | Released

  datatype Message = Message(job: nat, fromUser: bool)

  /** The tables: jobs, chat reservations by reference, and messages. */
  datatype Rows = Rows(jobs: map<nat, Job>, holds: map<nat, Hold>, messages: seq<Message>)

  datatype Options = Options(maxAttempts: nat, deadlineMs: int, leaseMs: int, backoffMs: int)

  /** What a worker remembers of the job it claimed; it may be out of date when the worker comes back. */
  datatype Claim = Claim(job: nat, attempts: nat, deadline: int, reservation: nat, lease: int)

  // ----- transactions

  predicate Ready(job: Job, now: int) {
    || (job.status == Queued && job.readyAt <= now)
    || (job.status == Running && job.lease.Some? && job.lease.value <= now)
  }

  predicate Live(job: Job, now: int) {
    job.status == Running && job.lease.Some? && job.lease.value > now
  }

  /** Another job of the conversation is running under a live lease. */
  predicate Busy(jobs: map<nat, Job>, j: nat, now: int)
    requires j in jobs
  {
    exists k | k in jobs :: k != j && jobs[k].conversation == jobs[j].conversation && Live(jobs[k], now)
  }

  function Claimed(job: Job, now: int, o: Options): Job {
    job.(status := Running,
         attempts := job.attempts + 1,
         lease := Some(now + o.leaseMs),
         startedAt := if job.startedAt.Some? then job.startedAt else Some(now),
         deadline := if job.deadline.Some? then job.deadline else Some(now + o.deadlineMs))
  }

  function ClaimOf(j: nat, job: Job, now: int, o: Options): Claim {
    Claim(j, job.attempts + 1, Claimed(job, now, o).deadline.value, job.reservation, now + o.leaseMs)
  }

  function TryClaim(r: Rows, j: nat, now: int, o: Options): Option<(Rows, Claim)> {
    if j !in r.jobs || !Ready(r.jobs[j], now) || Busy(r.jobs, j, now) then None
    else Some((r.(jobs := r.jobs[j := Claimed(r.jobs[j], now, o)]), ClaimOf(j, r.jobs[j], now, o)))
  }

  predicate IsRunning(r: Rows, j: nat) {
    j in r.jobs && r.jobs[j].status == Running
  }

  /** Capturing a reservation that never expires: once captured it stays, a released one throws, and a reserved one
      needs the credits. */
  function CaptureHold(holds: map<nat, Hold>, reference: nat, funded: bool): Option<map<nat, Hold>> {
    if reference !in holds then None
    else
      match holds[reference]
      case Captured => Some(holds)
      case Released => None
      case Reserved => if funded then Some(holds[reference := Captured]) else None
  }

  /** Closing the job, appending the reply and capturing are one transaction; None is a throw that undoes it all. */
  function Complete(r: Rows, c: Claim, funded: bool): Option<Rows> {
    if !IsRunning(r, c.job) then Some(r)
    else
      match CaptureHold(r.holds, c.reservation, funded)
      case None => None
      case Some(holds) =>
        Some(Rows(r.jobs[c.job := r.jobs[c.job].(status := Completed, lease := None)],
                  holds,
                  r.messages + [Message(c.job, false)]))
  }

  function ReleaseHold(holds: map<nat, Hold>, reference: nat): map<nat, Hold> {
    if reference in holds && holds[reference] == Reserved then holds[reference := Released] else holds
  }

  function FinalizeFailure(r: Rows, c: Claim): Rows {
    if !IsRunning(r, c.job) then r
    else r.(jobs := r.jobs[c.job := r.jobs[c.job].(status := Failed, lease := None)],
            holds := ReleaseHold(r.holds, c.reservation))
  }

  /** The failure is final: not worth retrying, out of attempts, or past the deadline. */
  predicate GivesUp(c: Claim, now: int, o: Options, retryable: bool) {
    !retryable || c.attempts >= o.maxAttempts || c.deadline <= now
  }

  function HandleFailure(r: Rows, c: Claim, now: int, o: Options, retryable: bool): Rows {
    if GivesUp(c, now, o, retryable) then FinalizeFailure(r, c)
    else if !IsRunning(r, c.job) then r
    else r.(jobs := r.jobs[c.job := r.jobs[c.job].(status := Queued, readyAt := now + o.backoffMs, lease := None)])
  }

  function NewJob(conversation: nat, turn: nat, reference: nat, now: int): Job {
    Job(conversation, turn, Queued, reference, now, 0, None, None, None)
  }

  /** Stores the user's message and opens its job. */
  function SaveTurn(r: Rows, j: nat, conversation: nat, turn: nat, reference: nat, now: int): Rows {
    r.(jobs := r.jobs[j := NewJob(conversation, turn, reference, now)],
       messages := r.messages + [Message(j, true)])
  }

  /** Reopens a failed job under a new reservation; None when another request was faster. */
  function Requeue(r: Rows, j: nat, reference: nat, now: int): Option<Rows> {
    if j !in r.jobs || r.jobs[j].status != Failed then None
    else
      Some(r.(jobs := r.jobs[j := r.jobs[j].(status := Queued, reservation := reference, readyAt := now, attempts := 0,
                                             lease := None, startedAt := None, deadline := None)]))
  }

  // ----- the system

  datatype Ticket =
    | Sending(reference: nat)
    | Retrying(job: nat, reference: nat)
    | Refused(reference: nat)

  /** Tables, clock, workers' claims and requests in progress; and as history the job that every reservation was
      ever attached to, and the reservation under which a job was completed. */
  datatype State = State(
    rows: Rows,
    now: int,
    claims: map<nat, Claim>,
    tickets: map<nat, Ticket>,
    owner: map<nat, nat>,
    charged: map<nat, nat>)

  datatype Step =
    | DoClaim(worker: nat, job: nat)
    | DoComplete(worker: nat, funded: bool)
    | DoFail(worker: nat, retryable: bool)
    | DoDeadline(worker: nat)
    | DoCrash(worker: nat)
    | DoSendReserve(ticket: nat, reference: nat)
    | DoSendSave(ticket: nat, job: nat, conversation: nat, turn: nat)
    | DoRetryReserve(ticket: nat, job: nat, reference: nat)
    | DoRetryRequeue(ticket: nat)
    | DoRelease(ticket: nat)
    | DoAbandon(ticket: nat)
    | DoTick(to: int)

  predicate Enabled(s: State, step: Step) {
    match step
    case DoClaim(w, _) => w !in s.claims
    case DoComplete(w, _) => w in s.claims
    case DoFail(w, _) => w in s.claims
    case DoDeadline(w) => w in s.claims && s.claims[w].deadline <= s.now
    case DoCrash(w) => w in s.claims
    case DoSendReserve(t, r) => t !in s.tickets && r !in s.rows.holds
    case DoSendSave(t, j, _, _) => t in s.tickets && s.tickets[t].Sending? && j !in s.rows.jobs
    case DoRetryReserve(t, j, r) => t !in s.tickets && r !in s.rows.holds && j in s.rows.jobs
    case DoRetryRequeue(t) => t in s.tickets && s.tickets[t].Retrying?
    case DoRelease(t) => t in s.tickets && !s.tickets[t].Retrying?
    case DoAbandon(t) => t in s.tickets
    case DoTick(to) => s.now <= to
  }

  function Next(s: State, step: Step, o: Options): State
    requires Enabled(s, step)
  {
    match step
    case DoClaim(w, j) =>
      (match TryClaim(s.rows, j, s.now, o)
       case None => s
       case Some((rows, c)) => s.(rows := rows, claims := s.claims[w := c]))
    case DoComplete(w, funded) =>
      (match Complete(s.rows, s.claims[w], funded)
       case None => s
       case Some(rows) =>
         var c := s.claims[w];
         s.(rows := rows, claims := s.claims - {w},
            charged := if IsRunning(s.rows, c.job) then s.charged[c.job := c.reservation] else s.charged))
    case DoFail(w, retryable) =>
      s.(rows := HandleFailure(s.rows, s.claims[w], s.now, o, retryable), claims := s.claims - {w})
    case DoDeadline(w) => s.(rows := FinalizeFailure(s.rows, s.claims[w]), claims := s.claims - {w})
    case DoCrash(w) => s.(claims := s.claims - {w})
    case DoSendReserve(t, r) =>
      s.(rows := s.rows.(holds := s.rows.holds[r := Reserved]), tickets := s.tickets[t := Sending(r)])
    case DoSendSave(t, j, conversation, turn) =>
      s.(rows := SaveTurn(s.rows, j, conversation, turn, s.tickets[t].reference, s.now),
         tickets := s.tickets - {t},
         owner := s.owner[s.tickets[t].reference := j])
    case DoRetryReserve(t, j, r) =>
      s.(rows := s.rows.(holds := s.rows.holds[r := Reserved]), tickets := s.tickets[t := Retrying(j, r)])
    case DoRetryRequeue(t) =>
      var ticket := s.tickets[t];
      (match Requeue(s.rows, ticket.job, ticket.reference, s.now)
       case None => s.(tickets := s.tickets[t := Refused(ticket.reference)])
       case Some(rows) =>
         s.(rows := rows, tickets := s.tickets - {t}, owner := s.owner[ticket.reference := ticket.job]))
    case DoRelease(t) =>
      s.(rows := s.rows.(holds := ReleaseHold(s.rows.holds, s.tickets[t].reference)), tickets := s.tickets - {t})
    case DoAbandon(t) => s.(tickets := s.tickets - {t})
    case DoTick(to) => s.(now := to)
  }

  /** A worker acts before its lease expires, or never. */
  predicate OnTime(s: State, step: Step) {
    match step
    case DoComplete(w, _) => w in s.claims && s.now < s.claims[w].lease
    case DoFail(w, _) => w in s.claims && s.now < s.claims[w].lease
    case DoDeadline(w) => w in s.claims && s.now < s.claims[w].lease
    case _ => true
  }

  ghost predicate Run(s: State, steps: seq<Step>, o: Options, z: State)
    decreases |steps|
  {
    if steps == [] then s == z
    else Enabled(s, steps[0]) && Run(Next(s, steps[0], o), steps[1..], o, z)
  }

  ghost predicate PunctualRun(s: State, steps: seq<Step>, o: Options, z: State)
    decreases |steps|
  {
    if steps == [] then s == z
    else
      && Enabled(s, steps[0]) && OnTime(s, steps[0])
      && PunctualRun(Next(s, steps[0], o), steps[1..], o, z)
  }

  const START: State := State(Rows(map[], map[], []), 0, map[], map[], map[], map[])

  // ----- exactly once

  function Replies(messages: seq<Message>, j: nat): nat {
    if messages == [] then 0
    else
      var last := messages[|messages| - 1];
      Replies(messages[..|messages| - 1], j) + if last.job == j && !last.fromUser then 1 else 0
  }

  lemma RepliesAppended(messages: seq<Message>, m: Message, j: nat)
    ensures Replies(messages + [m], j) == Replies(messages, j) + if m.job == j && !m.fromUser then 1 else 0
  {
    assert (messages + [m])[..|messages|] == messages;
  }

  /** The reservations ever attached to a job that have been captured. */
  function CapturedFor(s: State, j: nat): set<nat> {
    set r | r in s.owner && s.owner[r] == j && r in s.rows.holds && s.rows.holds[r] == Captured
  }

  predicate IsCompleted(s: State, j: nat) {
    j in s.rows.jobs && s.rows.jobs[j].status == Completed
  }

  /** One reply and one captured reservation for a completed job, none of either otherwise. */
  ghost predicate ExactlyOnce(s: State, j: nat) {
    && Replies(s.rows.messages, j) == (if IsCompleted(s, j) then 1 else 0)
    && |CapturedFor(s, j)| == if IsCompleted(s, j) then 1 else 0
  }

  ghost predicate Attached(s: State) {
    && (forall r | r in s.owner :: s.owner[r] in s.rows.jobs && r in s.rows.holds)
    && (forall j | j in s.rows.jobs ::
          s.rows.jobs[j].reservation in s.owner && s.owner[s.rows.jobs[j].reservation] == j)
    && (forall w | w in s.claims ::
          s.claims[w].reservation in s.owner && s.owner[s.claims[w].reservation] == s.claims[w].job)
  }

  /** References that requests hold belong to no job yet, and to no other request. */
  ghost predicate TicketsApart(s: State) {
    && (forall t | t in s.tickets ::
          && s.tickets[t].reference in s.rows.holds
          && s.rows.holds[s.tickets[t].reference] == Reserved
          && s.tickets[t].reference !in s.owner)
    && (forall t, u | t in s.tickets && u in s.tickets && t != u :: s.tickets[t].reference != s.tickets[u].reference)
  }

  /** Captured are exactly the reservations under which jobs were completed. */
  ghost predicate Charged(s: State) {
    && (forall j | j in s.charged ::
          && IsCompleted(s, j)
          && s.charged[j] in s.owner && s.owner[s.charged[j]] == j
          && s.charged[j] in s.rows.holds && s.rows.holds[s.charged[j]] == Captured)
    && (forall j | j in s.rows.jobs && s.rows.jobs[j].status == Completed :: j in s.charged)
    && (forall r | r in s.owner && r in s.rows.holds && s.rows.holds[r] == Captured ::
          s.owner[r] in s.charged && s.charged[s.owner[r]] == r)
  }

  ghost predicate Replied(s: State) {
    forall j: nat :: Replies(s.rows.messages, j) == if IsCompleted(s, j) then 1 else 0
  }

  ghost predicate Accounted(s: State) {
    Attached(s) && TicketsApart(s) && Charged(s) && Replied(s)
  }

  lemma AccountedMeans(s: State, j: nat)
    requires Accounted(s)
    ensures ExactlyOnce(s, j)
  {
    if IsCompleted(s, j) {
      assert CapturedFor(s, j) == {s.charged[j]};
    } else {
      assert CapturedFor(s, j) == {};
    }
  }

  /** Steps that append no reply and complete no job leave the replies as they are. */
  lemma SameReplies(s: State, t: State)
    requires Replied(s)
    requires forall j: nat :: IsCompleted(t, j) == IsCompleted(s, j)
    requires t.rows.messages == s.rows.messages
    ensures Replied(t)
  {
    forall j: nat
      ensures Replies(t.rows.messages, j) == if IsCompleted(t, j) then 1 else 0
    {
      assert Replies(s.rows.messages, j) == if IsCompleted(s, j) then 1 else 0;
    }
  }

  lemma ClaimAccounts(s: State, w: nat, j: nat, o: Options)
    requires Accounted(s) && w !in s.claims
    ensures Accounted(Next(s, DoClaim(w, j), o))
  {
    SameReplies(s, Next(s, DoClaim(w, j), o));
  }

  /** A worker that still finds its job running has a reservation that was never captured. */
  lemma RunningIsUncaptured(s: State, c: Claim)
    requires Accounted(s) && IsRunning(s.rows, c.job)
    requires c.reservation in s.owner && s.owner[c.reservation] == c.job
    ensures c.reservation in s.rows.holds && s.rows.holds[c.reservation] != Captured
  {
  }

  lemma DropClaim(s: State, w: nat)
    requires Accounted(s)
    ensures Accounted(s.(claims := s.claims - {w}))
  {
    SameReplies(s, s.(claims := s.claims - {w}));
  }

  /** A running job that is completed under a claim's reservation. */
  function Finished(s: State, c: Claim): State
    requires c.job in s.rows.jobs
  {
    s.(rows := Rows(s.rows.jobs[c.job := s.rows.jobs[c.job].(status := Completed, lease := None)],
                    s.rows.holds[c.reservation := Captured],
                    s.rows.messages + [Message(c.job, false)]),
       charged := s.charged[c.job := c.reservation])
  }

  lemma FinishedIsCharged(s: State, c: Claim)
    requires Accounted(s) && IsRunning(s.rows, c.job)
    requires c.reservation in s.owner && s.owner[c.reservation] == c.job
    ensures Charged(Finished(s, c))
  {
  }

  lemma FinishedIsAttached(s: State, c: Claim)
    requires Accounted(s) && IsRunning(s.rows, c.job)
    requires c.reservation in s.owner && s.owner[c.reservation] == c.job
    ensures Attached(Finished(s, c)) && TicketsApart(Finished(s, c))
  {
  }

  lemma FinishedAccounts(s: State, c: Claim)
    requires Accounted(s) && IsRunning(s.rows, c.job)
    requires c.reservation in s.owner && s.owner[c.reservation] == c.job
    ensures Accounted(Finished(s, c))
  {
    FinishedIsCharged(s, c);
    FinishedIsAttached(s, c);
    forall j: nat
      ensures Replies(Finished(s, c).rows.messages, j) == if IsCompleted(Finished(s, c), j) then 1 else 0
    {
      assert Replies(s.rows.messages, j) == if IsCompleted(s, j) then 1 else 0;
      RepliesAppended(s.rows.messages, Message(c.job, false), j);
    }
  }

  /** What a completing worker leaves: nothing changed, its claim dropped, or its job finished. */
  lemma CompletedState(s: State, w: nat, funded: bool, o: Options)
    requires w in s.claims
    ensures var c := s.claims[w];
            Next(s, DoComplete(w, funded), o) ==
            if Complete(s.rows, c, funded).None? then s
            else if !IsRunning(s.rows, c.job) then s.(claims := s.claims - {w})
            else s.(rows := Complete(s.rows, c, funded).value, claims := s.claims - {w},
                    charged := s.charged[c.job := c.reservation])
  {
  }

  lemma FinishedRows(s: State, c: Claim, funded: bool)
    requires IsRunning(s.rows, c.job) && Complete(s.rows, c, funded).Some?
    ensures s.(rows := Complete(s.rows, c, funded).value, charged := s.charged[c.job := c.reservation])
         == Finished(s, c)
  {
    assert s.rows.holds[c.reservation] == Captured ==> s.rows.holds[c.reservation := Captured] == s.rows.holds;
  }

  lemma CompleteAccounts(s: State, w: nat, funded: bool, o: Options)
    requires Accounted(s) && w in s.claims
    ensures Accounted(Next(s, DoComplete(w, funded), o))
  {
    var c := s.claims[w];
    CompletedState(s, w, funded, o);
    if Complete(s.rows, c, funded).Some? {
      if IsRunning(s.rows, c.job) {
        FinishedAccounts(s, c);
        FinishedRows(s, c, funded);
        DropClaim(Finished(s, c), w);
      } else {
        DropClaim(s, w);
      }
    }
  }

  lemma FinalizedIsAttached(s: State, c: Claim)
    requires Accounted(s) && c.reservation in s.owner && s.owner[c.reservation] == c.job
    ensures Attached(s.(rows := FinalizeFailure(s.rows, c))) && TicketsApart(s.(rows := FinalizeFailure(s.rows, c)))
  {
  }

  lemma FinalizedIsCharged(s: State, c: Claim)
    requires Accounted(s) && c.reservation in s.owner && s.owner[c.reservation] == c.job
    ensures Charged(s.(rows := FinalizeFailure(s.rows, c))) && Replied(s.(rows := FinalizeFailure(s.rows, c)))
  {
    SameReplies(s, s.(rows := FinalizeFailure(s.rows, c)));
  }

  lemma FinalizeRows(s: State, c: Claim)
    requires Accounted(s) && c.reservation in s.owner && s.owner[c.reservation] == c.job
    ensures Accounted(s.(rows := FinalizeFailure(s.rows, c)))
  {
    FinalizedIsAttached(s, c);
    FinalizedIsCharged(s, c);
  }

  lemma FinalizeAccounts(s: State, w: nat)
    requires Accounted(s) && w in s.claims
    ensures Accounted(s.(rows := FinalizeFailure(s.rows, s.claims[w]), claims := s.claims - {w}))
  {
    FinalizeRows(s, s.claims[w]);
    DropClaim(s.(rows := FinalizeFailure(s.rows, s.claims[w])), w);
  }

  /** A job that is put back, with the same reservation and not completed. */
  lemma PutBackAccounts(s: State, j: nat, job: Job, rows: Rows)
    requires Accounted(s) && IsRunning(s.rows, j)
    requires job.status == Queued && job.reservation == s.rows.jobs[j].reservation
    requires rows == s.rows.(jobs := s.rows.jobs[j := job])
    ensures Accounted(s.(rows := rows))
  {
    SameReplies(s, s.(rows := rows));
  }

  lemma HandledAccounts(s: State, c: Claim, now: int, o: Options, retryable: bool)
    requires Accounted(s) && c.reservation in s.owner && s.owner[c.reservation] == c.job
    ensures Accounted(s.(rows := HandleFailure(s.rows, c, now, o, retryable)))
  {
    var rows := HandleFailure(s.rows, c, now, o, retryable);
    if GivesUp(c, now, o, retryable) {
      FinalizeRows(s, c);
    } else if IsRunning(s.rows, c.job) {
      PutBackAccounts(s, c.job, rows.jobs[c.job], rows);
    }
  }

  lemma FailAccounts(s: State, w: nat, retryable: bool, o: Options)
    requires Accounted(s) && w in s.claims
    ensures Accounted(Next(s, DoFail(w, retryable), o))
  {
    var t := s.(rows := HandleFailure(s.rows, s.claims[w], s.now, o, retryable));
    HandledAccounts(s, s.claims[w], s.now, o, retryable);
    DropClaim(t, w);
    assert Next(s, DoFail(w, retryable), o) == t.(claims := t.claims - {w});
  }

  /** A request that has reserved its credits. */
  function Requested(s: State, ticket: nat, kind: Ticket): State {
    s.(rows := s.rows.(holds := s.rows.holds[kind.reference := Reserved]), tickets := s.tickets[ticket := kind])
  }

  lemma RequestedIsAttached(s: State, ticket: nat, kind: Ticket)
    requires Accounted(s) && ticket !in s.tickets && kind.reference !in s.rows.holds
    ensures Attached(Requested(s, ticket, kind)) && TicketsApart(Requested(s, ticket, kind))
  {
  }

  lemma RequestedIsCharged(s: State, ticket: nat, kind: Ticket)
    requires Accounted(s) && kind.reference !in s.rows.holds
    ensures Charged(Requested(s, ticket, kind)) && Replied(Requested(s, ticket, kind))
  {
    SameReplies(s, Requested(s, ticket, kind));
  }

  lemma ReserveAccounts(s: State, ticket: nat, kind: Ticket)
    requires Accounted(s) && ticket !in s.tickets && kind.reference !in s.rows.holds
    ensures Accounted(Requested(s, ticket, kind))
  {
    RequestedIsAttached(s, ticket, kind);
    RequestedIsCharged(s, ticket, kind);
  }

  lemma SavedIsAttached(s: State, ticket: nat, j: nat, conversation: nat, turn: nat, o: Options)
    requires Accounted(s) && Enabled(s, DoSendSave(ticket, j, conversation, turn))
    ensures Attached(Next(s, DoSendSave(ticket, j, conversation, turn), o))
  {
  }

  lemma SavedIsApart(s: State, ticket: nat, j: nat, conversation: nat, turn: nat, o: Options)
    requires TicketsApart(s) && Enabled(s, DoSendSave(ticket, j, conversation, turn))
    ensures TicketsApart(Next(s, DoSendSave(ticket, j, conversation, turn), o))
  {
  }

  lemma SavedIsCharged(s: State, ticket: nat, j: nat, conversation: nat, turn: nat, o: Options)
    requires Accounted(s) && Enabled(s, DoSendSave(ticket, j, conversation, turn))
    ensures Charged(Next(s, DoSendSave(ticket, j, conversation, turn), o))
  {
  }

  lemma SaveAccounts(s: State, ticket: nat, j: nat, conversation: nat, turn: nat, o: Options)
    requires Accounted(s) && Enabled(s, DoSendSave(ticket, j, conversation, turn))
    ensures Accounted(Next(s, DoSendSave(ticket, j, conversation, turn), o))
  {
    var t := Next(s, DoSendSave(ticket, j, conversation, turn), o);
    SavedIsAttached(s, ticket, j, conversation, turn, o);
    SavedIsApart(s, ticket, j, conversation, turn, o);
    SavedIsCharged(s, ticket, j, conversation, turn, o);
    forall k: nat
      ensures Replies(t.rows.messages, k) == if IsCompleted(t, k) then 1 else 0
    {
      assert Replies(s.rows.messages, k) == if IsCompleted(s, k) then 1 else 0;
      RepliesAppended(s.rows.messages, Message(j, true), k);
    }
  }

  lemma DropTicket(s: State, ticket: nat)
    requires Accounted(s)
    ensures Accounted(s.(tickets := s.tickets - {ticket}))
  {
    SameReplies(s, s.(tickets := s.tickets - {ticket}));
  }

  ghost predicate CanReopen(s: State, j: nat, job: Job) {
    && j in s.rows.jobs && s.rows.jobs[j].status == Failed && job.status == Queued
    && job.reservation in s.rows.holds && s.rows.holds[job.reservation] == Reserved
    && job.reservation !in s.owner
    && forall t | t in s.tickets :: s.tickets[t].reference != job.reservation
  }

  /** A failed job that is reopened under a reserved reservation of its own. */
  function Reopened(s: State, j: nat, job: Job): State {
    s.(rows := s.rows.(jobs := s.rows.jobs[j := job]), owner := s.owner[job.reservation := j])
  }

  lemma ReopenedIsAttached(s: State, j: nat, job: Job)
    requires Accounted(s) && CanReopen(s, j, job)
    ensures Attached(Reopened(s, j, job)) && TicketsApart(Reopened(s, j, job))
  {
  }

  lemma ReopenedIsCharged(s: State, j: nat, job: Job)
    requires Accounted(s) && CanReopen(s, j, job)
    ensures Charged(Reopened(s, j, job)) && Replied(Reopened(s, j, job))
  {
    SameReplies(s, Reopened(s, j, job));
  }

  lemma RefuseAccounts(s: State, ticket: nat)
    requires Accounted(s) && ticket in s.tickets
    ensures Accounted(s.(tickets := s.tickets[ticket := Refused(s.tickets[ticket].reference)]))
  {
    SameReplies(s, s.(tickets := s.tickets[ticket := Refused(s.tickets[ticket].reference)]));
  }

  lemma RequeueAccounts(s: State, ticket: nat, o: Options)
    requires Accounted(s) && Enabled(s, DoRetryRequeue(ticket))
    ensures Accounted(Next(s, DoRetryRequeue(ticket), o))
  {
    var request := s.tickets[ticket];
    var rows := Requeue(s.rows, request.job, request.reference, s.now);
    if rows.Some? {
      var t := s.(tickets := s.tickets - {ticket});
      DropTicket(s, ticket);
      ReopenedIsAttached(t, request.job, rows.value.jobs[request.job]);
      ReopenedIsCharged(t, request.job, rows.value.jobs[request.job]);
    } else {
      RefuseAccounts(s, ticket);
    }
  }

  lemma ReleaseAccounts(s: State, ticket: nat, o: Options)
    requires Accounted(s) && Enabled(s, DoRelease(ticket))
    ensures Accounted(Next(s, DoRelease(ticket), o))
  {
    SameReplies(s, Next(s, DoRelease(ticket), o));
  }

  lemma QuietAccounts(s: State, step: Step, o: Options)
    requires Accounted(s) && Enabled(s, step)
    requires step.DoCrash? || step.DoAbandon? || step.DoTick?
    ensures Accounted(Next(s, step, o))
  {
    SameReplies(s, Next(s, step, o));
  }

  lemma StepAccounts(s: State, step: Step, o: Options)
    requires Accounted(s) && Enabled(s, step)
    ensures Accounted(Next(s, step, o))
  {
    match step
    case DoClaim(w, j) => ClaimAccounts(s, w, j, o);
    case DoComplete(w, funded) => CompleteAccounts(s, w, funded, o);
    case DoFail(w, retryable) => FailAccounts(s, w, retryable, o);
    case DoDeadline(w) => FinalizeAccounts(s, w);
    case DoSendReserve(t, r) => ReserveAccounts(s, t, Sending(r));
    case DoSendSave(t, j, conversation, turn) => SaveAccounts(s, t, j, conversation, turn, o);
    case DoRetryReserve(t, j, r) => ReserveAccounts(s, t, Retrying(j, r));
    case DoRetryRequeue(t) => RequeueAccounts(s, t, o);
    case DoRelease(t) => ReleaseAccounts(s, t, o);
    case _ => QuietAccounts(s, step, o);
  }

  lemma {:induction false} AccountedOverRuns(s: State, steps: seq<Step>, o: Options, z: State)
    requires Accounted(s) && Run(s, steps, o, z)
    ensures Accounted(z)
    decreases |steps|
  {
    if steps != [] {
      StepAccounts(s, steps[0], o);
      AccountedOverRuns(Next(s, steps[0], o), steps[1..], o, z);
    }
  }

  /** In every reachable state, workers that come back late included, every job is accounted exactly once. */
  lemma ExactlyOnceAlways(steps: seq<Step>, o: Options, z: State, j: nat)
    requires Run(START, steps, o, z)
    ensures ExactlyOnce(z, j)
  {
    AccountedOverRuns(START, steps, o, z);
    AccountedMeans(z, j);
  }

  // ----- one live job per conversation

  ghost predicate Serial(s: State) {
    forall j, k | j in s.rows.jobs && k in s.rows.jobs && j != k ::
      !(s.rows.jobs[j].conversation == s.rows.jobs[k].conversation
        && Live(s.rows.jobs[j], s.now) && Live(s.rows.jobs[k], s.now))
  }

  /** Only a claim makes a job live; every other step leaves live only what was. */
  lemma LiveBefore(s: State, step: Step, o: Options, j: nat)
    requires Enabled(s, step) && !step.DoClaim?
    requires j in Next(s, step, o).rows.jobs && Live(Next(s, step, o).rows.jobs[j], Next(s, step, o).now)
    ensures j in s.rows.jobs && Live(s.rows.jobs[j], s.now)
    ensures s.rows.jobs[j].conversation == Next(s, step, o).rows.jobs[j].conversation
  {
  }

  lemma ClaimKeepsSerial(s: State, w: nat, j: nat, o: Options)
    requires Serial(s) && w !in s.claims
    ensures Serial(Next(s, DoClaim(w, j), o))
  {
  }

  lemma StepKeepsSerial(s: State, step: Step, o: Options, t: State)
    requires Serial(s) && Enabled(s, step)
    requires t == Next(s, step, o)
    ensures Serial(t)
  {
    if step.DoClaim? {
      ClaimKeepsSerial(s, step.worker, step.job, o);
    } else {
      forall j, k | j in t.rows.jobs && k in t.rows.jobs && j != k
                    && Live(t.rows.jobs[j], t.now) && Live(t.rows.jobs[k], t.now)
        ensures t.rows.jobs[j].conversation != t.rows.jobs[k].conversation
      {
        LiveBefore(s, step, o, j);
        LiveBefore(s, step, o, k);
      }
    }
  }

  /** At most one job of a conversation runs under a live lease, whatever the workers do. */
  lemma {:induction false} SerialOverRuns(s: State, steps: seq<Step>, o: Options, z: State)
    requires Serial(s) && Run(s, steps, o, z)
    ensures Serial(z)
    decreases |steps|
  {
    if steps != [] {
      StepKeepsSerial(s, steps[0], o, Next(s, steps[0], o));
      SerialOverRuns(Next(s, steps[0], o), steps[1..], o, z);
    }
  }

  // ----- current reservations

  function HoldFor(status: JobStatus): Hold {
    match status
    case Queued => Reserved
    case Running => Reserved
    case Completed => Captured
    case Failed => Released
  }

  /** Open jobs hold a reserved reservation, completed ones a captured one, failed ones a released one. */
  ghost predicate HoldsFollow(s: State) {
    forall j | j in s.rows.jobs ::
      && s.rows.jobs[j].reservation in s.rows.holds
      && s.rows.holds[s.rows.jobs[j].reservation] == HoldFor(s.rows.jobs[j].status)
  }

  /** The reservations that a job had before its current one are all released. */
  ghost predicate EarlierReleased(s: State) {
    forall r | r in s.owner && s.owner[r] in s.rows.jobs && s.rows.jobs[s.owner[r]].reservation != r ::
      r in s.rows.holds && s.rows.holds[r] == Released
  }

  ghost predicate Followed(s: State) {
    Accounted(s) && HoldsFollow(s) && EarlierReleased(s)
  }

  /** The claim is of an earlier round: its job is running again, under another reservation. */
  predicate Outdated(s: State, c: Claim) {
    IsRunning(s.rows, c.job) && s.rows.jobs[c.job].reservation != c.reservation
  }

  /** A worker gives up a job that has been retried since it was claimed. */
  predicate Strands(s: State, step: Step, o: Options) {
    match step
    case DoFail(w, retryable) =>
      w in s.claims && GivesUp(s.claims[w], s.now, o, retryable) && Outdated(s, s.claims[w])
    case DoDeadline(w) => w in s.claims && Outdated(s, s.claims[w])
    case _ => false
  }

  /** Another job's reservations are not touched by this claim's. */
  lemma ClaimKeepsOthers(s: State, c: Claim, j: nat)
    requires Attached(s) && j in s.rows.jobs && j != c.job
    requires c.reservation in s.owner && s.owner[c.reservation] == c.job
    ensures s.rows.jobs[j].reservation != c.reservation
  {
  }

  /** A late completion throws: the reservation it would capture is released. */
  lemma OutdatedCannotComplete(s: State, c: Claim, funded: bool)
    requires Followed(s) && Outdated(s, c)
    requires c.reservation in s.owner && s.owner[c.reservation] == c.job
    ensures Complete(s.rows, c, funded).None?
  {
  }

  lemma FinishedFollows(s: State, c: Claim)
    requires Followed(s) && IsRunning(s.rows, c.job) && s.rows.jobs[c.job].reservation == c.reservation
    ensures HoldsFollow(Finished(s, c)) && EarlierReleased(Finished(s, c))
  {
  }

  lemma CompleteFollows(s: State, w: nat, funded: bool, o: Options)
    requires Followed(s) && w in s.claims
    ensures HoldsFollow(Next(s, DoComplete(w, funded), o)) && EarlierReleased(Next(s, DoComplete(w, funded), o))
  {
    var c := s.claims[w];
    CompletedState(s, w, funded, o);
    if Outdated(s, c) {
      OutdatedCannotComplete(s, c, funded);
    } else if Complete(s.rows, c, funded).Some? && IsRunning(s.rows, c.job) {
      FinishedFollows(s, c);
      FinishedRows(s, c, funded);
    }
  }

  /** Failing a job for good leaves the reservations in step exactly when the claim is of the current round. */
  lemma FinalizedFollows(s: State, c: Claim)
    requires Followed(s) && c.reservation in s.owner && s.owner[c.reservation] == c.job
    ensures HoldsFollow(s.(rows := FinalizeFailure(s.rows, c))) <==> !Outdated(s, c)
    ensures EarlierReleased(s.(rows := FinalizeFailure(s.rows, c)))
  {
    var t := s.(rows := FinalizeFailure(s.rows, c));
    if Outdated(s, c) {
      assert t.rows.holds[t.rows.jobs[c.job].reservation] == Reserved;
    } else {
      forall j | j in s.rows.jobs && j != c.job ensures s.rows.jobs[j].reservation != c.reservation {
        ClaimKeepsOthers(s, c, j);
      }
    }
  }

  /** A job that is put back keeps its reservation, which stays reserved. */
  lemma PutBackFollows(s: State, j: nat, job: Job)
    requires Followed(s) && IsRunning(s.rows, j)
    requires job.status == Queued && job.reservation == s.rows.jobs[j].reservation
    ensures var t := s.(rows := s.rows.(jobs := s.rows.jobs[j := job])); HoldsFollow(t) && EarlierReleased(t)
  {
  }

  lemma HandledFollows(s: State, c: Claim, o: Options, retryable: bool)
    requires Followed(s) && c.reservation in s.owner && s.owner[c.reservation] == c.job
    ensures var t := s.(rows := HandleFailure(s.rows, c, s.now, o, retryable));
            && EarlierReleased(t)
            && (HoldsFollow(t) <==> !(GivesUp(c, s.now, o, retryable) && Outdated(s, c)))
  {
    var rows := HandleFailure(s.rows, c, s.now, o, retryable);
    if GivesUp(c, s.now, o, retryable) {
      FinalizedFollows(s, c);
    } else if IsRunning(s.rows, c.job) {
      PutBackFollows(s, c.job, rows.jobs[c.job]);
    }
  }

  /** Dropping a claim touches neither jobs nor reservations. */
  lemma DropKeepsFollowing(s: State, claims: map<nat, Claim>)
    ensures HoldsFollow(s.(claims := claims)) <==> HoldsFollow(s)
    ensures EarlierReleased(s.(claims := claims)) <==> EarlierReleased(s)
  {
  }

  lemma FailFollows(s: State, w: nat, retryable: bool, o: Options)
    requires Followed(s) && w in s.claims
    ensures var t := Next(s, DoFail(w, retryable), o);
            && EarlierReleased(t)
            && (HoldsFollow(t) <==> !(GivesUp(s.claims[w], s.now, o, retryable) && Outdated(s, s.claims[w])))
  {
    HandledFollows(s, s.claims[w], o, retryable);
    DropKeepsFollowing(s.(rows := HandleFailure(s.rows, s.claims[w], s.now, o, retryable)), s.claims - {w});
  }

  lemma ClaimFollows(s: State, w: nat, j: nat, o: Options)
    requires Followed(s) && w !in s.claims
    ensures HoldsFollow(Next(s, DoClaim(w, j), o)) && EarlierReleased(Next(s, DoClaim(w, j), o))
  {
  }

  lemma ReserveFollows(s: State, ticket: nat, kind: Ticket)
    requires Followed(s) && kind.reference !in s.rows.holds
    ensures HoldsFollow(Requested(s, ticket, kind)) && EarlierReleased(Requested(s, ticket, kind))
  {
  }

  lemma SaveFollows(s: State, step: Step, o: Options)
    requires Followed(s) && Enabled(s, step) && step.DoSendSave?
    ensures HoldsFollow(Next(s, step, o)) && EarlierReleased(Next(s, step, o))
  {
  }

  /** A reopened job leaves a released reservation behind. */
  lemma ReopenedFollows(s: State, j: nat, job: Job)
    requires Followed(s) && CanReopen(s, j, job)
    ensures HoldsFollow(Reopened(s, j, job)) && EarlierReleased(Reopened(s, j, job))
  {
  }

  lemma RequeueFollows(s: State, ticket: nat, o: Options)
    requires Followed(s) && Enabled(s, DoRetryRequeue(ticket))
    ensures HoldsFollow(Next(s, DoRetryRequeue(ticket), o)) && EarlierReleased(Next(s, DoRetryRequeue(ticket), o))
  {
    var request := s.tickets[ticket];
    var rows := Requeue(s.rows, request.job, request.reference, s.now);
    if rows.Some? {
      DropTicket(s, ticket);
      ReopenedFollows(s.(tickets := s.tickets - {ticket}), request.job, rows.value.jobs[request.job]);
    }
  }

  lemma ReleaseFollows(s: State, ticket: nat, o: Options)
    requires Followed(s) && Enabled(s, DoRelease(ticket))
    ensures HoldsFollow(Next(s, DoRelease(ticket), o)) && EarlierReleased(Next(s, DoRelease(ticket), o))
  {
  }

  /** The exact condition, for every step and without any assumption on the workers: current reservations stay in step
      with their jobs unless a worker gives up a job that has been retried since it was claimed. */
  lemma StepFollowsExactly(s: State, step: Step, o: Options)
    requires Followed(s) && Enabled(s, step)
    ensures HoldsFollow(Next(s, step, o)) <==> !Strands(s, step, o)
    ensures EarlierReleased(Next(s, step, o))
  {
    match step
    case DoClaim(w, j) => ClaimFollows(s, w, j, o);
    case DoComplete(w, funded) => CompleteFollows(s, w, funded, o);
    case DoFail(w, retryable) => FailFollows(s, w, retryable, o);
    case DoDeadline(w) => FinalizedFollows(s, s.claims[w]);
    case DoRelease(t) => ReleaseFollows(s, t, o);
    case DoSendReserve(t, r) => ReserveFollows(s, t, Sending(r));
    case DoRetryReserve(t, j, r) => ReserveFollows(s, t, Retrying(j, r));
    case DoSendSave(_, _, _, _) => SaveFollows(s, step, o);
    case DoRetryRequeue(t) => RequeueFollows(s, t, o);
    case _ =>
  }

  /** In every state of the run the current reservations are in step with their jobs. */
  ghost predicate AlwaysFollows(s: State, steps: seq<Step>, o: Options)
    decreases |steps|
  {
    HoldsFollow(s) && (steps != [] ==> Enabled(s, steps[0]) && AlwaysFollows(Next(s, steps[0], o), steps[1..], o))
  }

  predicate NeverStrands(s: State, steps: seq<Step>, o: Options)
    decreases |steps|
  {
    steps != [] ==>
      && Enabled(s, steps[0]) && !Strands(s, steps[0], o)
      && NeverStrands(Next(s, steps[0], o), steps[1..], o)
  }

  lemma {:induction false} FollowsOverRuns(s: State, steps: seq<Step>, o: Options, z: State)
    requires Followed(s) && Run(s, steps, o, z)
    ensures AlwaysFollows(s, steps, o) <==> NeverStrands(s, steps, o)
    ensures NeverStrands(s, steps, o) ==> Followed(z)
    decreases |steps|
  {
    if steps != [] {
      StepAccounts(s, steps[0], o);
      StepFollowsExactly(s, steps[0], o);
      if !Strands(s, steps[0], o) {
        FollowsOverRuns(Next(s, steps[0], o), steps[1..], o, z);
      }
    }
  }

  /** Over every run from the empty tables, with workers as late as they like: in all its states a job's current
      reservation is reserved while it is open, captured once it is completed and released once it has failed, if and
      only if no worker ever gives up a job that has been retried since it was claimed. */
  lemma HoldsFollowExactly(steps: seq<Step>, o: Options, z: State)
    requires Run(START, steps, o, z)
    ensures AlwaysFollows(START, steps, o) <==> NeverStrands(START, steps, o)
  {
    FollowsOverRuns(START, steps, o, z);
  }

  // ----- punctual workers

  /** A claim whose lease has not expired still describes its job, and no other live claim does. */
  ghost predicate LiveClaims(s: State) {
    && (forall w | w in s.claims && s.now < s.claims[w].lease ::
          && IsRunning(s.rows, s.claims[w].job)
          && s.rows.jobs[s.claims[w].job].lease == Some(s.claims[w].lease)
          && s.rows.jobs[s.claims[w].job].reservation == s.claims[w].reservation)
    && (forall v, w | v in s.claims && w in s.claims && v != w
                      && s.now < s.claims[v].lease && s.now < s.claims[w].lease ::
          s.claims[v].job != s.claims[w].job)
  }

  lemma WorkerKeepsLive(s: State, step: Step, o: Options)
    requires Attached(s) && LiveClaims(s) && Enabled(s, step) && OnTime(s, step)
    requires step.DoComplete? || step.DoFail? || step.DoDeadline?
    ensures LiveClaims(Next(s, step, o))
  {
  }

  lemma ClaimKeepsLive(s: State, w: nat, j: nat, o: Options)
    requires LiveClaims(s) && w !in s.claims
    ensures LiveClaims(Next(s, DoClaim(w, j), o))
  {
  }

  lemma OthersKeepLive(s: State, step: Step, o: Options)
    requires LiveClaims(s) && Enabled(s, step)
    requires !step.DoClaim? && !step.DoComplete? && !step.DoFail? && !step.DoDeadline?
    ensures LiveClaims(Next(s, step, o))
  {
  }

  lemma StepKeepsLive(s: State, step: Step, o: Options)
    requires Attached(s) && LiveClaims(s) && Enabled(s, step) && OnTime(s, step)
    ensures LiveClaims(Next(s, step, o)) && !Strands(s, step, o)
  {
    match step
    case DoClaim(w, j) => ClaimKeepsLive(s, w, j, o);
    case DoComplete(_, _) => WorkerKeepsLive(s, step, o);
    case DoFail(_, _) => WorkerKeepsLive(s, step, o);
    case DoDeadline(_) => WorkerKeepsLive(s, step, o);
    case _ => OthersKeepLive(s, step, o);
  }

  lemma {:induction false} PunctualNeverStrands(s: State, steps: seq<Step>, o: Options, z: State)
    requires Accounted(s) && LiveClaims(s) && PunctualRun(s, steps, o, z)
    ensures NeverStrands(s, steps, o) && Run(s, steps, o, z)
    decreases |steps|
  {
    if steps != [] {
      StepAccounts(s, steps[0], o);
      StepKeepsLive(s, steps[0], o);
      PunctualNeverStrands(Next(s, steps[0], o), steps[1..], o, z);
    }
  }

  /** Workers that act before their lease expires or never strand no reservation, so in every reachable state a job's
      current reservation is reserved while it is open, captured once it is completed, and released once it has
      failed. */
  lemma HoldsFollowAlways(steps: seq<Step>, o: Options, z: State, j: nat)
    requires PunctualRun(START, steps, o, z)
    requires j in z.rows.jobs
    ensures NeverStrands(START, steps, o)
    ensures z.rows.jobs[j].reservation in z.rows.holds
    ensures z.rows.holds[z.rows.jobs[j].reservation] == HoldFor(z.rows.jobs[j].status)
  {
    PunctualNeverStrands(START, steps, o, z);
    FollowsOverRuns(START, steps, o, z);
  }

  // ----- a run that strands a reservation

  lemma {:induction false} RunOneMore(s: State, steps: seq<Step>, o: Options, z: State, step: Step)
    requires Run(s, steps, o, z) && Enabled(z, step)
    ensures Run(s, steps + [step], o, Next(z, step, o))
    decreases |steps|
  {
    if steps == [] {
      assert (steps + [step])[1..] == [];
    } else {
      RunOneMore(Next(s, steps[0], o), steps[1..], o, z, step);
      assert (steps + [step])[1..] == steps[1..] + [step];
    }
  }

  lemma Reach(steps: seq<Step>, o: Options, z: State, step: Step) returns (longer: seq<Step>, next: State)
    requires Run(START, steps, o, z) && Enabled(z, step)
    ensures longer == steps + [step] && next == Next(z, step, o) && Run(START, longer, o, next)
  {
    RunOneMore(START, steps, o, z, step);
    longer, next := steps + [step], Next(z, step, o);
  }

  /** A message is sent and a first worker claims its job. */
  lemma FirstClaim(o: Options) returns (steps: seq<Step>, z: State)
    requires o == Options(3, 100, 10, 5)
    ensures Run(START, steps, o, z)
    ensures z.now == 0 && z.claims == map[0 := Claim(0, 1, 100, 0, 10)] && z.tickets == map[]
    ensures z.rows.jobs == map[0 := Job(7, 7, Running, 0, 0, 1, Some(10), Some(0), Some(100))]
    ensures z.rows.holds == map[0 := Reserved]
  {
    steps, z := Reach([], o, START, DoSendReserve(0, 0));
    steps, z := Reach(steps, o, z, DoSendSave(0, 0, 7, 7));
    assert z.rows.jobs == map[0 := NewJob(7, 7, 0, 0)];
    steps, z := Reach(steps, o, z, DoClaim(0, 0));
  }

  /** It loses its lease; another worker claims the job and fails it. */
  lemma LeaseLost(o: Options) returns (steps: seq<Step>, z: State)
    requires o == Options(3, 100, 10, 5)
    ensures Run(START, steps, o, z)
    ensures 0 in z.rows.jobs && z.rows.jobs[0].status == Failed && z.rows.jobs == map[0 := z.rows.jobs[0]]
    ensures 1 !in z.rows.holds && z.tickets == map[]
    ensures 0 in z.claims && z.claims[0] == Claim(0, 1, 100, 0, 10) && 2 !in z.claims && z.now == 10
  {
    steps, z := FirstClaim(o);
    steps, z := Reach(steps, o, z, DoTick(10));
    steps, z := Reach(steps, o, z, DoClaim(1, 0));
    steps, z := Reach(steps, o, z, DoFail(1, false));
  }

  /** The user retries: the job is queued again under a second reservation. */
  lemma Retried(o: Options) returns (steps: seq<Step>, z: State)
    requires o == Options(3, 100, 10, 5)
    ensures Run(START, steps, o, z)
    ensures 0 in z.rows.jobs && z.rows.jobs == map[0 := z.rows.jobs[0]]
    ensures z.rows.jobs[0].status == Queued && z.rows.jobs[0].readyAt <= z.now && z.rows.jobs[0].reservation == 1
    ensures 1 in z.rows.holds && z.rows.holds[1] == Reserved
    ensures 0 in z.claims && z.claims[0] == Claim(0, 1, 100, 0, 10) && 2 !in z.claims
  {
    steps, z := LeaseLost(o);
    steps, z := Reach(steps, o, z, DoRetryReserve(0, 0, 1));
    steps, z := Reach(steps, o, z, DoRetryRequeue(0));
  }

  /** The user retries, a third worker starts on the job, and the first one comes back and fails it again: the retry's
      reservation stays reserved. */
  lemma LateWorkerStrandsReservation()
    ensures exists steps: seq<Step>, o: Options, z: State ::
              && Run(START, steps, o, z)
              && 0 in z.rows.jobs && z.rows.jobs[0].status == Failed
              && z.rows.jobs[0].reservation in z.rows.holds
              && z.rows.holds[z.rows.jobs[0].reservation] == Reserved
  {
    var o := Options(3, 100, 10, 5);
    var steps, z := Retried(o);
    steps, z := Reach(steps, o, z, DoClaim(2, 0));
    steps, z := Reach(steps, o, z, DoFail(0, false));
  }
}
