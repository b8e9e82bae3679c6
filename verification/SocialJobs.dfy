/** Social activity jobs: a lease queue fenced by tokens, whose effects commit together with the job. */
module SocialJobs {
  import opened Prelude
  import opened SocialTables
  import opened SocialActivity
  import FollowScan

  /** What a worker was handed when it claimed a job. */
  datatype Claim = Claim(job: nat, character: nat, token: nat, attempts: nat)

  // ----- transactions

  predicate Active(job: Job) {
    job.status == Queued || job.status == Running
  }

  /** The unique indexes let the job in: no other of the character at that time, and none that is active. */
  predicate Admits(jobs: map<nat, Job>, character: nat, at: int) {
    forall j | j in jobs && jobs[j].character == character :: jobs[j].scheduledAt != at && !Active(jobs[j])
  }

  function NewJob(character: nat, at: int): Job {
    Job(character, at, at, Queued, 0, None, None, None)
  }

  function Insert(r: Rows, character: nat, now: int): Rows {
    if !Admits(r.jobs, character, now) then r
    else r.(jobs := r.jobs[r.next := NewJob(character, now)], next := r.next + 1)
  }

  predicate Due(r: Rows, character: nat, now: int) {
    character in r.policies && r.policies[character].policy.enabled && r.policies[character].nextAt <= now
  }

  /** Scheduling one character: a due policy moves on, and a job is opened when the character can act. */
  function ScheduleDue(r: Rows, character: nat, now: int, context: Option<Context>): Rows {
    if !Due(r, character, now) then r
    else
      var row := r.policies[character];
      var moved := r.(policies := r.policies[character := row.(nextAt := now + row.policy.intervalMs)]);
      if CanAct(Some(row.policy), context) then Insert(moved, character, now) else moved
  }

  /** One pass over the due characters, each in its own transaction. */
  function ScheduleAll(r: Rows, characters: seq<nat>, now: int, contexts: map<nat, Context>): Rows {
    if characters == [] then r
    else
      var n := |characters| - 1;
      var before := ScheduleAll(r, characters[..n], now, contexts);
      ScheduleDue(before, characters[n], now, ContextOf(contexts, characters[n]))
  }

  function ContextOf(contexts: map<nat, Context>, character: nat): Option<Context> {
    if character in contexts then Some(contexts[character]) else None
  }

  predicate Eligible(job: Job, now: int) {
    || (job.status == Queued && job.nextAttemptAt <= now)
    || (job.status == Running && job.lease.Some? && job.lease.value <= now)
  }

  function Exhausted(job: Job, now: int): Job {
    job.(status := Failed, token := None, lease := None, finishedAt := Some(now))
  }

  function Leased(job: Job, token: nat, now: int, o: Options): Job {
    job.(status := Running, attempts := job.attempts + 1, token := Some(token), lease := Some(now + o.leaseMs))
  }

  /** One candidate of a claim: leased under a fresh token, or failed when its attempts are used up. */
  function TryClaim(r: Rows, j: nat, token: nat, now: int, o: Options): (Rows, Option<Claim>) {
    if j !in r.jobs || !Eligible(r.jobs[j], now) then (r, None)
    else if r.jobs[j].attempts >= o.maxAttempts then (r.(jobs := r.jobs[j := Exhausted(r.jobs[j], now)]), None)
    else (r.(jobs := r.jobs[j := Leased(r.jobs[j], token, now, o)]),
          Some(Claim(j, r.jobs[j].character, token, r.jobs[j].attempts + 1)))
  }

  /** The claim loop: the candidates in turn, each read with the clock of its own transaction, until one is leased. */
  function ClaimFirst(r: Rows, candidates: seq<nat>, clocks: seq<int>, token: nat, o: Options): (Rows, Option<Claim>)
    requires |clocks| == |candidates|
    decreases candidates
  {
    if candidates == [] then (r, None)
    else
      var (rows, claim) := TryClaim(r, candidates[0], token, clocks[0], o);
      if claim.Some? then (rows, claim) else ClaimFirst(rows, candidates[1..], clocks[1..], token, o)
  }

  predicate Claimable(r: Rows, j: nat, now: int, o: Options) {
    j in r.jobs && Eligible(r.jobs[j], now) && r.jobs[j].attempts < o.maxAttempts
  }

  ghost predicate NoneBefore(r: Rows, candidates: seq<nat>, clocks: seq<int>, o: Options, i: nat)
    requires |clocks| == |candidates| && i <= |candidates|
  {
    forall k | 0 <= k < i :: !Claimable(r, candidates[k], clocks[k], o)
  }

  lemma PassedOver(r: Rows, j: nat, token: nat, now: int, o: Options, k: nat, at: int)
    requires TryClaim(r, j, token, now, o).1.None?
    ensures !Claimable(r, j, now, o)
    ensures Claimable(TryClaim(r, j, token, now, o).0, k, at, o) == Claimable(r, k, at, o)
    ensures Claimable(r, k, at, o) ==> TryClaim(r, j, token, now, o).0.jobs[k] == r.jobs[k]
  {
  }

  /** The candidate claimed is the first that is eligible and has an attempt left; nothing is claimed only when there
      is none. */
  lemma {:induction false} ClaimsTheFirst(r: Rows, candidates: seq<nat>, clocks: seq<int>, token: nat, o: Options)
    returns (i: nat)
    requires |clocks| == |candidates|
    ensures i <= |candidates| && NoneBefore(r, candidates, clocks, o, i)
    ensures i < |candidates| ==> Claimable(r, candidates[i], clocks[i], o)
    ensures ClaimFirst(r, candidates, clocks, token, o).1 ==
            if i == |candidates| then None
            else Some(Claim(candidates[i], r.jobs[candidates[i]].character, token, r.jobs[candidates[i]].attempts + 1))
    decreases candidates
  {
    i := 0;
    if candidates != [] && !Claimable(r, candidates[0], clocks[0], o) {
      var rows := TryClaim(r, candidates[0], token, clocks[0], o).0;
      var later := ClaimsTheFirst(rows, candidates[1..], clocks[1..], token, o);
      i := later + 1;
      forall k, at ensures Claimable(rows, k, at, o) == Claimable(r, k, at, o)
                   ensures Claimable(r, k, at, o) ==> rows.jobs[k] == r.jobs[k] {
        PassedOver(r, candidates[0], token, clocks[0], o, k, at);
      }
      forall k | 0 <= k < i ensures !Claimable(r, candidates[k], clocks[k], o) {
        if k > 0 {
          assert candidates[1..][k - 1] == candidates[k] && clocks[1..][k - 1] == clocks[k];
        }
      }
    }
  }

  /** The guard of every write of a worker: its token is on the job and the lease has not expired. */
  predicate Holds(jobs: map<nat, Job>, c: Claim, now: int) {
    && c.job in jobs
    && jobs[c.job].status == Running
    && jobs[c.job].token == Some(c.token)
    && jobs[c.job].lease.Some? && jobs[c.job].lease.value > now
  }

  predicate HasLiveLease(jobs: map<nat, Job>, c: Claim, now: int) {
    Holds(jobs, c, now) && jobs[c.job].character == c.character
  }

  function Finished(job: Job, now: int, status: JobStatus): Job {
    job.(status := status, token := None, lease := None, finishedAt := Some(now))
  }

  function Finish(r: Rows, c: Claim, now: int, status: JobStatus): Option<Rows> {
    if Holds(r.jobs, c, now) then Some(r.(jobs := r.jobs[c.job := Finished(r.jobs[c.job], now, status)])) else None
  }

  function Retried(job: Job, now: int, o: Options): Job {
    job.(status := Queued, token := None, lease := None, nextAttemptAt := now + o.backoffMs, finishedAt := None)
  }

  function GivenUp(job: Job, now: int, o: Options): Job {
    job.(status := Failed, token := None, lease := None, nextAttemptAt := now + o.backoffMs, finishedAt := Some(now))
  }

  function FailJob(r: Rows, c: Claim, now: int, o: Options): Option<Rows> {
    if !Holds(r.jobs, c, now) then None
    else
      var job := r.jobs[c.job];
      var failed := if c.attempts >= o.maxAttempts then GivenUp(job, now, o) else Retried(job, now, o);
      Some(r.(jobs := r.jobs[c.job := failed]))
  }

  /** What one execution reads: the clock at its start and at its end, the character, and the world. */
  datatype Execution = Execution(now: int, end: int, context: Option<Context>, pool: seq<nat>, picked: set<nat>,
                                 liked: seq<FollowScan.Liked>, active: set<nat>)

  predicate CanRun(r: Rows, character: nat, x: Execution) {
    character in r.policies && CanAct(Some(r.policies[character].policy), x.context)
  }

  function VisitOf(r: Rows, character: nat, x: Execution): Visit
    requires CanRun(r, character, x)
  {
    Visit(r.policies[character].policy, x.context.value.day.value, x.now, x.pool, x.picked, x.liked, x.active)
  }

  /** The transaction changed nothing, cancelled the job, committed its effects, or threw and was undone. */
  datatype Outcome = Skipped | Cancelled | Committed(visit: Visit) | Threw

  function Processed(r: Rows, c: Claim, x: Execution, o: Options): Outcome {
    if !HasLiveLease(r.jobs, c, x.now) then Skipped
    else if !CanRun(r, c.character, x) then (if Holds(r.jobs, c, x.end) then Outcome.Cancelled else Skipped)
    else if Holds(r.jobs, c, x.end) then Committed(VisitOf(r, c.character, x))
    else Threw
  }

  function WithVisit(feeds: map<nat, Feed>, character: nat, v: Visit, o: Options): map<nat, Feed> {
    feeds[character := Visited(FeedOf(feeds, character), v, o)]
  }

  function Process(r: Rows, c: Claim, x: Execution, o: Options): Rows {
    match Processed(r, c, x, o)
    case Skipped => r
    case Threw => r
    case Cancelled => Finish(r, c, x.end, JobStatus.Cancelled).value
    case Committed(v) => Finish(r, c, x.end, Completed).value.(feeds := WithVisit(r.feeds, c.character, v, o))
  }

  // ----- the system

  /** One commit of effects, as history, with the character as the execution found it. */
  datatype Entry = Entry(job: nat, token: nat, character: nat, visit: Visit, context: Option<Context>)

  /** The tables, every claim ever handed out by its token, and the history of committed effects. No worker is named:
      a claim may be used by its worker at any time and any number of times, or never, if that worker crashed. */
  datatype State = State(rows: Rows, claims: map<nat, Claim>, log: seq<Entry>)

  const START := State(Rows(map[], 0, map[], map[]), map[], [])

  /** The clocks in the steps are whatever the machines say; nothing orders them. */
  datatype Step =
    | DoPolicy(character: nat, row: PolicyRow)
    | DoSchedule(character: nat, now: int, context: Option<Context>)
    | DoClaim(job: nat, token: nat, now: int)
    | DoProcess(token: nat, execution: Execution)
    | DoFail(token: nat, now: int)

  predicate Enabled(s: State, step: Step) {
    match step
    case DoPolicy(_, _) => true
    case DoSchedule(_, _, _) => true
    case DoClaim(_, token, _) => token !in s.claims
    case DoProcess(token, _) => token in s.claims
    case DoFail(token, _) => token in s.claims
  }

  function LogOf(s: State, c: Claim, x: Execution, o: Options): seq<Entry> {
    match Processed(s.rows, c, x, o)
    case Committed(v) => s.log + [Entry(c.job, c.token, c.character, v, x.context)]
    case _ => s.log
  }

  function Next(s: State, step: Step, o: Options): State
    requires Enabled(s, step)
  {
    match step
    case DoPolicy(character, row) => s.(rows := s.rows.(policies := s.rows.policies[character := row]))
    case DoSchedule(character, now, context) => s.(rows := ScheduleDue(s.rows, character, now, context))
    case DoClaim(j, token, now) =>
      (match TryClaim(s.rows, j, token, now, o)
       case (rows, None) => s.(rows := rows)
       case (rows, Some(c)) => s.(rows := rows, claims := s.claims[token := c]))
    case DoProcess(token, x) =>
      s.(rows := Process(s.rows, s.claims[token], x, o), log := LogOf(s, s.claims[token], x, o))
    case DoFail(token, now) =>
      (match FailJob(s.rows, s.claims[token], now, o)
       case None => s
       case Some(rows) => s.(rows := rows))
  }

  ghost predicate Run(s: State, steps: seq<Step>, o: Options, z: State)
    decreases |steps|
  {
    if steps == [] then s == z
    else Enabled(s, steps[0]) && Run(Next(s, steps[0], o), steps[1..], o, z)
  }

  // ----- the table constraints

  predicate LeaseCheck(job: Job) {
    && (job.status == Running <==> job.token.Some?)
    && (job.status == Running <==> job.lease.Some?)
    && (Active(job) <==> job.finishedAt.None?)
  }

  ghost predicate Keys(jobs: map<nat, Job>, next: nat) {
    && (forall j | j in jobs :: j < next && LeaseCheck(jobs[j]))
    && (forall j, k | j in jobs && k in jobs && j != k && jobs[j].character == jobs[k].character ::
          jobs[j].scheduledAt != jobs[k].scheduledAt && !(Active(jobs[j]) && Active(jobs[k])))
  }

  /** An update of one row that sets lease, token and finish together and does not reopen a closed job. */
  lemma UpdateKeepsKeys(jobs: map<nat, Job>, next: nat, j: nat, job: Job)
    requires Keys(jobs, next) && j in jobs && LeaseCheck(job)
    requires job.character == jobs[j].character && job.scheduledAt == jobs[j].scheduledAt
    requires Active(job) ==> Active(jobs[j])
    ensures Keys(jobs[j := job], next)
  {
  }

  lemma InsertKeepsKeys(r: Rows, character: nat, now: int)
    requires Keys(r.jobs, r.next)
    ensures Keys(Insert(r, character, now).jobs, Insert(r, character, now).next)
  {
  }

  lemma ClaimKeepsKeys(r: Rows, j: nat, token: nat, now: int, o: Options)
    requires Keys(r.jobs, r.next)
    ensures Keys(TryClaim(r, j, token, now, o).0.jobs, TryClaim(r, j, token, now, o).0.next)
  {
    if j in r.jobs && Eligible(r.jobs[j], now) {
      UpdateKeepsKeys(r.jobs, r.next, j, Exhausted(r.jobs[j], now));
      UpdateKeepsKeys(r.jobs, r.next, j, Leased(r.jobs[j], token, now, o));
    }
  }

  lemma WorkerKeepsKeys(r: Rows, c: Claim, now: int, o: Options, status: JobStatus)
    requires Keys(r.jobs, r.next) && Holds(r.jobs, c, now) && status != Queued && status != Running
    ensures Keys(r.jobs[c.job := Finished(r.jobs[c.job], now, status)], r.next)
    ensures Keys(FailJob(r, c, now, o).value.jobs, FailJob(r, c, now, o).value.next)
  {
    UpdateKeepsKeys(r.jobs, r.next, c.job, Finished(r.jobs[c.job], now, status));
    UpdateKeepsKeys(r.jobs, r.next, c.job, Retried(r.jobs[c.job], now, o));
    UpdateKeepsKeys(r.jobs, r.next, c.job, GivenUp(r.jobs[c.job], now, o));
  }

  /** The writes that follow an admission, an exhaustion, a lease or a finish keep what the schema demands. */
  lemma StepKeepsKeys(s: State, step: Step, o: Options)
    requires Keys(s.rows.jobs, s.rows.next) && Enabled(s, step)
    ensures Keys(Next(s, step, o).rows.jobs, Next(s, step, o).rows.next)
  {
    match step
    case DoPolicy(_, _) =>
    case DoSchedule(character, now, _) =>
      InsertKeepsKeys(s.rows, character, now);
    case DoClaim(j, token, now) => ClaimKeepsKeys(s.rows, j, token, now, o);
    case DoProcess(token, x) =>
      var c := s.claims[token];
      if Holds(s.rows.jobs, c, x.end) {
        WorkerKeepsKeys(s.rows, c, x.end, o, JobStatus.Cancelled);
        WorkerKeepsKeys(s.rows, c, x.end, o, Completed);
      }
    case DoFail(token, now) =>
      if Holds(s.rows.jobs, s.claims[token], now) {
        WorkerKeepsKeys(s.rows, s.claims[token], now, o, Failed);
      }
  }

  // ----- a pass of the scheduler

  ghost predicate PositiveIntervals(r: Rows) {
    forall c | c in r.policies :: r.policies[c].policy.intervalMs > 0
  }

  /** After a pass none of its characters is due. */
  lemma {:induction false} PassLeavesNoneDue(r: Rows, characters: seq<nat>, now: int, contexts: map<nat, Context>,
                                             c: nat)
    requires PositiveIntervals(r)
    ensures PositiveIntervals(ScheduleAll(r, characters, now, contexts))
    ensures c in characters || !Due(r, c, now) ==> !Due(ScheduleAll(r, characters, now, contexts), c, now)
  {
    if characters != [] {
      var n := |characters| - 1;
      PassLeavesNoneDue(r, characters[..n], now, contexts, c);
      assert characters == characters[..n] + [characters[n]];
    }
  }

  lemma {:induction false} NoneDueNoChange(r: Rows, characters: seq<nat>, now: int, contexts: map<nat, Context>)
    requires forall c | c in characters :: !Due(r, c, now)
    ensures ScheduleAll(r, characters, now, contexts) == r
  {
    if characters != [] {
      NoneDueNoChange(r, characters[..|characters| - 1], now, contexts);
    }
  }

  /** A second pass at the same time, of another worker say, schedules nothing, whatever the characters look like
      now. */
  lemma SecondPassAddsNothing(r: Rows, characters: seq<nat>, now: int, contexts: map<nat, Context>,
                              later: map<nat, Context>)
    requires PositiveIntervals(r)
    ensures var once := ScheduleAll(r, characters, now, contexts);
            ScheduleAll(once, characters, now, later) == once
  {
    forall c | c in characters
      ensures !Due(ScheduleAll(r, characters, now, contexts), c, now)
    {
      PassLeavesNoneDue(r, characters, now, contexts, c);
    }
    NoneDueNoChange(ScheduleAll(r, characters, now, contexts), characters, now, later);
  }

  // ----- the claims of a job

  function ClaimsOf(claims: map<nat, Claim>, j: nat): set<nat> {
    set t | t in claims && claims[t].job == j
  }

  /** Every claim is one attempt of its job, and the token on a running job belongs to its last one. */
  ghost predicate Counted(jobs: map<nat, Job>, claims: map<nat, Claim>, o: Options) {
    && (forall t | t in claims ::
          claims[t].token == t && claims[t].job in jobs && jobs[claims[t].job].character == claims[t].character)
    && (forall j | j in jobs :: |ClaimsOf(claims, j)| == jobs[j].attempts <= o.maxAttempts)
    && (forall j | j in jobs && jobs[j].token.Some? ::
          var t := jobs[j].token.value;
          t in claims && claims[t].job == j && claims[t].attempts == jobs[j].attempts)
  }

  lemma NewClaim(claims: map<nat, Claim>, c: Claim, j: nat)
    requires c.token !in claims
    ensures |ClaimsOf(claims[c.token := c], j)| == |ClaimsOf(claims, j)| + if c.job == j then 1 else 0
  {
    if c.job == j {
      assert ClaimsOf(claims[c.token := c], j) == ClaimsOf(claims, j) + {c.token};
    } else {
      assert ClaimsOf(claims[c.token := c], j) == ClaimsOf(claims, j);
    }
  }

  lemma NoClaims(jobs: map<nat, Job>, claims: map<nat, Claim>, j: nat, o: Options)
    requires Counted(jobs, claims, o) && j !in jobs
    ensures ClaimsOf(claims, j) == {}
  {
  }

  lemma InsertKeepsCounted(r: Rows, claims: map<nat, Claim>, character: nat, now: int, o: Options)
    requires Keys(r.jobs, r.next) && Counted(r.jobs, claims, o)
    ensures Counted(Insert(r, character, now).jobs, claims, o)
  {
    NoClaims(r.jobs, claims, r.next, o);
  }

  /** Writes that clear the token and leave attempts alone. */
  lemma CloseKeepsCounted(jobs: map<nat, Job>, claims: map<nat, Claim>, j: nat, job: Job, o: Options)
    requires Counted(jobs, claims, o) && j in jobs
    requires job.token.None? && job.attempts == jobs[j].attempts && job.character == jobs[j].character
    ensures Counted(jobs[j := job], claims, o)
  {
  }

  lemma LeaseKeepsCounted(jobs: map<nat, Job>, claims: map<nat, Claim>, j: nat, token: nat, now: int, o: Options)
    requires Counted(jobs, claims, o) && j in jobs && jobs[j].attempts < o.maxAttempts && token !in claims
    ensures var c := Claim(j, jobs[j].character, token, jobs[j].attempts + 1);
            Counted(jobs[j := Leased(jobs[j], token, now, o)], claims[token := c], o)
  {
    var c := Claim(j, jobs[j].character, token, jobs[j].attempts + 1);
    forall k | k in jobs
      ensures |ClaimsOf(claims[token := c], k)| == |ClaimsOf(claims, k)| + if j == k then 1 else 0
    {
      NewClaim(claims, c, k);
    }
  }

  lemma ClaimKeepsCounted(s: State, j: nat, token: nat, now: int, o: Options)
    requires Counted(s.rows.jobs, s.claims, o) && token !in s.claims
    ensures Counted(Next(s, DoClaim(j, token, now), o).rows.jobs, Next(s, DoClaim(j, token, now), o).claims, o)
  {
    var jobs := s.rows.jobs;
    if j in jobs && Eligible(jobs[j], now) {
      if jobs[j].attempts < o.maxAttempts {
        LeaseKeepsCounted(jobs, s.claims, j, token, now, o);
      } else {
        CloseKeepsCounted(jobs, s.claims, j, Exhausted(jobs[j], now), o);
      }
    }
  }

  lemma ProcessKeepsCounted(r: Rows, claims: map<nat, Claim>, c: Claim, x: Execution, o: Options)
    requires Counted(r.jobs, claims, o)
    ensures Counted(Process(r, c, x, o).jobs, claims, o)
  {
    if Holds(r.jobs, c, x.end) {
      CloseKeepsCounted(r.jobs, claims, c.job, Finished(r.jobs[c.job], x.end, JobStatus.Cancelled), o);
      CloseKeepsCounted(r.jobs, claims, c.job, Finished(r.jobs[c.job], x.end, Completed), o);
    }
  }

  lemma FailKeepsCounted(r: Rows, claims: map<nat, Claim>, c: Claim, now: int, o: Options)
    requires Counted(r.jobs, claims, o) && Holds(r.jobs, c, now)
    ensures Counted(FailJob(r, c, now, o).value.jobs, claims, o)
  {
    CloseKeepsCounted(r.jobs, claims, c.job, Retried(r.jobs[c.job], now, o), o);
    CloseKeepsCounted(r.jobs, claims, c.job, GivenUp(r.jobs[c.job], now, o), o);
  }

  lemma StepKeepsCounted(s: State, step: Step, o: Options)
    requires Keys(s.rows.jobs, s.rows.next) && Counted(s.rows.jobs, s.claims, o) && Enabled(s, step)
    ensures Counted(Next(s, step, o).rows.jobs, Next(s, step, o).claims, o)
  {
    match step
    case DoPolicy(_, _) =>
    case DoSchedule(character, now, _) => InsertKeepsCounted(s.rows, s.claims, character, now, o);
    case DoClaim(j, token, now) => ClaimKeepsCounted(s, j, token, now, o);
    case DoProcess(token, x) => ProcessKeepsCounted(s.rows, s.claims, s.claims[token], x, o);
    case DoFail(token, now) =>
      if Holds(s.rows.jobs, s.claims[token], now) {
        FailKeepsCounted(s.rows, s.claims, s.claims[token], now, o);
      }
  }

  // ----- effects

  /** How often the effects of a job were committed. */
  function Commits(log: seq<Entry>, j: nat): nat {
    if log == [] then 0
    else Commits(log[..|log| - 1], j) + if log[|log| - 1].job == j then 1 else 0
  }

  /** The visits committed for a character, in order. */
  function VisitsOf(log: seq<Entry>, character: nat): seq<Visit> {
    if log == [] then []
    else
      var n := |log| - 1;
      VisitsOf(log[..n], character) + if log[n].character == character then [log[n].visit] else []
  }

  /** The effects of a job are in the tables once if it is completed, and otherwise not at all. */
  ghost predicate Settled(s: State) {
    forall j :: Commits(s.log, j) == if j in s.rows.jobs && s.rows.jobs[j].status == Completed then 1 else 0
  }

  /** Every character's views, likes and follows are exactly what its committed visits wrote. */
  ghost predicate Replayed(s: State, o: Options) {
    forall character :: FeedOf(s.rows.feeds, character) == VisitedAll(EMPTY, VisitsOf(s.log, character), o)
  }

  lemma LogOneMore(log: seq<Entry>, e: Entry, j: nat, character: nat)
    ensures Commits(log + [e], j) == Commits(log, j) + if e.job == j then 1 else 0
    ensures VisitsOf(log + [e], character)
         == VisitsOf(log, character) + if e.character == character then [e.visit] else []
  {
    assert (log + [e])[..|log|] == log;
  }

  lemma CommitSettles(s: State, token: nat, x: Execution, o: Options)
    requires Settled(s) && token in s.claims && Processed(s.rows, s.claims[token], x, o).Committed?
    ensures Settled(Next(s, DoProcess(token, x), o))
  {
    var c := s.claims[token];
    var e := Entry(c.job, c.token, c.character, VisitOf(s.rows, c.character, x), x.context);
    var z := Next(s, DoProcess(token, x), o);
    forall j
      ensures Commits(z.log, j) == if j in z.rows.jobs && z.rows.jobs[j].status == Completed then 1 else 0
    {
      LogOneMore(s.log, e, j, c.character);
    }
  }

  lemma CommitReplays(s: State, token: nat, x: Execution, o: Options)
    requires Replayed(s, o) && token in s.claims && Processed(s.rows, s.claims[token], x, o).Committed?
    ensures Replayed(Next(s, DoProcess(token, x), o), o)
  {
    var c := s.claims[token];
    var e := Entry(c.job, c.token, c.character, VisitOf(s.rows, c.character, x), x.context);
    var z := Next(s, DoProcess(token, x), o);
    forall character
      ensures FeedOf(z.rows.feeds, character) == VisitedAll(EMPTY, VisitsOf(z.log, character), o)
    {
      LogOneMore(s.log, e, c.job, character);
      var visits := VisitsOf(s.log, character);
      if character == c.character {
        assert (visits + [e.visit])[..|visits|] == visits;
      } else {
        assert visits + [] == visits;
      }
    }
  }

  /** Jobs that are completed stay so, and no step but a commit completes one. */
  lemma QuietStep(s: State, step: Step, o: Options, j: nat)
    requires Keys(s.rows.jobs, s.rows.next) && Enabled(s, step)
    requires step.DoProcess? ==> !Processed(s.rows, s.claims[step.token], step.execution, o).Committed?
    ensures var z := Next(s, step, o);
            (j in z.rows.jobs && z.rows.jobs[j].status == Completed)
              <==> (j in s.rows.jobs && s.rows.jobs[j].status == Completed)
  {
  }

  lemma StepSettles(s: State, step: Step, o: Options)
    requires Keys(s.rows.jobs, s.rows.next) && Settled(s) && Replayed(s, o) && Enabled(s, step)
    ensures Settled(Next(s, step, o)) && Replayed(Next(s, step, o), o)
  {
    if step.DoProcess? && Processed(s.rows, s.claims[step.token], step.execution, o).Committed? {
      CommitSettles(s, step.token, step.execution, o);
      CommitReplays(s, step.token, step.execution, o);
    } else {
      var z := Next(s, step, o);
      assert z.log == s.log && z.rows.feeds == s.rows.feeds;
      forall j
        ensures Commits(z.log, j) == if j in z.rows.jobs && z.rows.jobs[j].status == Completed then 1 else 0
      {
        QuietStep(s, step, o, j);
      }
    }
  }

  ghost predicate Sound(s: State, o: Options) {
    Keys(s.rows.jobs, s.rows.next) && Counted(s.rows.jobs, s.claims, o) && Settled(s) && Replayed(s, o)
  }

  lemma {:induction false} SoundOverRuns(s: State, steps: seq<Step>, o: Options, z: State)
    requires Sound(s, o) && Run(s, steps, o, z)
    ensures Sound(z, o)
    decreases |steps|
  {
    if steps != [] {
      StepKeepsKeys(s, steps[0], o);
      StepKeepsCounted(s, steps[0], o);
      StepSettles(s, steps[0], o);
      SoundOverRuns(Next(s, steps[0], o), steps[1..], o, z);
    }
  }

  /** Over every interleaving of schedulers, claims, crashes, lease expiries and late finishers: a job is claimed at
      most maxAttempts times, its effects are committed exactly once if it is completed and otherwise never, and the
      feeds hold those effects and nothing else. */
  lemma EffectsOnceOverRuns(steps: seq<Step>, o: Options, z: State, j: nat, character: nat)
    requires Run(START, steps, o, z)
    ensures |ClaimsOf(z.claims, j)| <= o.maxAttempts
    ensures Commits(z.log, j) == if j in z.rows.jobs && z.rows.jobs[j].status == Completed then 1 else 0
    ensures FeedOf(z.rows.feeds, character) == VisitedAll(EMPTY, VisitsOf(z.log, character), o)
  {
    SoundOverRuns(START, steps, o, z);
    if j !in z.rows.jobs {
      NoClaims(z.rows.jobs, z.claims, j, o);
    }
  }

  /** The step commits the effects of a claim: its job is running under the claim's token and of the claim's character,
      the lease is live when the step starts and when it ends, this was the job's latest attempt, and the step
      completes the job. */
  ghost predicate CommitsFor(s: State, step: Step, z: State, c: Claim) {
    && step.DoProcess? && step.token == c.token
    && c.job in s.rows.jobs && s.rows.jobs[c.job].status == Running
    && s.rows.jobs[c.job].token == Some(c.token)
    && s.rows.jobs[c.job].lease.Some?
    && s.rows.jobs[c.job].lease.value > step.execution.now
    && s.rows.jobs[c.job].lease.value > step.execution.end
    && s.rows.jobs[c.job].character == c.character
    && s.rows.jobs[c.job].attempts == c.attempts
    && c.job in z.rows.jobs && z.rows.jobs[c.job].status == Completed
  }

  lemma CommitIsHolders(s: State, step: Step, o: Options)
    requires Counted(s.rows.jobs, s.claims, o) && Enabled(s, step)
    requires Next(s, step, o).rows.feeds != s.rows.feeds || Next(s, step, o).log != s.log
    ensures step.DoProcess? && CommitsFor(s, step, Next(s, step, o), s.claims[step.token])
  {
    if step.DoProcess? {
      assert Processed(s.rows, s.claims[step.token], step.execution, o).Committed?;
    }
  }

  lemma OtherFeedsStay(s: State, step: Step, o: Options, other: nat)
    requires Enabled(s, step) && (step.DoProcess? ==> other != s.claims[step.token].character)
    ensures FeedOf(Next(s, step, o).rows.feeds, other) == FeedOf(s.rows.feeds, other)
  {
  }

  /** Effects appear only in a step that moves their job from running to completed, taken by the holder of the live
      token on the job; the job's effects were not in the tables before, and no other character's are touched. */
  lemma EffectsOnlyByHolder(steps: seq<Step>, o: Options, s: State, step: Step, other: nat)
    requires Run(START, steps, o, s) && Enabled(s, step)
    requires Next(s, step, o).rows.feeds != s.rows.feeds || Next(s, step, o).log != s.log
    ensures step.DoProcess? && CommitsFor(s, step, Next(s, step, o), s.claims[step.token])
    ensures Commits(s.log, s.claims[step.token].job) == 0
    ensures other != s.claims[step.token].character ==>
              FeedOf(Next(s, step, o).rows.feeds, other) == FeedOf(s.rows.feeds, other)
  {
    SoundOverRuns(START, steps, o, s);
    CommitIsHolders(s, step, o);
    if other != s.claims[step.token].character {
      OtherFeedsStay(s, step, o, other);
    }
  }

  /** Once a job has moved on to another token, or to none, a claim of it can no longer change anything. */
  lemma OldClaimsAreFenced(steps: seq<Step>, o: Options, s: State, step: Step)
    requires Run(START, steps, o, s) && Enabled(s, step)
    requires step.DoProcess? || step.DoFail?
    requires s.claims[step.token].job in s.rows.jobs ==>
               s.rows.jobs[s.claims[step.token].job].token != Some(step.token)
    ensures Next(s, step, o) == s
  {
    SoundOverRuns(START, steps, o, s);
  }

  // ----- quotas of the whole system

  /** The character's policy and all its visits so far stay within the quota. */
  ghost predicate Tame(s: State, character: nat, q: Quota) {
    && (character in s.rows.policies ==> Within(s.rows.policies[character].policy, q))
    && (forall v | v in VisitsOf(s.log, character) :: Within(v.policy, q))
  }

  ghost predicate Obeys(step: Step, character: nat, q: Quota) {
    step.DoPolicy? && step.character == character ==> Within(step.row.policy, q)
  }

  lemma StepTame(s: State, step: Step, o: Options, character: nat, q: Quota)
    requires Tame(s, character, q) && Enabled(s, step) && Obeys(step, character, q)
    ensures Tame(Next(s, step, o), character, q)
  {
    if step.DoProcess? && Processed(s.rows, s.claims[step.token], step.execution, o).Committed? {
      var c := s.claims[step.token];
      var x := step.execution;
      var e := Entry(c.job, c.token, c.character, VisitOf(s.rows, c.character, x), x.context);
      LogOneMore(s.log, e, c.job, character);
    }
  }

  lemma {:induction false} TameOverRuns(s: State, steps: seq<Step>, o: Options, z: State, character: nat, q: Quota)
    requires Tame(s, character, q) && Run(s, steps, o, z)
    requires forall step | step in steps :: Obeys(step, character, q)
    ensures Tame(z, character, q)
    decreases |steps|
  {
    if steps != [] {
      StepTame(s, steps[0], o, character, q);
      TameOverRuns(Next(s, steps[0], o), steps[1..], o, z, character, q);
    }
  }

  /** In every reachable state, the views, likes and follows of a character on a local day are within the largest
      limits its policy ever had, however many workers, retries and late finishers there were. */
  lemma QuotaOverRuns(steps: seq<Step>, o: Options, z: State, character: nat, day: Day, q: Quota)
    requires Run(START, steps, o, z)
    requires q.views >= 0 && q.likes >= 0 && q.follows >= 0
    requires forall step | step in steps :: Obeys(step, character, q)
    requires forall v | v in VisitsOf(z.log, character) :: CountsOn(v, day)
    ensures CountIn(FeedOf(z.rows.feeds, character).views, day) <= q.views
    ensures CountIn(FeedOf(z.rows.feeds, character).likes, day) <= q.likes
    ensures CountIn(FeedOf(z.rows.feeds, character).follows, day) <= q.follows
  {
    SoundOverRuns(START, steps, o, z);
    TameOverRuns(START, steps, o, z, character, q);
    QuotaOverVisits(EMPTY, VisitsOf(z.log, character), o, day, q);
    assert RowsIn(map[], day) == {};
  }

  /** In every reachable state, every liked post was first viewed by the same character at the time of the like. */
  lemma LikesFirstViewedOverRuns(steps: seq<Step>, o: Options, z: State, character: nat, post: nat)
    requires Run(START, steps, o, z)
    requires post in FeedOf(z.rows.feeds, character).likes
    ensures post in FeedOf(z.rows.feeds, character).views
    ensures FeedOf(z.rows.feeds, character).views[post] == FeedOf(z.rows.feeds, character).likes[post]
  {
    SoundOverRuns(START, steps, o, z);
    LikesFirstViewedOverVisits(EMPTY, VisitsOf(z.log, character), o, post);
  }

  /** In every reachable state a character follows only others of whom it likes at least `threshold` posts, provided
      the queries of its activities counted the likes that were there. */
  lemma FollowsAreEarnedOverRuns(steps: seq<Step>, o: Options, z: State, authors: map<nat, nat>, character: nat,
                                 author: nat)
    requires Run(START, steps, o, z)
    requires CountsRead(EMPTY, VisitsOf(z.log, character), o, authors, character)
    requires author in FeedOf(z.rows.feeds, character).follows
    ensures author != character
    ensures |LikedBy(FeedOf(z.rows.feeds, character).likes, authors, author)| >= o.threshold
  {
    SoundOverRuns(START, steps, o, z);
    FollowsAreEarnedOverVisits(EMPTY, VisitsOf(z.log, character), o, authors, character, author);
  }
}
