/** Reply jobs on the real credit ledger: the reservations of chat replies are rows of the credit engine. */
module ReplyCredits {
  import opened Prelude
  import T = Tables
  import C = CreditRules
  import S = Solvency
  import R = ReplyJobs

  /** The name under which the ledger knows a chat reservation; different ones have different names. */
  ghost predicate Injective(name: nat -> string) {
    forall a, b | name(a) == name(b) :: a == b
  }

  function HoldOf(status: T.ReservationStatus): R.Hold {
    match status
    case Open => R.Reserved
    case Captured => R.Captured
    case Released => R.Released
  }

  /** The row of a chat reservation says what the reply queue believes of it, and never expires. */
  predicate Agrees(rows: seq<T.Reservation>, holds: map<nat, R.Hold>, name: nat -> string, r: nat) {
    match C.FindReservation(rows, name(r))
    case None => r !in holds
    case Some(i) =>
      && r in holds && HoldOf(rows[i].status) == holds[r]
      && rows[i].expiresAt.None? && rows[i].action == T.ChatReply && rows[i].amount == C.ActionPrice(T.ChatReply)
  }

  ghost predicate Mirrors(rows: seq<T.Reservation>, holds: map<nat, R.Hold>, name: nat -> string) {
    forall r: nat :: Agrees(rows, holds, name, r)
  }

  // ----- one operation

  /** The credits are there to capture a chat reservation. */
  predicate Funded(l: T.Ledger, now: int) {
    C.Allocate(l, now, C.ActionPrice(T.ChatReply)).Ok?
  }

  lemma StatusMirrors(rows: seq<T.Reservation>, holds: map<nat, R.Hold>, name: nat -> string, r: nat,
                      status: T.ReservationStatus)
    requires Injective(name) && Mirrors(rows, holds, name) && r in holds
    ensures C.FindReservation(rows, name(r)).Some?
    ensures Mirrors(C.WithStatus(rows, C.FindReservation(rows, name(r)).value, status),
                    holds[r := HoldOf(status)], name)
  {
    assert Agrees(rows, holds, name, r);
    var i := C.FindReservation(rows, name(r)).value;
    var after := holds[r := HoldOf(status)];
    forall q: nat ensures Agrees(C.WithStatus(rows, i, status), after, name, q) {
      assert Agrees(rows, holds, name, q);
      C.FindAfterStatus(rows, i, status, name(q));
    }
  }

  /** Capturing in the reply queue is capturing in the ledger: it throws in the one exactly when in the other, and
      otherwise leaves both in agreement. */
  lemma CaptureRefines(l: T.Ledger, now: int, holds: map<nat, R.Hold>, name: nat -> string, r: nat)
    requires Injective(name) && Mirrors(l.reservations, holds, name)
    ensures R.CaptureHold(holds, r, Funded(l, now)).Some? <==> C.Capture(l, now, name(r)).Ok?
    ensures C.Capture(l, now, name(r)).Ok? ==>
              && !C.Capture(l, now, name(r)).value.expired
              && Mirrors(C.Capture(l, now, name(r)).value.ledger.reservations,
                         R.CaptureHold(holds, r, Funded(l, now)).value, name)
  {
    assert Agrees(l.reservations, holds, name, r);
    if r in holds && holds[r] == R.Reserved {
      StatusMirrors(l.reservations, holds, name, r, T.ReservationStatus.Captured);
    }
  }

  lemma ReleaseRefines(l: T.Ledger, holds: map<nat, R.Hold>, name: nat -> string, r: nat)
    requires Injective(name) && Mirrors(l.reservations, holds, name)
    ensures C.Release(l, name(r)).Ok? <==> r in holds
    ensures C.Release(l, name(r)).Ok? ==>
              Mirrors(C.Release(l, name(r)).value.reservations, R.ReleaseHold(holds, r), name)
    ensures r !in holds ==> R.ReleaseHold(holds, r) == holds
  {
    assert Agrees(l.reservations, holds, name, r);
    if r in holds && holds[r] == R.Reserved {
      StatusMirrors(l.reservations, holds, name, r, T.ReservationStatus.Released);
    }
  }

  lemma ReserveRefines(l: T.Ledger, now: int, holds: map<nat, R.Hold>, name: nat -> string, r: nat)
    requires Injective(name) && Mirrors(l.reservations, holds, name) && r !in holds
    requires C.Reserve(l, now, T.ChatReply, name(r), C.Never).Ok?
    ensures Mirrors(C.Reserve(l, now, T.ChatReply, name(r), C.Never).value.reservations, holds[r := R.Reserved], name)
  {
    assert Agrees(l.reservations, holds, name, r);
    var after := C.Reserve(l, now, T.ChatReply, name(r), C.Never).value;
    var row := after.reservations[|l.reservations|];
    var rows, reserved := l.reservations + [row], holds[r := R.Reserved];
    assert after.reservations == rows;
    forall q: nat ensures Agrees(rows, reserved, name, q) {
      AppendedAgrees(l.reservations, holds, name, r, row, q);
    }
  }

  lemma AppendedAgrees(rows: seq<T.Reservation>, holds: map<nat, R.Hold>, name: nat -> string, r: nat,
                       row: T.Reservation, q: nat)
    requires Injective(name) && Agrees(rows, holds, name, q)
    requires row.reference == name(r) && row.status == T.ReservationStatus.Open
    requires row.action == T.ChatReply && row.amount == C.ActionPrice(T.ChatReply) && row.expiresAt.None?
    ensures Agrees(rows + [row], holds[r := R.Reserved], name, q)
  {
    C.FindAppended(rows, row, name(q));
  }

  // ----- both systems together

  datatype Joint = Joint(chat: R.State, credits: S.System)

  /** A step of the reply queue, with the ledger step it makes, or a step of the ledger alone. */
  datatype Step = Chat(step: R.Step) | Money(other: S.Step)

  /** The ledger transaction inside a step of the reply queue. */
  function LedgerStep(s: R.State, step: R.Step, o: R.Options, name: nat -> string): Option<S.Step>
    requires R.Enabled(s, step)
  {
    match step
    case DoComplete(w, _) =>
      if R.IsRunning(s.rows, s.claims[w].job) then Some(S.DoCapture(name(s.claims[w].reservation))) else None
    case DoFail(w, retryable) =>
      if R.GivesUp(s.claims[w], s.now, o, retryable) && R.IsRunning(s.rows, s.claims[w].job)
      then Some(S.DoRelease(name(s.claims[w].reservation))) else None
    case DoDeadline(w) =>
      if R.IsRunning(s.rows, s.claims[w].job) then Some(S.DoRelease(name(s.claims[w].reservation))) else None
    case DoSendReserve(_, r) => Some(S.DoReserve(T.ChatReply, name(r), C.Never))
    case DoRetryReserve(_, _, r) => Some(S.DoReserve(T.ChatReply, name(r), C.Never))
    case DoRelease(t) => Some(S.DoRelease(name(s.tickets[t].reference)))
    case _ => None
  }

  ghost predicate Foreign(reference: string, name: nat -> string) {
    forall r: nat :: name(r) != reference
  }

  /** The credits decide whether a capture is funded and whether a request gets its reservation; other users of the
      ledger have references of their own. */
  ghost predicate Enabled(j: Joint, step: Step, o: R.Options, name: nat -> string) {
    match step
    case Chat(c) =>
      && R.Enabled(j.chat, c)
      && (c.DoComplete? ==> c.funded == Funded(j.credits.store.ledger, j.credits.now))
      && (c.DoSendReserve? ==> Granted(j, name(c.reference)))
      && (c.DoRetryReserve? ==> Granted(j, name(c.reference)))
    case Money(m) =>
      && S.Enabled(j.credits, m)
      && (m.DoReserve? ==> Foreign(m.reference, name))
      && (m.DoCapture? ==> Foreign(m.reference, name))
      && (m.DoRelease? ==> Foreign(m.reference, name))
  }

  predicate Granted(j: Joint, reference: string) {
    C.Reserve(j.credits.store.ledger, j.credits.now, T.ChatReply, reference, C.Never).Ok?
  }

  function Next(j: Joint, step: Step, o: R.Options, name: nat -> string): Joint
    requires step.Chat? ==> R.Enabled(j.chat, step.step)
    requires step.Money? ==> S.Enabled(j.credits, step.other)
  {
    match step
    case Money(m) => j.(credits := S.Next(j.credits, m))
    case Chat(c) =>
      Joint(R.Next(j.chat, c, o),
            match LedgerStep(j.chat, c, o, name)
            case None => j.credits
            case Some(m) => S.Next(j.credits, m))
  }

  ghost predicate Run(j: Joint, steps: seq<Step>, o: R.Options, name: nat -> string, z: Joint)
    decreases |steps|
  {
    if steps == [] then j == z
    else Enabled(j, steps[0], o, name) && Run(Next(j, steps[0], o, name), steps[1..], o, name, z)
  }

  ghost predicate InStep(j: Joint, name: nat -> string) {
    Mirrors(j.credits.store.ledger.reservations, j.chat.rows.holds, name)
  }

  lemma CompleteInStep(j: Joint, w: nat, o: R.Options, name: nat -> string)
    requires Injective(name) && InStep(j, name) && w in j.chat.claims
    ensures InStep(Next(j, Chat(R.DoComplete(w, Funded(j.credits.store.ledger, j.credits.now))), o, name), name)
  {
    CaptureRefines(j.credits.store.ledger, j.credits.now, j.chat.rows.holds, name, j.chat.claims[w].reservation);
    R.CompletedState(j.chat, w, Funded(j.credits.store.ledger, j.credits.now), o);
  }

  lemma FailInStep(j: Joint, c: R.Step, o: R.Options, name: nat -> string)
    requires Injective(name) && InStep(j, name) && R.Enabled(j.chat, c) && (c.DoFail? || c.DoDeadline?)
    ensures InStep(Next(j, Chat(c), o, name), name)
  {
    ReleaseRefines(j.credits.store.ledger, j.chat.rows.holds, name, j.chat.claims[c.worker].reservation);
  }

  lemma ReserveInStep(j: Joint, c: R.Step, o: R.Options, name: nat -> string)
    requires Injective(name) && InStep(j, name) && Enabled(j, Chat(c), o, name)
    requires c.DoSendReserve? || c.DoRetryReserve?
    ensures InStep(Next(j, Chat(c), o, name), name)
  {
    ReserveRefines(j.credits.store.ledger, j.credits.now, j.chat.rows.holds, name, c.reference);
  }

  lemma ReleaseInStep(j: Joint, ticket: nat, o: R.Options, name: nat -> string)
    requires Injective(name) && InStep(j, name) && R.Enabled(j.chat, R.DoRelease(ticket))
    ensures InStep(Next(j, Chat(R.DoRelease(ticket)), o, name), name)
  {
    ReleaseRefines(j.credits.store.ledger, j.chat.rows.holds, name, j.chat.tickets[ticket].reference);
  }

  lemma QuietInStep(j: Joint, c: R.Step, o: R.Options, name: nat -> string)
    requires InStep(j, name) && R.Enabled(j.chat, c)
    requires c.DoClaim? || c.DoCrash? || c.DoSendSave? || c.DoRetryRequeue? || c.DoAbandon? || c.DoTick?
    ensures InStep(Next(j, Chat(c), o, name), name)
  {
    assert R.Next(j.chat, c, o).rows.holds == j.chat.rows.holds;
  }

  lemma ForeignStatus(rows: seq<T.Reservation>, holds: map<nat, R.Hold>, name: nat -> string, i: nat,
                      status: T.ReservationStatus)
    requires Mirrors(rows, holds, name) && i < |rows| && Foreign(rows[i].reference, name)
    ensures Mirrors(C.WithStatus(rows, i, status), holds, name)
  {
    forall q: nat ensures Agrees(C.WithStatus(rows, i, status), holds, name, q) {
      assert Agrees(rows, holds, name, q);
      C.FindAfterStatus(rows, i, status, name(q));
    }
  }

  lemma ForeignRow(rows: seq<T.Reservation>, holds: map<nat, R.Hold>, name: nat -> string, row: T.Reservation)
    requires Mirrors(rows, holds, name) && Foreign(row.reference, name)
    ensures Mirrors(rows + [row], holds, name)
  {
    forall q: nat ensures Agrees(rows + [row], holds, name, q) {
      assert Agrees(rows, holds, name, q);
      C.FindAppended(rows, row, name(q));
    }
  }

  lemma ForeignReservation(j: Joint, m: S.Step, name: nat -> string)
    requires InStep(j, name) && S.Enabled(j.credits, m)
    requires (m.DoReserve? || m.DoCapture? || m.DoRelease?) && Foreign(m.reference, name)
    ensures Mirrors(S.Next(j.credits, m).store.ledger.reservations, j.chat.rows.holds, name)
  {
    var l := j.credits.store.ledger;
    var after := S.Next(j.credits, m).store.ledger.reservations;
    match C.FindReservation(l.reservations, m.reference)
    case Some(i) =>
      ForeignStatus(l.reservations, j.chat.rows.holds, name, i, T.ReservationStatus.Captured);
      ForeignStatus(l.reservations, j.chat.rows.holds, name, i, T.ReservationStatus.Released);
    case None =>
      if after != l.reservations {
        ForeignRow(l.reservations, j.chat.rows.holds, name, after[|l.reservations|]);
      }
  }

  lemma MoneyInStep(j: Joint, m: S.Step, o: R.Options, name: nat -> string)
    requires InStep(j, name) && Enabled(j, Money(m), o, name)
    ensures InStep(Next(j, Money(m), o, name), name)
  {
    if m.DoReserve? || m.DoCapture? || m.DoRelease? {
      ForeignReservation(j, m, name);
    } else {
      assert S.Next(j.credits, m).store.ledger.reservations == j.credits.store.ledger.reservations;
    }
  }

  lemma StepInStep(j: Joint, step: Step, o: R.Options, name: nat -> string)
    requires Injective(name) && InStep(j, name) && Enabled(j, step, o, name)
    ensures InStep(Next(j, step, o, name), name)
  {
    match step
    case Money(m) => MoneyInStep(j, m, o, name);
    case Chat(DoComplete(w, funded)) => CompleteInStep(j, w, o, name);
    case Chat(DoRelease(t)) => ReleaseInStep(j, t, o, name);
    case Chat(c) =>
      if c.DoFail? || c.DoDeadline? {
        FailInStep(j, c, o, name);
      } else if c.DoSendReserve? || c.DoRetryReserve? {
        ReserveInStep(j, c, o, name);
      } else {
        QuietInStep(j, c, o, name);
      }
  }

  lemma StepKeepsBoth(j: Joint, step: Step, o: R.Options, name: nat -> string)
    requires Enabled(j, step, o, name)
    requires S.Solvent(j.credits.store.ledger, j.credits.now) && R.Accounted(j.chat)
    ensures var z := Next(j, step, o, name);
            S.Solvent(z.credits.store.ledger, z.credits.now) && R.Accounted(z.chat)
  {
    match step
    case Money(m) => S.StepKeepsSolvent(j.credits, m);
    case Chat(c) =>
      R.StepAccounts(j.chat, c, o);
      var m := LedgerStep(j.chat, c, o, name);
      if m.Some? {
        S.StepKeepsSolvent(j.credits, m.value);
      }
  }

  /** Over every run of both systems the two agree on every chat reservation, the ledger stays solvent, and every job
      has its reply and its charge exactly once. */
  lemma {:induction false} AgreeOverRuns(j: Joint, steps: seq<Step>, o: R.Options, name: nat -> string, z: Joint)
    requires Injective(name) && InStep(j, name) && Run(j, steps, o, name, z)
    requires S.Solvent(j.credits.store.ledger, j.credits.now) && R.Accounted(j.chat)
    ensures InStep(z, name) && S.Solvent(z.credits.store.ledger, z.credits.now) && R.Accounted(z.chat)
    decreases |steps|
  {
    if steps != [] {
      StepInStep(j, steps[0], o, name);
      StepKeepsBoth(j, steps[0], o, name);
      AgreeOverRuns(Next(j, steps[0], o, name), steps[1..], o, name, z);
    }
  }

  /** Such runs start with a user who has no rows at all. */
  lemma EmptyAgrees(now: int, nextId: nat, name: nat -> string)
    ensures var l := T.Ledger([], [], [], [], [], [], [], nextId);
            var j := Joint(R.START, S.System(T.Store(l, map[], [], map[]), now));
            InStep(j, name) && S.Solvent(l, now) && R.Accounted(j.chat)
  {
    S.EmptyIsSolvent(now, nextId);
  }

  /** In every state of every such run a reserved chat reservation can be captured, so a worker that completes a
      running job under one never fails for lack of credits. */
  lemma RepliesAreFunded(j: Joint, steps: seq<Step>, o: R.Options, name: nat -> string, z: Joint, c: R.Claim)
    requires Injective(name) && InStep(j, name) && Run(j, steps, o, name, z)
    requires S.Solvent(j.credits.store.ledger, j.credits.now) && R.Accounted(j.chat)
    requires c.reservation in z.chat.rows.holds && z.chat.rows.holds[c.reservation] == R.Reserved
    ensures R.Complete(z.chat.rows, c, Funded(z.credits.store.ledger, z.credits.now)).Some?
    ensures C.Capture(z.credits.store.ledger, z.credits.now, name(c.reservation)).Ok?
  {
    var l := z.credits.store.ledger;
    AgreeOverRuns(j, steps, o, name, z);
    assert Agrees(l.reservations, z.chat.rows.holds, name, c.reservation);
    S.CaptureNeverFails(l, z.credits.now, name(c.reservation));
    CaptureRefines(l, z.credits.now, z.chat.rows.holds, name, c.reservation);
  }
}
