/** The conversation context of a reply: scoped to the job, and ordered by reply job rather than by message time. */
module ReplyContext {
  import opened Prelude
  import opened Sorting

  datatype JobKey = JobKey(at: int, id: nat)

  /** A message joined with its reply job, if it has one. */
  datatype Row = Row(id: nat, fromUser: bool, body: string, at: int, job: Option<JobKey>)

  datatype Turn = Turn(user: bool, content: string)

  function GroupOf(r: Row): JobKey {
    match r.job
    case Some(k) => k
    case None => JobKey(r.at, r.id)
  }

  predicate KeyBefore(a: JobKey, b: JobKey) {
    a.at < b.at || (a.at == b.at && a.id < b.id)
  }

  predicate KeyUpTo(a: JobKey, b: JobKey) {
    a == b || KeyBefore(a, b)
  }

  /** The comparator of the sort: group, then the user ahead of the character, then time and id. */
  predicate Before(a: Row, b: Row) {
    if GroupOf(a) != GroupOf(b) then KeyBefore(GroupOf(a), GroupOf(b))
    else if a.fromUser != b.fromUser then a.fromUser
    else a.at < b.at || (a.at == b.at && a.id < b.id)
  }

  predicate InScope(r: Row, job: JobKey, turn: JobKey) {
    match r.job
    case Some(k) => KeyUpTo(k, job)
    case None => KeyUpTo(JobKey(r.at, r.id), turn)
  }

  function Scoped(history: seq<Row>, job: JobKey, turn: JobKey): seq<Row> {
    if history == [] then []
    else
      var last := history[|history| - 1];
      Scoped(history[..|history| - 1], job, turn) + if InScope(last, job, turn) then [last] else []
  }

  function Turns(rows: seq<Row>): (turns: seq<Turn>)
    ensures |turns| == |rows|
    ensures forall i | 0 <= i < |rows| :: turns[i] == Turn(rows[i].fromUser, rows[i].body)
  {
    seq(|rows|, i requires 0 <= i < |rows| => Turn(rows[i].fromUser, rows[i].body))
  }

  function Context(history: seq<Row>, job: JobKey, turn: JobKey): seq<Turn> {
    Turns(Sort(Before, Scoped(history, job, turn)))
  }

  /** The loops of the worker: filter the joined rows, sort what is kept, map it to turns. */
  method BuildContext(history: seq<Row>, job: JobKey, turn: JobKey) returns (turns: seq<Turn>)
    ensures turns == Context(history, job, turn)
  {
    var kept := [];
    for i := 0 to |history|
      invariant kept == Scoped(history[..i], job, turn)
    {
      if InScope(history[i], job, turn) {
        kept := kept + [history[i]];
      }
      assert history[..i + 1][..i] == history[..i];
    }
    assert history[..|history|] == history;
    var sorted := [];
    for i := 0 to |kept|
      invariant sorted == Sort(Before, kept[..i])
    {
      sorted := Insert(Before, sorted, kept[i]);
      assert kept[..i + 1][..i] == kept[..i];
    }
    assert kept[..|kept|] == kept;
    turns := Turns(sorted);
  }

  // ----- the sort is a strict order on distinct rows

  ghost predicate DistinctRows(rows: seq<Row>) {
    forall i, j | 0 <= i < j < |rows| :: rows[i].id != rows[j].id
  }

  lemma BeforeIsStrict()
    ensures Strict(Before)
  {
  }

  /** Sorting distinct rows orders them strictly and loses none. */
  lemma SortSorts(rows: seq<Row>)
    requires DistinctRows(rows)
    ensures Ordered(Before, Sort(Before, rows))
    ensures multiset(Sort(Before, rows)) == multiset(rows)
  {
    BeforeIsStrict();
    SortOrders(Before, Before, rows);
    SortKeepsRows(Before, rows);
  }

  // ----- scope

  lemma {:induction false} ScopedCount(history: seq<Row>, job: JobKey, turn: JobKey, r: Row)
    ensures multiset(Scoped(history, job, turn))[r] == if InScope(r, job, turn) then multiset(history)[r] else 0
  {
    if history != [] {
      var n := |history| - 1;
      ScopedCount(history[..n], job, turn, r);
      assert history == history[..n] + [history[n]];
    }
  }

  lemma {:induction false} ScopedMembers(history: seq<Row>, job: JobKey, turn: JobKey, r: Row)
    ensures r in Scoped(history, job, turn) <==> r in history && InScope(r, job, turn)
  {
    if history != [] {
      var n := |history| - 1;
      ScopedMembers(history[..n], job, turn, r);
      assert r in history <==> r in history[..n] || r == history[n];
    }
  }

  lemma {:induction false} ScopedIsDistinct(history: seq<Row>, job: JobKey, turn: JobKey)
    requires DistinctRows(history)
    ensures DistinctRows(Scoped(history, job, turn))
  {
    if history != [] {
      var n := |history| - 1;
      ScopedIsDistinct(history[..n], job, turn);
      forall r | r in Scoped(history[..n], job, turn)
        ensures r.id != history[n].id
      {
        ScopedMembers(history[..n], job, turn, r);
      }
    }
  }

  lemma SameRowsSameScope(history: seq<Row>, other: seq<Row>, job: JobKey, turn: JobKey)
    requires multiset(history) == multiset(other)
    ensures multiset(Scoped(history, job, turn)) == multiset(Scoped(other, job, turn))
  {
    forall r: Row
      ensures multiset(Scoped(history, job, turn))[r] == multiset(Scoped(other, job, turn))[r]
    {
      ScopedCount(history, job, turn, r);
      ScopedCount(other, job, turn, r);
    }
  }

  // ----- main results

  /** The context does not depend on the order in which the database returns the rows. */
  lemma ContextIgnoresRowOrder(history: seq<Row>, other: seq<Row>, job: JobKey, turn: JobKey)
    requires DistinctRows(history) && DistinctRows(other) && multiset(history) == multiset(other)
    ensures Context(history, job, turn) == Context(other, job, turn)
  {
    SameRowsSameScope(history, other, job, turn);
    ScopedIsDistinct(history, job, turn);
    ScopedIsDistinct(other, job, turn);
    SortSorts(Scoped(history, job, turn));
    SortSorts(Scoped(other, job, turn));
    BeforeIsStrict();
    OrderedIsUnique(Before, Sort(Before, Scoped(history, job, turn)), Sort(Before, Scoped(other, job, turn)));
  }

  /** The sorted rows are those in scope, in group order, and within a job the user's messages come first. */
  lemma ContextFollowsJobs(history: seq<Row>, job: JobKey, turn: JobKey)
    requires DistinctRows(history)
    ensures var rows := Sort(Before, Scoped(history, job, turn));
            && (forall r: Row :: r in rows <==> r in history && InScope(r, job, turn))
            && (forall i, j | 0 <= i < j < |rows| ::
                  && KeyUpTo(GroupOf(rows[i]), GroupOf(rows[j]))
                  && (GroupOf(rows[i]) == GroupOf(rows[j]) && rows[j].fromUser ==> rows[i].fromUser))
  {
    var rows := Sort(Before, Scoped(history, job, turn));
    ScopedIsDistinct(history, job, turn);
    SortSorts(Scoped(history, job, turn));
    forall r: Row
      ensures r in rows <==> r in history && InScope(r, job, turn)
    {
      ScopedMembers(history, job, turn, r);
      assert r in rows <==> r in multiset(rows);
    }
    forall i, j | 0 <= i < j < |rows|
      ensures KeyUpTo(GroupOf(rows[i]), GroupOf(rows[j]))
      ensures GroupOf(rows[i]) == GroupOf(rows[j]) && rows[j].fromUser ==> rows[i].fromUser
    {
      assert Before(rows[i], rows[j]);
    }
  }

  /** What a row is grouped by, written out. */
  predicate GroupsBefore(a: Row, b: Row) {
    var k := if a.job.Some? then a.job.value else JobKey(a.at, a.id);
    var l := if b.job.Some? then b.job.value else JobKey(b.at, b.id);
    || k.at < l.at || (k.at == l.at && k.id < l.id)
    || (k == l && a.fromUser && !b.fromUser)
    || (k == l && a.fromUser == b.fromUser && (a.at < b.at || (a.at == b.at && a.id < b.id)))
  }

  /** A row of the job or an earlier one; without a job, a row sent up to the turn. */
  predicate Concerns(r: Row, job: JobKey, turn: JobKey) {
    match r.job
    case Some(k) => k.at < job.at || (k.at == job.at && k.id <= job.id)
    case None => r.at < turn.at || (r.at == turn.at && r.id <= turn.id)
  }

  /** The context itself: one turn, with role and text, for each message that concerns the job, each once and no other,
      in the order of groups, then the user ahead of the character, then time and id. */
  lemma ContextExactly(history: seq<Row>, job: JobKey, turn: JobKey) returns (rows: seq<Row>)
    requires DistinctRows(history)
    ensures forall r: Row :: multiset(rows)[r] == if Concerns(r, job, turn) then multiset(history)[r] else 0
    ensures forall i, j | 0 <= i < j < |rows| :: GroupsBefore(rows[i], rows[j])
    ensures |Context(history, job, turn)| == |rows|
    ensures forall i | 0 <= i < |rows| :: Context(history, job, turn)[i] == Turn(rows[i].fromUser, rows[i].body)
  {
    rows := Sort(Before, Scoped(history, job, turn));
    ScopedIsDistinct(history, job, turn);
    SortSorts(Scoped(history, job, turn));
    forall r: Row
      ensures multiset(rows)[r] == if Concerns(r, job, turn) then multiset(history)[r] else 0
    {
      ScopedCount(history, job, turn, r);
      ConcernsInScope(r, job, turn);
    }
    forall i, j | 0 <= i < j < |rows| ensures GroupsBefore(rows[i], rows[j]) {
      assert Before(rows[i], rows[j]);
      BeforeByGroups(rows[i], rows[j]);
    }
  }

  lemma ConcernsInScope(r: Row, job: JobKey, turn: JobKey)
    ensures Concerns(r, job, turn) <==> InScope(r, job, turn)
  {
  }

  lemma BeforeByGroups(a: Row, b: Row)
    ensures GroupsBefore(a, b) <==> Before(a, b)
  {
  }

  lemma IsAmong(rows: seq<Row>, r: Row) returns (i: nat)
    requires multiset(rows)[r] > 0
    ensures i < |rows| && rows[i] == r
  {
    assert r in multiset(rows);
    i :| 0 <= i < |rows| && rows[i] == r;
  }

  /** The job's own message is in its context, and is the last turn when every message is linked to a job and the reply
      is not there yet. */
  lemma OwnMessageIsAnswered(history: seq<Row>, job: JobKey, turn: JobKey, own: Row)
    requires DistinctRows(history) && own in history && own.job == Some(job)
    ensures Turn(own.fromUser, own.body) in Context(history, job, turn)
    ensures (forall r | r in history && r != own :: r.job.Some? && r.job.value != job) ==>
              var context := Context(history, job, turn);
              context[|context| - 1] == Turn(own.fromUser, own.body)
  {
    var rows := ContextExactly(history, job, turn);
    assert multiset(history)[own] > 0;
    var i := IsAmong(rows, own);
    assert Context(history, job, turn)[i] == Turn(own.fromUser, own.body);
    if forall r | r in history && r != own :: r.job.Some? && r.job.value != job {
      NoneAfterOwn(history, rows, job, turn, own);
      assert rows[|rows| - 1] in rows;
      assert i == |rows| - 1;
    }
  }

  lemma NoneAfterOwn(history: seq<Row>, rows: seq<Row>, job: JobKey, turn: JobKey, own: Row)
    requires own.job == Some(job)
    requires forall r | r in history && r != own :: r.job.Some? && r.job.value != job
    requires forall r: Row :: multiset(rows)[r] == if Concerns(r, job, turn) then multiset(history)[r] else 0
    ensures forall r | r in rows :: !GroupsBefore(own, r)
  {
    forall r | r in rows ensures !GroupsBefore(own, r) {
      assert r in multiset(rows);
      assert r in multiset(history);
    }
  }

  /** Messages without a job do not fall between the two jobs' turns and keys; it holds of every history whose
      messages are all linked. */
  ghost predicate NoneBetween(history: seq<Row>, first: JobKey, firstTurn: JobKey, secondTurn: JobKey) {
    forall r | r in history && r.job.None? ::
      && (KeyUpTo(GroupOf(r), firstTurn) <==> KeyUpTo(GroupOf(r), first))
      && (KeyUpTo(GroupOf(r), first) ==> KeyUpTo(GroupOf(r), secondTurn))
  }

  /** Ordered rows split at a group key: those up to it come first. */
  lemma {:induction false} SplitAt(rows: seq<Row>, job: JobKey) returns (n: nat)
    requires Ordered(Before, rows)
    ensures n <= |rows|
    ensures forall i | 0 <= i < |rows| :: KeyUpTo(GroupOf(rows[i]), job) <==> i < n
  {
    n := 0;
    while n < |rows| && KeyUpTo(GroupOf(rows[n]), job)
      invariant n <= |rows|
      invariant forall i | 0 <= i < n :: KeyUpTo(GroupOf(rows[i]), job)
    {
      n := n + 1;
    }
    forall i | n <= i < |rows|
      ensures !KeyUpTo(GroupOf(rows[i]), job)
    {
      if n < i {
        assert Before(rows[n], rows[i]);
      }
    }
  }

  lemma PrefixCount(rows: seq<Row>, n: nat, job: JobKey, r: Row)
    requires n <= |rows|
    requires forall i | 0 <= i < |rows| :: KeyUpTo(GroupOf(rows[i]), job) <==> i < n
    ensures multiset(rows[..n])[r] == if KeyUpTo(GroupOf(r), job) then multiset(rows)[r] else 0
  {
    assert rows == rows[..n] + rows[n..];
    if KeyUpTo(GroupOf(r), job) {
      assert r !in rows[n..];
      assert multiset(rows[n..])[r] == 0;
    } else {
      assert r !in rows[..n];
    }
  }

  /** What an earlier job has in scope is the part of a later job's scope up to the earlier job. */
  lemma EarlierScope(history: seq<Row>, first: JobKey, firstTurn: JobKey, second: JobKey, secondTurn: JobKey, r: Row)
    requires NoneBetween(history, first, firstTurn, secondTurn) && KeyUpTo(first, second)
    ensures multiset(Scoped(history, first, firstTurn))[r]
         == if KeyUpTo(GroupOf(r), first) then multiset(Scoped(history, second, secondTurn))[r] else 0
  {
    ScopedCount(history, first, firstTurn, r);
    ScopedCount(history, second, secondTurn, r);
    if multiset(history)[r] > 0 {
      assert r in history;
    }
  }

  lemma PrefixHasSameRows(history: seq<Row>, first: JobKey, firstTurn: JobKey, second: JobKey, secondTurn: JobKey,
                          sorted: seq<Row>, n: nat)
    requires NoneBetween(history, first, firstTurn, secondTurn) && KeyUpTo(first, second)
    requires multiset(sorted) == multiset(Scoped(history, second, secondTurn))
    requires n <= |sorted|
    requires forall i | 0 <= i < |sorted| :: KeyUpTo(GroupOf(sorted[i]), first) <==> i < n
    ensures multiset(sorted[..n]) == multiset(Scoped(history, first, firstTurn))
  {
    forall r: Row
      ensures multiset(sorted[..n])[r] == multiset(Scoped(history, first, firstTurn))[r]
    {
      PrefixCount(sorted, n, first, r);
      EarlierScope(history, first, firstTurn, second, secondTurn, r);
    }
  }

  lemma OrderedPrefix(rows: seq<Row>, n: nat)
    requires Ordered(Before, rows) && n <= |rows|
    ensures Ordered(Before, rows[..n])
  {
  }

  lemma EarlierRowsArePrefix(history: seq<Row>, first: JobKey, firstTurn: JobKey, second: JobKey, secondTurn: JobKey)
    returns (n: nat)
    requires DistinctRows(history) && NoneBetween(history, first, firstTurn, secondTurn)
    requires KeyUpTo(first, second)
    ensures n <= |Sort(Before, Scoped(history, second, secondTurn))|
    ensures Sort(Before, Scoped(history, first, firstTurn)) == Sort(Before, Scoped(history, second, secondTurn))[..n]
  {
    ScopedIsDistinct(history, first, firstTurn);
    ScopedIsDistinct(history, second, secondTurn);
    SortSorts(Scoped(history, first, firstTurn));
    SortSorts(Scoped(history, second, secondTurn));
    var sorted := Sort(Before, Scoped(history, second, secondTurn));
    n := SplitAt(sorted, first);
    PrefixHasSameRows(history, first, firstTurn, second, secondTurn, sorted, n);
    OrderedPrefix(sorted, n);
    BeforeIsStrict();
    OrderedIsUnique(Before, Sort(Before, Scoped(history, first, firstTurn)), sorted[..n]);
  }

  /** Over the same stored messages an earlier job's context is a prefix of a later job's: always when every message
      is linked to a job, and otherwise when no unlinked one falls between. */
  lemma EarlierContextIsPrefix(history: seq<Row>, first: JobKey, firstTurn: JobKey, second: JobKey, secondTurn: JobKey)
    requires DistinctRows(history) && NoneBetween(history, first, firstTurn, secondTurn)
    requires KeyUpTo(first, second)
    ensures Context(history, first, firstTurn) <= Context(history, second, secondTurn)
  {
    var n := EarlierRowsArePrefix(history, first, firstTurn, second, secondTurn);
    var late := Sort(Before, Scoped(history, second, secondTurn));
    assert forall i | 0 <= i < n :: late[..n][i] == late[i];
  }

  lemma LinkedHistoryHasNoneBetween(history: seq<Row>, first: JobKey, firstTurn: JobKey, secondTurn: JobKey)
    requires forall r | r in history :: r.job.Some?
    ensures NoneBetween(history, first, firstTurn, secondTurn)
  {
  }
}
