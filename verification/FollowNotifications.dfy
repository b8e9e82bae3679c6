/** Turning the new posts and stories of followed characters into notifications, up to a limit and never twice. */
module FollowNotifications {
  import opened Prelude
  import opened Sorting

  const SYNC_LIMIT: nat := 50

  /** A post or a story. Times are microseconds, as the database keeps them; JavaScript dates keep milliseconds. */
  datatype Item = Item(post: bool, id: nat, character: nat, at: int, expiresAt: int)

  /** A notification row, by what it points at. */
  datatype Note = Note(post: bool, id: nat)

  function NoteOf(x: Item): Note {
    Note(x.post, x.id)
  }

  /** `follows` holds each followed character's watermark; `notes` are the notifications of the one user modelled. */
  datatype Tables = Tables(posts: seq<Item>, stories: seq<Item>, follows: map<nat, int>, active: set<nat>,
                           notes: seq<Note>)

  function Ms(t: int): int {
    t / 1000
  }

  /** A time as a JavaScript date carries it. */
  function Floor(t: int): int {
    1000 * Ms(t)
  }

  // ----- what a sync selects

  function Followed(t: Tables): set<nat> {
    set c | c in t.follows && c in t.active
  }

  predicate Unseen(t: Tables, x: Item, synced: int) {
    && x.character in Followed(t)
    && Floor(t.follows[x.character]) < x.at <= synced
    && (!x.post ==> x.expiresAt > synced)
  }

  function Matching(t: Tables, rows: seq<Item>, synced: int): seq<Item> {
    if rows == [] then []
    else
      var n := |rows| - 1;
      Matching(t, rows[..n], synced) + if Unseen(t, rows[n], synced) then [rows[n]] else []
  }

  /** ORDER BY created_at DESC, id DESC. */
  predicate RowBefore(a: Item, b: Item) {
    a.at > b.at || (a.at == b.at && a.id > b.id)
  }

  /** The comparator of the merge, which sees milliseconds only. */
  predicate Later(a: Item, b: Item) {
    Ms(a.at) > Ms(b.at)
  }

  function First(rows: seq<Item>, n: nat): seq<Item> {
    if |rows| <= n then rows else rows[..n]
  }

  /** One query: the newest matching rows, one more than can be used. */
  function Query(t: Tables, rows: seq<Item>, synced: int): seq<Item> {
    First(Sort(RowBefore, Matching(t, rows, synced)), SYNC_LIMIT + 1)
  }

  function Candidates(t: Tables, synced: int): seq<Item> {
    Sort(Later, Query(t, t.posts, synced) + Query(t, t.stories, synced))
  }

  function NotesOf(xs: seq<Item>): (notes: seq<Note>)
    ensures |notes| == |xs|
    ensures forall i | 0 <= i < |xs| :: notes[i] == NoteOf(xs[i])
  {
    seq(|xs|, i requires 0 <= i < |xs| => NoteOf(xs[i]))
  }

  datatype Report = Report(created: nat, truncated: bool)

  function Moved(follows: map<nat, int>, followed: set<nat>, synced: int): map<nat, int> {
    map c | c in follows :: if c in followed then synced else follows[c]
  }

  function Sync(t: Tables, clock: int): (Tables, Report) {
    if Followed(t) == {} then (t, Report(0, false))
    else
      var synced := Floor(clock);
      var candidates := Candidates(t, synced);
      var selected := First(candidates, SYNC_LIMIT);
      (t.(notes := t.notes + NotesOf(selected), follows := Moved(t.follows, Followed(t), synced)),
       Report(|selected|, |candidates| > SYNC_LIMIT))
  }

  class NotificationsService {
    var posts: seq<Item>
    var stories: seq<Item>
    var follows: map<nat, int>
    var active: set<nat>
    var notifications: seq<Note>

    constructor (posts: seq<Item>, stories: seq<Item>, follows: map<nat, int>, active: set<nat>)
      ensures Contents() == Tables(posts, stories, follows, active, [])
    {
      this.posts, this.stories, this.follows, this.active, notifications := posts, stories, follows, active, [];
    }

    function Contents(): Tables
      reads this
    {
      Tables(posts, stories, follows, active, notifications)
    }

    method SyncFollowNotifications(clock: int) returns (report: Report)
      modifies `notifications, `follows
      ensures (Contents(), report) == Sync(old(Contents()), clock)
    {
      var tables := Contents();
      var followed := Followed(tables);
      if followed == {} {
        return Report(0, false);
      }
      var synced := Floor(clock);
      var postRows := Query(tables, posts, synced);
      var storyRows := Query(tables, stories, synced);
      var candidates := Sort(Later, postRows + storyRows);
      var truncated := |candidates| > SYNC_LIMIT;
      var selected := First(candidates, SYNC_LIMIT);
      if |selected| > 0 {
        notifications := notifications + NotesOf(selected);
      }
      assert tables.notes + [] == tables.notes;
      follows := Moved(follows, followed, synced);
      return Report(|selected|, truncated);
    }
  }

  // ----- sorting

  /** Newest first by the millisecond, posts ahead of stories, then by the database's own order. */
  predicate MergeBefore(a: Item, b: Item) {
    || Later(a, b)
    || (Ms(a.at) == Ms(b.at) && if a.post != b.post then a.post else RowBefore(a, b))
  }

  lemma MergeIsStrict()
    ensures Strict(MergeBefore)
  {
  }

  lemma MergeSorts(less: (Item, Item) -> bool, rows: seq<Item>)
    requires Leads(less, MergeBefore, rows)
    ensures Ordered(MergeBefore, Sort(less, rows))
  {
    MergeIsStrict();
    SortOrders(less, MergeBefore, rows);
  }

  lemma MergeIndex(a: seq<Item>, f: seq<Item>, k: nat, i: nat)
    requires Ordered(MergeBefore, a) && Ordered(MergeBefore, f) && (forall x | x in a :: x in f)
    requires k < |a| && i < |f| && a[k] == f[i]
    ensures k <= i
  {
    MergeIsStrict();
    EmbeddedIndex(MergeBefore, a, f, k, i);
  }

  lemma MergePrefix(a: seq<Item>, f: seq<Item>, m: nat)
    requires Ordered(MergeBefore, a) && Ordered(MergeBefore, f) && (forall x | x in a :: x in f)
    requires m <= |f| && (forall x | x in f[..m] :: x in a)
    ensures m <= |a| && a[..m] == f[..m]
  {
    MergeIsStrict();
    PrefixAgrees(MergeBefore, a, f, m);
  }

  // ----- the selection is the head of the full merge

  ghost predicate Kind(rows: seq<Item>, post: bool) {
    forall x | x in rows :: x.post == post
  }

  ghost predicate DistinctIds(rows: seq<Item>) {
    forall i, j | 0 <= i < j < |rows| :: rows[i].id != rows[j].id
  }

  ghost predicate WellFormed(t: Tables) {
    Kind(t.posts, true) && Kind(t.stories, false) && DistinctIds(t.posts) && DistinctIds(t.stories)
  }

  /** The reference: every unseen post and every unseen live story, in one list. */
  function FullMerge(t: Tables, synced: int): seq<Item> {
    Sort(MergeBefore, Matching(t, t.posts, synced) + Matching(t, t.stories, synced))
  }

  lemma {:induction false} MatchingRows(t: Tables, rows: seq<Item>, synced: int)
    ensures forall x :: x in Matching(t, rows, synced) <==> x in rows && Unseen(t, x, synced)
    ensures DistinctIds(rows) ==> DistinctIds(Matching(t, rows, synced))
  {
    if rows != [] {
      var n := |rows| - 1;
      MatchingRows(t, rows[..n], synced);
      assert rows == rows[..n] + [rows[n]];
      if DistinctIds(rows) {
        var kept := Matching(t, rows[..n], synced);
        forall i | 0 <= i < |kept| ensures kept[i].id != rows[n].id {
          assert kept[i] in rows[..n];
        }
      }
    }
  }

  lemma SourceRows(t: Tables, rows: seq<Item>, synced: int)
    ensures forall x :: x in Sort(RowBefore, Matching(t, rows, synced)) <==> x in rows && Unseen(t, x, synced)
  {
    MatchingRows(t, rows, synced);
    SortKeepsMembers(RowBefore, Matching(t, rows, synced));
  }

  /** On rows of one kind the database's order is the merge order. */
  lemma RowsLead(rows: seq<Item>, post: bool)
    requires Kind(rows, post) && DistinctIds(rows)
    ensures Leads(RowBefore, MergeBefore, rows)
  {
    forall i, j | 0 <= i < |rows| && 0 <= j < |rows| && RowBefore(rows[i], rows[j])
      ensures MergeBefore(rows[i], rows[j])
    {
      assert rows[i] in rows && rows[j] in rows;
    }
    forall i, j | 0 <= i < j < |rows| && !RowBefore(rows[j], rows[i])
      ensures MergeBefore(rows[i], rows[j])
    {
      assert RowBefore(rows[i], rows[j]);
    }
  }

  /** A query is the head of one source in merge order. */
  lemma QueryOrdered(t: Tables, rows: seq<Item>, synced: int, post: bool)
    requires Kind(rows, post) && DistinctIds(rows)
    ensures Ordered(MergeBefore, Sort(RowBefore, Matching(t, rows, synced)))
    ensures Kind(Sort(RowBefore, Matching(t, rows, synced)), post)
    ensures Ordered(MergeBefore, Query(t, rows, synced)) && Kind(Query(t, rows, synced), post)
  {
    MatchingRows(t, rows, synced);
    RowsLead(Matching(t, rows, synced), post);
    MergeSorts(RowBefore, Matching(t, rows, synced));
    SourceRows(t, rows, synced);
  }

  /** Posts in order followed by stories in order: the sort by milliseconds ties only rows already in merge order. */
  lemma MergeLeads(posts: seq<Item>, stories: seq<Item>)
    requires Ordered(MergeBefore, posts) && Ordered(MergeBefore, stories) && Kind(posts, true) && Kind(stories, false)
    ensures Leads(Later, MergeBefore, posts + stories)
  {
    var rows := posts + stories;
    forall i, j | 0 <= i < j < |rows| && !Later(rows[j], rows[i])
      ensures MergeBefore(rows[i], rows[j])
    {
      if i < |posts| && |posts| <= j {
        assert rows[i] in posts && rows[j] in stories;
      } else if i >= |posts| {
        assert MergeBefore(stories[i - |posts|], stories[j - |posts|]);
      }
    }
  }

  lemma FullMergeOrdered(t: Tables, synced: int)
    requires WellFormed(t)
    ensures Ordered(MergeBefore, FullMerge(t, synced))
    ensures |FullMerge(t, synced)| == |Matching(t, t.posts, synced)| + |Matching(t, t.stories, synced)|
    ensures forall x :: x in FullMerge(t, synced) <==>
              (x in t.posts || x in t.stories) && Unseen(t, x, synced)
  {
    var posts, stories := Matching(t, t.posts, synced), Matching(t, t.stories, synced);
    MatchingRows(t, t.posts, synced);
    MatchingRows(t, t.stories, synced);
    DistinctLead(posts, stories);
    MergeSorts(MergeBefore, posts + stories);
    SortKeepsMembers(MergeBefore, posts + stories);
  }

  lemma DistinctLead(posts: seq<Item>, stories: seq<Item>)
    requires Kind(posts, true) && Kind(stories, false) && DistinctIds(posts) && DistinctIds(stories)
    ensures Leads(MergeBefore, MergeBefore, posts + stories)
  {
    var rows := posts + stories;
    forall i, j | 0 <= i < j < |rows|
      ensures MergeBefore(rows[i], rows[j]) || MergeBefore(rows[j], rows[i])
    {
      if j < |posts| {
        assert rows[i] == posts[i] && rows[j] == posts[j];
        assert posts[i] in posts && posts[j] in posts;
      } else if i < |posts| {
        assert rows[i] in posts && rows[j] in stories;
      } else {
        assert rows[i] == stories[i - |posts|] && rows[j] == stories[j - |posts|];
        assert stories[i - |posts|] in stories && stories[j - |posts|] in stories;
      }
    }
  }

  lemma CandidatesOrdered(t: Tables, synced: int)
    requires WellFormed(t)
    ensures Ordered(MergeBefore, Candidates(t, synced))
    ensures forall x :: x in Candidates(t, synced) <==>
              x in Query(t, t.posts, synced) || x in Query(t, t.stories, synced)
    ensures |Candidates(t, synced)| == |Query(t, t.posts, synced)| + |Query(t, t.stories, synced)|
  {
    var posts, stories := Query(t, t.posts, synced), Query(t, t.stories, synced);
    QueryOrdered(t, t.posts, synced, true);
    QueryOrdered(t, t.stories, synced, false);
    MergeLeads(posts, stories);
    MergeSorts(Later, posts + stories);
    SortKeepsMembers(Later, posts + stories);
  }

  lemma FullHasSource(t: Tables, rows: seq<Item>, synced: int)
    requires WellFormed(t) && (rows == t.posts || rows == t.stories)
    ensures forall x | x in Sort(RowBefore, Matching(t, rows, synced)) :: x in FullMerge(t, synced)
    ensures forall x | x in FullMerge(t, synced) && x in rows :: x in Sort(RowBefore, Matching(t, rows, synced))
  {
    SourceRows(t, rows, synced);
    FullMergeOrdered(t, synced);
  }

  /** A row among the first 51 of the full merge is among the first 51 of its own source. */
  lemma HeadIsQueried(t: Tables, rows: seq<Item>, synced: int, post: bool, i: nat)
    requires WellFormed(t) && rows == (if post then t.posts else t.stories)
    requires i < |FullMerge(t, synced)| && i <= SYNC_LIMIT
    requires FullMerge(t, synced)[i] in rows
    ensures FullMerge(t, synced)[i] in Query(t, rows, synced)
  {
    var f := FullMerge(t, synced);
    var source := Sort(RowBefore, Matching(t, rows, synced));
    FullHasSource(t, rows, synced);
    assert f[i] in f;
    var k :| 0 <= k < |source| && source[k] == f[i];
    OrderedBoth(t, synced);
    QueryOrdered(t, rows, synced, post);
    MergeIndex(source, f, k, i);
    assert source[k] == First(source, SYNC_LIMIT + 1)[k];
  }

  lemma QueriedIsUnseen(t: Tables, rows: seq<Item>, synced: int, x: Item)
    requires x in Query(t, rows, synced)
    ensures x in rows && Unseen(t, x, synced)
  {
    SourceRows(t, rows, synced);
  }

  lemma QuerySize(t: Tables, rows: seq<Item>, synced: int)
    ensures |Query(t, rows, synced)| == Min(|Matching(t, rows, synced)|, SYNC_LIMIT + 1)
  {
    SortKeepsMembers(RowBefore, Matching(t, rows, synced));
  }

  lemma CandidatesAreInFull(t: Tables, synced: int, x: Item)
    requires WellFormed(t) && x in Candidates(t, synced)
    ensures x in FullMerge(t, synced)
  {
    CandidatesOrdered(t, synced);
    FullMergeOrdered(t, synced);
    if x in Query(t, t.posts, synced) {
      QueriedIsUnseen(t, t.posts, synced, x);
    } else {
      QueriedIsUnseen(t, t.stories, synced, x);
    }
  }

  lemma HeadIsInCandidates(t: Tables, synced: int, i: nat)
    requires WellFormed(t) && i < |FullMerge(t, synced)| && i <= SYNC_LIMIT
    ensures FullMerge(t, synced)[i] in Candidates(t, synced)
  {
    var x := FullMerge(t, synced)[i];
    FullMergeOrdered(t, synced);
    CandidatesOrdered(t, synced);
    assert x in FullMerge(t, synced);
    if x in t.posts {
      HeadIsQueried(t, t.posts, synced, true, i);
    } else {
      HeadIsQueried(t, t.stories, synced, false, i);
    }
  }

  lemma CandidatesTruncateTogether(t: Tables, synced: int)
    requires WellFormed(t)
    ensures |Candidates(t, synced)| > SYNC_LIMIT <==> |FullMerge(t, synced)| > SYNC_LIMIT
    ensures |Candidates(t, synced)| <= |FullMerge(t, synced)|
    ensures |FullMerge(t, synced)| <= SYNC_LIMIT ==> |Candidates(t, synced)| == |FullMerge(t, synced)|
  {
    CandidatesOrdered(t, synced);
    FullMergeOrdered(t, synced);
    QuerySize(t, t.posts, synced);
    QuerySize(t, t.stories, synced);
  }

  /** Although each source is cut to 51 rows and merged by the millisecond, a sync selects exactly the first 50 of the
      full merge of all unseen posts and live stories, and reports truncation exactly when there are more than 50. */
  lemma SelectsHeadOfFullMerge(t: Tables, synced: int)
    requires WellFormed(t)
    ensures First(Candidates(t, synced), SYNC_LIMIT) == First(FullMerge(t, synced), SYNC_LIMIT)
    ensures |Candidates(t, synced)| > SYNC_LIMIT <==> |FullMerge(t, synced)| > SYNC_LIMIT
  {
    CandidatesTruncateTogether(t, synced);
    var a, f := Candidates(t, synced), FullMerge(t, synced);
    var m := Min(|f|, SYNC_LIMIT);
    forall x | x in a ensures x in f {
      CandidatesAreInFull(t, synced, x);
    }
    forall x | x in f[..m] ensures x in a {
      var i :| 0 <= i < m && f[..m][i] == x;
      HeadIsInCandidates(t, synced, i);
    }
    OrderedBoth(t, synced);
    MergePrefix(a, f, m);
  }

  lemma OrderedBoth(t: Tables, synced: int)
    requires WellFormed(t)
    ensures Ordered(MergeBefore, Candidates(t, synced)) && Ordered(MergeBefore, FullMerge(t, synced))
  {
    CandidatesOrdered(t, synced);
    FullMergeOrdered(t, synced);
  }

  lemma {:induction false} NothingFollowed(t: Tables, rows: seq<Item>, synced: int)
    requires Followed(t) == {}
    ensures Matching(t, rows, synced) == []
  {
    if rows != [] {
      NothingFollowed(t, rows[..|rows| - 1], synced);
    }
  }

  /** What one sync writes and reports, against the full merge. */
  lemma SyncMatchesFullMerge(t: Tables, clock: int)
    requires WellFormed(t)
    ensures var (after, report) := Sync(t, clock);
            var full := FullMerge(t, Floor(clock));
            && after.notes == t.notes + NotesOf(First(full, 50))
            && report.created == Min(|full|, 50)
            && (report.truncated <==> |full| > 50)
  {
    if Followed(t) == {} {
      NothingFollowed(t, t.posts, Floor(clock));
      NothingFollowed(t, t.stories, Floor(clock));
      assert t.notes + [] == t.notes;
    } else {
      SelectsHeadOfFullMerge(t, Floor(clock));
    }
  }

  predicate Published(t: Tables, x: Item) {
    x in t.posts || x in t.stories
  }

  /** A sync that reports no truncation leaves no unseen post or live story without a notification. */
  lemma UntruncatedSyncMissesNothing(t: Tables, clock: int, x: Item)
    requires WellFormed(t) && !Sync(t, clock).1.truncated
    requires Published(t, x) && Unseen(t, x, Floor(clock))
    ensures NoteOf(x) in Sync(t, clock).0.notes
  {
    var full := FullMerge(t, Floor(clock));
    SyncMatchesFullMerge(t, clock);
    FullMergeOrdered(t, Floor(clock));
    var i :| 0 <= i < |full| && full[i] == x;
    assert NotesOf(full)[i] == NoteOf(x);
  }

  /** Whatever a sync notifies is a post or live story of a followed, active character, later than that character's last
      sync and not later than this one. */
  lemma SyncNotifiesOnlyNew(t: Tables, clock: int, i: nat) returns (x: Item)
    requires WellFormed(t) && |t.notes| <= i < |Sync(t, clock).0.notes|
    ensures Published(t, x) && Sync(t, clock).0.notes[i] == NoteOf(x)
    ensures x.character in t.follows && x.character in t.active
    ensures Floor(t.follows[x.character]) < x.at <= Floor(clock)
    ensures x in t.posts || x.expiresAt > Floor(clock)
  {
    var full := FullMerge(t, Floor(clock));
    SyncMatchesFullMerge(t, clock);
    FullMergeOrdered(t, Floor(clock));
    x := full[i - |t.notes|];
    assert x in full;
  }

  /** A sync keeps the notifications there are, moves the watermarks of followed active characters to its time, and
      changes nothing else. */
  lemma SyncMovesExactly(t: Tables, clock: int)
    ensures var after := Sync(t, clock).0;
            && after == t.(notes := after.notes, follows := after.follows)
            && |t.notes| <= |after.notes| && after.notes[..|t.notes|] == t.notes
            && after.follows.Keys == t.follows.Keys
            && forall c | c in t.follows ::
                 after.follows[c] == if c in t.active then Floor(clock) else t.follows[c]
  {
    if Followed(t) == {} {
      forall c | c in t.follows ensures c !in t.active {
        assert c !in Followed(t);
      }
    }
  }

  // ----- runs

  datatype State = State(tables: Tables, now: int)

  /** Publications come from another service, with any time; the other steps are the user's. */
  datatype Step =
    | DoPublish(item: Item)
    | DoFollow(character: nat)
    | DoUnfollow(character: nat)
    | DoActivate(character: nat)
    | DoDeactivate(character: nat)
    | DoSync
    | DoTick(to: int)

  predicate Enabled(s: State, step: Step) {
    match step
    case DoPublish(item) =>
      forall x | x in (if item.post then s.tables.posts else s.tables.stories) :: x.id != item.id
    case DoTick(to) => s.now <= to
    case _ => true
  }

  function Publish(t: Tables, item: Item): Tables {
    if item.post then t.(posts := t.posts + [item]) else t.(stories := t.stories + [item])
  }

  /** Following again keeps the row; the row of a first follow starts at the present. */
  function Follow(t: Tables, character: nat, now: int): Tables {
    if character in t.follows then t else t.(follows := t.follows[character := now])
  }

  function Next(s: State, step: Step): State {
    match step
    case DoPublish(item) => s.(tables := Publish(s.tables, item))
    case DoFollow(c) => s.(tables := Follow(s.tables, c, s.now))
    case DoUnfollow(c) => s.(tables := s.tables.(follows := s.tables.follows - {c}))
    case DoActivate(c) => s.(tables := s.tables.(active := s.tables.active + {c}))
    case DoDeactivate(c) => s.(tables := s.tables.(active := s.tables.active - {c}))
    case DoSync => s.(tables := Sync(s.tables, s.now).0)
    case DoTick(to) => s.(now := to)
  }

  ghost predicate Run(s: State, steps: seq<Step>, z: State)
    decreases |steps|
  {
    if steps == [] then s == z
    else Enabled(s, steps[0]) && Run(Next(s, steps[0]), steps[1..], z)
  }

  ghost predicate NoRepeats(notes: seq<Note>) {
    forall i, j | 0 <= i < j < |notes| :: notes[i] != notes[j]
  }

  /** Whatever has been notified lies behind the clock and behind the watermark of its character. */
  ghost predicate Behind(t: Tables, now: int) {
    forall x | Published(t, x) && NoteOf(x) in t.notes ::
      x.at <= Floor(now) && (x.character in t.follows ==> x.at <= Floor(t.follows[x.character]))
  }

  ghost predicate Backed(t: Tables) {
    forall n | n in t.notes :: exists x :: Published(t, x) && NoteOf(x) == n
  }

  ghost predicate Good(s: State) {
    WellFormed(s.tables) && NoRepeats(s.tables.notes) && Behind(s.tables, s.now) && Backed(s.tables)
  }

  lemma FloorMonotone(t: int, u: int)
    requires t <= u
    ensures Floor(t) <= Floor(u)
  {
  }

  lemma NoteNamesItem(t: Tables, x: Item, y: Item)
    requires WellFormed(t) && Published(t, x) && Published(t, y) && NoteOf(x) == NoteOf(y)
    ensures x == y
  {
    if x.post {
      OneRow(t.posts, x, y);
    } else {
      OneRow(t.stories, x, y);
    }
  }

  lemma OneRow(rows: seq<Item>, x: Item, y: Item)
    requires DistinctIds(rows) && x in rows && y in rows && x.id == y.id
    ensures x == y
  {
    var i :| 0 <= i < |rows| && rows[i] == x;
    var j :| 0 <= j < |rows| && rows[j] == y;
    if i < j {
      assert rows[i].id != rows[j].id;
    }
  }

  /** What a sync selects is unseen, and no two of the selected are the same. */
  lemma SelectedRows(t: Tables, synced: int, i: nat)
    requires WellFormed(t) && i < |First(Candidates(t, synced), SYNC_LIMIT)|
    ensures var selected := First(Candidates(t, synced), SYNC_LIMIT);
            && Published(t, selected[i]) && Unseen(t, selected[i], synced)
            && forall j | 0 <= j < i :: selected[j] != selected[i]
  {
    CandidatesOrdered(t, synced);
    var x := Candidates(t, synced)[i];
    assert x in Candidates(t, synced);
    if x in Query(t, t.posts, synced) {
      QueriedIsUnseen(t, t.posts, synced, x);
    } else {
      QueriedIsUnseen(t, t.stories, synced, x);
    }
  }

  /** A selected row has no notification yet. */
  lemma SelectedIsNew(s: State, i: nat)
    requires Good(s) && i < |First(Candidates(s.tables, Floor(s.now)), SYNC_LIMIT)|
    ensures NoteOf(First(Candidates(s.tables, Floor(s.now)), SYNC_LIMIT)[i]) !in s.tables.notes
  {
    SelectedRows(s.tables, Floor(s.now), i);
  }

  lemma SelectedNotesDiffer(t: Tables, synced: int, i: nat, j: nat)
    requires WellFormed(t) && j < i < |First(Candidates(t, synced), SYNC_LIMIT)|
    ensures NoteOf(First(Candidates(t, synced), SYNC_LIMIT)[j]) != NoteOf(First(Candidates(t, synced), SYNC_LIMIT)[i])
  {
    var selected := First(Candidates(t, synced), SYNC_LIMIT);
    SelectedRows(t, synced, i);
    SelectedRows(t, synced, j);
    if NoteOf(selected[j]) == NoteOf(selected[i]) {
      NoteNamesItem(t, selected[j], selected[i]);
    }
  }

  lemma SyncKeepsNoRepeats(s: State)
    requires Good(s)
    ensures NoRepeats(Next(s, DoSync).tables.notes)
  {
    if Followed(s.tables) != {} {
      var selected := First(Candidates(s.tables, Floor(s.now)), SYNC_LIMIT);
      forall i | 0 <= i < |selected| ensures NotesOf(selected)[i] !in s.tables.notes {
        SelectedIsNew(s, i);
      }
      forall j, i | 0 <= j < i < |selected| ensures NotesOf(selected)[j] != NotesOf(selected)[i] {
        SelectedNotesDiffer(s.tables, Floor(s.now), i, j);
      }
    }
  }

  lemma SelectedNote(t: Tables, synced: int, n: Note) returns (x: Item)
    requires WellFormed(t) && n in NotesOf(First(Candidates(t, synced), SYNC_LIMIT))
    ensures Published(t, x) && Unseen(t, x, synced) && NoteOf(x) == n
  {
    var selected := First(Candidates(t, synced), SYNC_LIMIT);
    var i :| 0 <= i < |selected| && NotesOf(selected)[i] == n;
    SelectedRows(t, synced, i);
    x := selected[i];
  }

  lemma SyncKeepsBehind(s: State)
    requires Good(s)
    ensures Behind(Next(s, DoSync).tables, s.now) && Backed(Next(s, DoSync).tables)
  {
    var t, z := s.tables, Next(s, DoSync).tables;
    if Followed(t) != {} {
      var notes := NotesOf(First(Candidates(t, Floor(s.now)), SYNC_LIMIT));
      forall x | Published(z, x) && NoteOf(x) in z.notes
        ensures x.at <= Floor(s.now) && (x.character in z.follows ==> x.at <= Floor(z.follows[x.character]))
      {
        if NoteOf(x) !in t.notes {
          assert NoteOf(x) in notes;
          var y := SelectedNote(t, Floor(s.now), NoteOf(x));
          NoteNamesItem(t, x, y);
        }
      }
      forall n | n in z.notes ensures exists x :: Published(z, x) && NoteOf(x) == n {
        if n in t.notes {
          var x :| Published(t, x) && NoteOf(x) == n;
          assert Published(z, x);
        } else {
          var y := SelectedNote(t, Floor(s.now), n);
          assert Published(z, y);
        }
      }
    }
  }

  lemma PublishKeepsGood(s: State, item: Item)
    requires Good(s) && Enabled(s, DoPublish(item))
    ensures Good(Next(s, DoPublish(item)))
  {
    var t, z := s.tables, Next(s, DoPublish(item)).tables;
    forall n | n in z.notes ensures exists x :: Published(z, x) && NoteOf(x) == n {
      var x :| Published(t, x) && NoteOf(x) == n;
      assert Published(z, x);
    }
  }

  lemma QuietKeepsGood(s: State, step: Step)
    requires Good(s) && Enabled(s, step) && !step.DoPublish? && !step.DoSync?
    ensures Good(Next(s, step))
  {
    var z := Next(s, step);
    FloorMonotone(s.now, z.now);
    forall n | n in z.tables.notes ensures exists x :: Published(z.tables, x) && NoteOf(x) == n {
      var x :| Published(s.tables, x) && NoteOf(x) == n;
      assert Published(z.tables, x);
    }
  }

  lemma StepKeepsGood(s: State, step: Step)
    requires Good(s) && Enabled(s, step)
    ensures Good(Next(s, step))
  {
    match step
    case DoPublish(item) => PublishKeepsGood(s, item);
    case DoSync =>
      SyncKeepsNoRepeats(s);
      SyncKeepsBehind(s);
    case _ => QuietKeepsGood(s, step);
  }

  lemma {:induction false} GoodOverRuns(s: State, steps: seq<Step>, z: State)
    requires Good(s) && Run(s, steps, z)
    ensures Good(z)
    decreases |steps|
  {
    if steps != [] {
      StepKeepsGood(s, steps[0]);
      GoodOverRuns(Next(s, steps[0]), steps[1..], z);
    }
  }

  /** Over any run of syncs, follows, unfollows and publications under a clock that does not go back, no post or story
      is notified twice, not even after its character was unfollowed and followed again. */
  lemma NotifiedOnceOverRuns(now: int, steps: seq<Step>, z: State, i: nat, j: nat)
    requires Run(State(Tables([], [], map[], {}, []), now), steps, z)
    requires i < j < |z.tables.notes|
    ensures z.tables.notes[i] != z.tables.notes[j]
  {
    GoodOverRuns(State(Tables([], [], map[], {}, []), now), steps, z);
  }

  // ----- nothing is lost

  /** The run watches over an item from the clock `since` of the last sync or first follow on: its character stays
      followed and active; the item is published with a later time than that; and every sync that reaches its time is
      not truncated and, for a story, finds it not expired. */
  ghost predicate Watched(s: State, steps: seq<Step>, x: Item, since: int, z: State)
    decreases |steps|
  {
    if steps == [] then s == z
    else
      && Enabled(s, steps[0])
      && steps[0] != DoUnfollow(x.character) && steps[0] != DoDeactivate(x.character)
      && (steps[0] == DoPublish(x) ==> Floor(since) < x.at)
      && (steps[0].DoSync? ==> Reaches(s, x))
      && Watched(Next(s, steps[0]), steps[1..], x, if steps[0].DoSync? then s.now else since, z)
  }

  /** A sync now comes before the item's time, or is not truncated and finds the item not expired. */
  ghost predicate Reaches(s: State, x: Item) {
    x.at <= Floor(s.now) ==> !Sync(s.tables, s.now).1.truncated && (x.post || x.expiresAt > Floor(s.now))
  }

  /** The item's character is followed from `since` on, and the item is still to come, or ahead, or notified. */
  ghost predicate Expected(s: State, x: Item, since: int) {
    && x.character in s.tables.follows && x.character in s.tables.active
    && Floor(s.tables.follows[x.character]) == Floor(since)
    && (Published(s.tables, x) ==> NoteOf(x) in s.tables.notes || Floor(since) < x.at)
  }

  lemma SyncMovesUp(s: State, c: nat)
    requires c in s.tables.follows && c in s.tables.active
    ensures var z := Next(s, DoSync);
            c in z.tables.follows && Floor(z.tables.follows[c]) == Floor(s.now) && z.tables.active == s.tables.active
  {
    assert c in Followed(s.tables);
  }

  /** A sync that reaches an item which is ahead of the last one notifies it. */
  lemma SyncCatches(s: State, x: Item, since: int)
    requires Good(s) && Expected(s, x, since) && Published(s.tables, x) && Reaches(s, x)
    requires x.at <= Floor(s.now)
    ensures NoteOf(x) in Next(s, DoSync).tables.notes
  {
    if NoteOf(x) in s.tables.notes {
      SyncMatchesFullMerge(s.tables, s.now);
    } else {
      UntruncatedSyncMissesNothing(s.tables, s.now, x);
    }
  }

  lemma SyncKeepsExpected(s: State, x: Item, since: int)
    requires Good(s) && Expected(s, x, since) && Reaches(s, x)
    ensures Expected(Next(s, DoSync), x, s.now)
  {
    SyncMovesUp(s, x.character);
    SyncMatchesFullMerge(s.tables, s.now);
    if Published(s.tables, x) && x.at <= Floor(s.now) {
      SyncCatches(s, x, since);
    }
  }

  lemma StepKeepsExpected(s: State, step: Step, x: Item, since: int)
    requires Good(s) && Expected(s, x, since) && Enabled(s, step) && !step.DoSync?
    requires step != DoUnfollow(x.character) && step != DoDeactivate(x.character)
    requires step == DoPublish(x) ==> Floor(since) < x.at
    requires Published(Next(s, step).tables, x) && !Published(s.tables, x) ==> step == DoPublish(x)
    ensures Expected(Next(s, step), x, since)
  {
  }

  lemma OnlyPublishPublishes(s: State, step: Step, x: Item)
    requires Enabled(s, step) && Published(Next(s, step).tables, x) && !Published(s.tables, x)
    ensures step == DoPublish(x)
  {
  }

  lemma {:induction false} ExpectedOverRuns(s: State, steps: seq<Step>, x: Item, since: int, z: State)
    returns (last: int)
    requires Good(s) && Expected(s, x, since) && Watched(s, steps, x, since, z)
    ensures Good(z) && Expected(z, x, last)
    decreases |steps|
  {
    if steps == [] {
      last := since;
    } else {
      var step, next := steps[0], Next(s, steps[0]);
      StepKeepsGood(s, step);
      if step.DoSync? {
        SyncKeepsExpected(s, x, since);
        last := ExpectedOverRuns(next, steps[1..], x, s.now, z);
      } else {
        if Published(next.tables, x) && !Published(s.tables, x) {
          OnlyPublishPublishes(s, step, x);
        }
        StepKeepsExpected(s, step, x, since);
        last := ExpectedOverRuns(next, steps[1..], x, since, z);
      }
    }
  }

  /** Over every run: once a followed, active character has been synced at some clock, whatever it then publishes with a
      later time is notified by the time the first untruncated sync reaches it, as long as it stays followed and active
      and no earlier sync that reached the item was truncated. */
  lemma NothingIsLost(s: State, steps: seq<Step>, x: Item, z: State)
    requires Good(s) && x.character in s.tables.follows && x.character in s.tables.active
    requires !Published(s.tables, x)
    requires Watched(Next(s, DoSync), steps, x, s.now, z)
    requires Published(z.tables, x) && x.at <= Floor(z.now) && (x.post || x.expiresAt > Floor(z.now))
    requires !Sync(z.tables, z.now).1.truncated
    ensures NoteOf(x) in Next(z, DoSync).tables.notes
  {
    var synced := Next(s, DoSync);
    StepKeepsGood(s, DoSync);
    SyncMovesUp(s, x.character);
    assert Expected(synced, x, s.now);
    var last := ExpectedOverRuns(synced, steps, x, s.now, z);
    SyncCatches(z, x, last);
  }

  /** The same from the first follow on; following again on the way changes nothing. */
  lemma NothingIsLostSinceFollow(s: State, steps: seq<Step>, x: Item, z: State)
    requires Good(s) && x.character !in s.tables.follows && x.character in s.tables.active
    requires !Published(s.tables, x)
    requires Watched(Next(s, DoFollow(x.character)), steps, x, s.now, z)
    requires Published(z.tables, x) && x.at <= Floor(z.now) && (x.post || x.expiresAt > Floor(z.now))
    requires !Sync(z.tables, z.now).1.truncated
    ensures NoteOf(x) in Next(z, DoSync).tables.notes
  {
    var followed := Next(s, DoFollow(x.character));
    StepKeepsGood(s, DoFollow(x.character));
    assert Expected(followed, x, s.now);
    var last := ExpectedOverRuns(followed, steps, x, s.now, z);
    SyncCatches(z, x, last);
  }

  // ----- what a sync passes over

  /** The item lies behind the clock and behind the watermark of its character. */
  ghost predicate Passed(s: State, x: Item) {
    && Published(s.tables, x) && x.at <= Floor(s.now)
    && (x.character in s.tables.follows ==> x.at <= Floor(s.tables.follows[x.character]))
  }

  lemma SyncKeepsPassed(s: State, x: Item)
    requires Good(s) && Passed(s, x)
    ensures Passed(Next(s, DoSync), x)
    ensures NoteOf(x) in Next(s, DoSync).tables.notes <==> NoteOf(x) in s.tables.notes
  {
    var t := s.tables;
    if Followed(t) != {} && NoteOf(x) in NotesOf(First(Candidates(t, Floor(s.now)), SYNC_LIMIT)) {
      var y := SelectedNote(t, Floor(s.now), NoteOf(x));
      NoteNamesItem(t, x, y);
      assert false;
    }
  }

  lemma StepKeepsPassed(s: State, step: Step, x: Item)
    requires Good(s) && Enabled(s, step) && Passed(s, x)
    ensures Passed(Next(s, step), x)
    ensures NoteOf(x) in Next(s, step).tables.notes <==> NoteOf(x) in s.tables.notes
  {
    if step.DoSync? {
      SyncKeepsPassed(s, x);
    } else {
      FloorMonotone(s.now, Next(s, step).now);
    }
  }

  lemma {:induction false} PassedOverRuns(s: State, steps: seq<Step>, x: Item, z: State)
    requires Good(s) && Run(s, steps, z) && Passed(s, x)
    ensures NoteOf(x) in z.tables.notes <==> NoteOf(x) in s.tables.notes
    decreases |steps|
  {
    if steps != [] {
      StepKeepsGood(s, steps[0]);
      StepKeepsPassed(s, steps[0], x);
      PassedOverRuns(Next(s, steps[0]), steps[1..], x, z);
    }
  }

  /** A sync decides for good: of all it finds, the newest fifty are notified, and whatever it cuts off is notified in
      no later state of any run, not even after its character was unfollowed and followed again. */
  lemma NowOrNever(s: State, i: nat, steps: seq<Step>, z: State)
    requires Good(s) && i < |FullMerge(s.tables, Floor(s.now))|
    requires Run(Next(s, DoSync), steps, z)
    ensures NoteOf(FullMerge(s.tables, Floor(s.now))[i]) in z.tables.notes <==> i < 50
  {
    var x := FullMerge(s.tables, Floor(s.now))[i];
    FullMergeOrdered(s.tables, Floor(s.now));
    assert x in FullMerge(s.tables, Floor(s.now));
    StepKeepsGood(s, DoSync);
    SyncMovesUp(s, x.character);
    NotifiedNow(s, i);
    PassedOverRuns(Next(s, DoSync), steps, x, z);
  }

  lemma MergedDiffer(t: Tables, synced: int, i: nat, j: nat)
    requires WellFormed(t) && i < j < |FullMerge(t, synced)|
    ensures NoteOf(FullMerge(t, synced)[i]) != NoteOf(FullMerge(t, synced)[j])
  {
    var full := FullMerge(t, synced);
    FullMergeOrdered(t, synced);
    assert full[i] in full && full[j] in full;
    assert MergeBefore(full[i], full[j]);
    if NoteOf(full[i]) == NoteOf(full[j]) {
      NoteNamesItem(t, full[i], full[j]);
    }
  }

  lemma MergedIsNew(s: State, i: nat)
    requires Good(s) && i < |FullMerge(s.tables, Floor(s.now))|
    ensures NoteOf(FullMerge(s.tables, Floor(s.now))[i]) !in s.tables.notes
  {
    FullMergeOrdered(s.tables, Floor(s.now));
    assert FullMerge(s.tables, Floor(s.now))[i] in FullMerge(s.tables, Floor(s.now));
  }

  lemma NotifiedNow(s: State, i: nat)
    requires Good(s) && i < |FullMerge(s.tables, Floor(s.now))|
    ensures NoteOf(FullMerge(s.tables, Floor(s.now))[i]) in Next(s, DoSync).tables.notes <==> i < 50
  {
    var full := FullMerge(s.tables, Floor(s.now));
    var written := NotesOf(First(full, 50));
    SyncMatchesFullMerge(s.tables, s.now);
    MergedIsNew(s, i);
    if i < 50 {
      assert written[i] == NoteOf(full[i]);
    } else {
      forall j | 0 <= j < |written| ensures written[j] != NoteOf(full[i]) {
        MergedDiffer(s.tables, Floor(s.now), j, i);
      }
    }
  }
}
