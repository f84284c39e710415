/**
 * The keyset rebuild as a function of what the database and the search engine
 * answer: a walk over a table that may be a different one at every page.
 */
module KeysetWalk {
  import opened Prelude

  // ---------------------------------------------------------------------------
  // Rows and cursors
  // ---------------------------------------------------------------------------

  /** created_at in microseconds since the epoch, and the row id as a 128-bit number. */
  datatype Key = Key(at: int, id: nat)

  const ZERO_CURSOR := Key(0, 0)

  predicate Less(a: Key, b: Key) {
    a.at < b.at || (a.at == b.at && a.id < b.id)
  }

  datatype Status =
    | MessageStatus(deleted: bool, scheduled: bool)
    | FileStatus(trashed: bool)
    | IssueStatus(archived: bool)

  datatype Row = Row(key: Key, workspace: string, status: Status, docType: string, body: string)

  /** The WHERE clause of the row's source, with its optional workspace filter. */
  predicate Selected(r: Row, workspace: Option<string>) {
    && (match r.status
        case MessageStatus(deleted, scheduled) => !deleted && !scheduled
        case FileStatus(trashed) => !trashed
        case IssueStatus(archived) => !archived)
    && (workspace.None? || r.workspace == workspace.value)
  }

  /** Nothing deleted, scheduled, trashed or archived, and nothing from another workspace. */
  predicate Searchable(r: Row, workspace: Option<string>) {
    && (r.status.MessageStatus? ==> !r.status.deleted && !r.status.scheduled)
    && (r.status.FileStatus? ==> !r.status.trashed)
    && (r.status.IssueStatus? ==> !r.status.archived)
    && (workspace.Some? ==> r.workspace == workspace.value)
  }

  /** The queries' predicates select exactly what is to be searchable. */
  lemma SelectedIffSearchable(r: Row, workspace: Option<string>)
    ensures Selected(r, workspace) <==> Searchable(r, workspace)
  {
  }

  /** A table as its (created_at, id) index lists it; the id alone is the primary key. */
  predicate IsTable(t: seq<Row>) {
    forall i, j :: 0 <= i < j < |t| ==> Less(t[i].key, t[j].key) && t[i].key.id != t[j].key.id
  }

  /** The selected rows after a cursor. */
  function After(t: seq<Row>, workspace: Option<string>, cur: Key): seq<Row> {
    if t == [] then []
    else if Selected(t[0], workspace) && Less(cur, t[0].key) then [t[0]] + After(t[1..], workspace, cur)
    else After(t[1..], workspace, cur)
  }

  function First(rows: seq<Row>, n: nat): seq<Row> {
    if |rows| <= n then rows else rows[..n]
  }

  /** One page: ORDER BY created_at, id LIMIT batch. */
  function PageAfter(t: seq<Row>, workspace: Option<string>, cur: Key, batch: nat): seq<Row> {
    First(After(t, workspace, cur), batch)
  }

  // ---------------------------------------------------------------------------
  // Writing
  // ---------------------------------------------------------------------------

  /** The index's primary key: object type and id. */
  datatype DocKey = DocKey(docType: string, id: nat)

  type Index = map<DocKey, string>

  function KeyOf(r: Row): DocKey {
    DocKey(r.docType, r.key.id)
  }

  /** How the search engine takes one page. A refused write may have been applied all the same. */
  datatype WriteOutcome =
    | Accepted
    | Unreachable(applied: bool)                                     // not permanent: no fallback
    | Rejected(failing: set<nat>, appliedAnyway: set<nat>)           // permanent: document by document

  function Upsert(index: Index, rows: seq<Row>): Index
    decreases |rows|
  {
    if rows == [] then index
    else var k := |rows| - 1; Upsert(index, rows[..k])[KeyOf(rows[k]) := rows[k].body]
  }

  /** Index after the first n documents of the fallback, and how many of them were indexed. */
  function Fallback(index: Index, rows: seq<Row>, n: nat, failing: set<nat>, appliedAnyway: set<nat>): (Index, nat)
    requires n <= |rows|
  {
    if n == 0 then (index, 0)
    else
      var (before, ok) := Fallback(index, rows, n - 1, failing, appliedAnyway);
      var r := rows[n - 1];
      if n - 1 !in failing then (before[KeyOf(r) := r.body], ok + 1)
      else if n - 1 in appliedAnyway then (before[KeyOf(r) := r.body], ok)
      else (before, ok)
  }

  /** writePage: the new index, and the indexed and failed counts. */
  function WritePage(index: Index, rows: seq<Row>, outcome: WriteOutcome): (Index, nat, nat)
  {
    match outcome
    case Accepted => (Upsert(index, rows), |rows|, 0)
    case Unreachable(applied) => (if applied then Upsert(index, rows) else index, 0, |rows|)
    case Rejected(failing, anyway) =>
      var (next, ok) := Fallback(index, rows, |rows|, failing, anyway);
      FallbackCounts(index, rows, |rows|, failing, anyway);
      (next, ok, |rows| - ok)
  }

  /** How many of the first n documents err. */
  function Errors(n: nat, failing: set<nat>): nat {
    if n == 0 then 0 else Errors(n - 1, failing) + (if n - 1 in failing then 1 else 0)
  }

  lemma {:induction false} NoErrorsIff(n: nat, failing: set<nat>)
    ensures Errors(n, failing) <= n
    ensures Errors(n, failing) == 0 <==> forall k :: 0 <= k < n ==> k !in failing
  {
    if n > 0 {
      NoErrorsIff(n - 1, failing);
    }
  }

  /** The fallback indexes every document that does not err, and all of them if and only if none does. */
  lemma {:induction false} FallbackCounts(index: Index, rows: seq<Row>, n: nat, failing: set<nat>, anyway: set<nat>)
    requires n <= |rows|
    ensures Fallback(index, rows, n, failing, anyway).1 + Errors(n, failing) == n
    ensures Fallback(index, rows, n, failing, anyway).1 == n <==> forall k :: 0 <= k < n ==> k !in failing
  {
    NoErrorsIff(n, failing);
    if n > 0 {
      FallbackCounts(index, rows, n - 1, failing, anyway);
    }
  }

  /** A document that does not err is in the index afterwards, as is one whose refused write was applied all the same. */
  lemma {:induction false} FallbackHolds(index: Index, rows: seq<Row>, n: nat, failing: set<nat>, anyway: set<nat>, k: nat)
    requires k < n <= |rows| && (k !in failing || k in anyway)
    requires forall i, j :: 0 <= i < j < |rows| ==> KeyOf(rows[i]) != KeyOf(rows[j])
    ensures var after := Fallback(index, rows, n, failing, anyway).0;
            KeyOf(rows[k]) in after && after[KeyOf(rows[k])] == rows[k].body
  {
    if k < n - 1 {
      FallbackHolds(index, rows, n - 1, failing, anyway, k);
      assert KeyOf(rows[k]) != KeyOf(rows[n - 1]);
    }
  }

  /** What a page reports, by how it was taken. */
  lemma PageCounts(index: Index, rows: seq<Row>, outcome: WriteOutcome)
    ensures var (after, indexed, failed) := WritePage(index, rows, outcome);
            && (outcome.Accepted? ==> indexed == |rows| && failed == 0 && after == Upsert(index, rows))
            && (outcome.Unreachable? ==>
                  indexed == 0 && failed == |rows| && after == if outcome.applied then Upsert(index, rows) else index)
            && (outcome.Rejected? ==> failed == Errors(|rows|, outcome.failing) && indexed == |rows| - failed)
  {
    if outcome.Rejected? {
      FallbackCounts(index, rows, |rows|, outcome.failing, outcome.appliedAnyway);
    }
  }

  // ---------------------------------------------------------------------------
  // The walk
  // ---------------------------------------------------------------------------

  /** What one turn of the loop meets. */
  datatype Turn =
    | Cancelled                                        // the context is done
    | ReadFails                                        // the query, a scan or the row iteration fails
    | Read(table: seq<Row>, outcome: WriteOutcome)

  datatype Progress = Progress(cur: Key, indexed: nat, failed: nat, index: Index, visited: seq<Row>)

  datatype Ending = Complete | StoppedEarly | StillRunning

  datatype Job = Job(workspace: Option<string>, batch: nat, dryRun: bool)

  function Begin(index: Index): Progress {
    Progress(ZERO_CURSOR, 0, 0, index, [])
  }

  /** A page read to its end: the cursor moves to its last row and its documents are written. */
  function Turned(job: Job, p: Progress, page: seq<Row>, outcome: WriteOutcome): Progress
    requires page != []
  {
    var cur := page[|page| - 1].key;
    if job.dryRun then Progress(cur, p.indexed + |page|, p.failed, p.index, p.visited + page)
    else
      var (index, ok, bad) := WritePage(p.index, page, outcome);
      Progress(cur, p.indexed + ok, p.failed + bad, index, p.visited + page)
  }

  function Walk(job: Job, p: Progress, turns: seq<Turn>): (Progress, Ending)
    decreases |turns|
  {
    if turns == [] then (p, StillRunning)
    else match turns[0]
      case Cancelled => (p, StoppedEarly)
      case ReadFails => (p, StoppedEarly)
      case Read(table, outcome) =>
        var page := PageAfter(table, job.workspace, p.cur, job.batch);
        if page == [] then (p, Complete)
        else if |page| < job.batch then (Turned(job, p, page, outcome), Complete)
        else Walk(job, Turned(job, p, page, outcome), turns[1..])
  }

  predicate AllTables(turns: seq<Turn>) {
    forall k :: 0 <= k < |turns| && turns[k].Read? ==> IsTable(turns[k].table)
  }

  // ---------------------------------------------------------------------------
  // Pages
  // ---------------------------------------------------------------------------

  predicate Increasing(rows: seq<Row>) {
    forall i, j :: 0 <= i < j < |rows| ==> Less(rows[i].key, rows[j].key)
  }

  lemma {:induction false} AfterIsASelection(t: seq<Row>, workspace: Option<string>, cur: Key)
    requires IsTable(t)
    ensures Increasing(After(t, workspace, cur))
    ensures forall r :: r in After(t, workspace, cur) <==> r in t && Selected(r, workspace) && Less(cur, r.key)
    decreases |t|
  {
    if t != [] {
      assert forall i :: 0 <= i < |t[1..]| ==> t[1..][i] == t[i + 1];
      AfterIsASelection(t[1..], workspace, cur);
      var rest := After(t[1..], workspace, cur);
      forall j | 0 <= j < |rest| ensures Less(t[0].key, rest[j].key) {
        assert rest[j] in t[1..];
      }
    }
  }

  /** Moving the cursor to the k-th selected row leaves exactly the rows after it. */
  lemma {:induction false} AfterAdvances(t: seq<Row>, workspace: Option<string>, cur: Key, k: nat)
    requires IsTable(t) && k < |After(t, workspace, cur)|
    ensures After(t, workspace, After(t, workspace, cur)[k].key) == After(t, workspace, cur)[k + 1..]
    decreases |t|
  {
    var rest := After(t[1..], workspace, cur);
    TailIsATable(t);
    if !(Selected(t[0], workspace) && Less(cur, t[0].key)) {
      RestIsLater(t, workspace, cur, k);
      AfterAdvances(t[1..], workspace, cur, k);
    } else if k == 0 {
      AfterFromBelow(t[1..], workspace, cur, t[0].key);
      assert ([t[0]] + rest)[1..] == rest;
    } else {
      RestIsLater(t, workspace, cur, k - 1);
      AfterAdvances(t[1..], workspace, cur, k - 1);
      assert ([t[0]] + rest)[k] == rest[k - 1] && rest[k..] == ([t[0]] + rest)[k + 1..];
    }
  }

  lemma TailIsATable(t: seq<Row>)
    requires IsTable(t) && t != []
    ensures IsTable(t[1..]) && forall i :: 0 <= i < |t[1..]| ==> Less(t[0].key, t[1..][i].key)
  {
    assert forall i :: 0 <= i < |t[1..]| ==> t[1..][i] == t[i + 1];
  }

  lemma RestIsLater(t: seq<Row>, workspace: Option<string>, cur: Key, j: nat)
    requires IsTable(t) && t != [] && j < |After(t[1..], workspace, cur)|
    ensures Less(t[0].key, After(t[1..], workspace, cur)[j].key)
  {
    TailIsATable(t);
    AfterIsASelection(t[1..], workspace, cur);
    assert After(t[1..], workspace, cur)[j] in t[1..];
  }

  /** Two cursors below every row of a table select the same rows past the later one. */
  lemma {:induction false} AfterFromBelow(t: seq<Row>, workspace: Option<string>, cur: Key, later: Key)
    requires Less(cur, later) && forall i :: 0 <= i < |t| ==> Less(later, t[i].key)
    ensures After(t, workspace, later) == After(t, workspace, cur)
    decreases |t|
  {
    if t != [] {
      AfterFromBelow(t[1..], workspace, cur, later);
    }
  }

  // ---------------------------------------------------------------------------
  // No row twice
  // ---------------------------------------------------------------------------

  predicate Ahead(p: Progress) {
    Increasing(p.visited) && forall i :: 0 <= i < |p.visited| ==> p.visited[i].key == p.cur || Less(p.visited[i].key, p.cur)
  }

  lemma PageKeepsAhead(job: Job, p: Progress, table: seq<Row>, outcome: WriteOutcome)
    requires Ahead(p) && IsTable(table)
    requires PageAfter(table, job.workspace, p.cur, job.batch) != []
    ensures Ahead(Turned(job, p, PageAfter(table, job.workspace, p.cur, job.batch), outcome))
  {
    var all := After(table, job.workspace, p.cur);
    var page := PageAfter(table, job.workspace, p.cur, job.batch);
    AfterIsASelection(table, job.workspace, p.cur);
    forall i | 0 <= i < |page| ensures Less(p.cur, page[i].key) {
      assert page[i] == all[i] && all[i] in all;
    }
    assert Increasing(page);
  }

  /** Whatever is inserted or deleted between pages, visited keys only ever increase: no row is visited twice. */
  lemma {:induction false} VisitedKeysIncrease(job: Job, p: Progress, turns: seq<Turn>)
    requires Ahead(p) && AllTables(turns)
    ensures Ahead(Walk(job, p, turns).0)
    decreases |turns|
  {
    if turns != [] && turns[0].Read? {
      var page := PageAfter(turns[0].table, job.workspace, p.cur, job.batch);
      if page != [] {
        PageKeepsAhead(job, p, turns[0].table, turns[0].outcome);
        VisitedKeysIncrease(job, Turned(job, p, page, turns[0].outcome), turns[1..]);
      }
    }
  }

  /** Row r was read from the table of one of the turns. */
  predicate ReadFrom(turns: seq<Turn>, r: Row) {
    exists k :: 0 <= k < |turns| && turns[k].Read? && r in turns[k].table
  }

  /** Every row visited was searchable, and in the table, when its page was read. */
  lemma {:induction false} OnlySearchableRowsAreVisited(job: Job, p: Progress, turns: seq<Turn>)
    requires AllTables(turns)
    ensures var q := Walk(job, p, turns).0;
            && p.visited <= q.visited
            && forall i :: |p.visited| <= i < |q.visited| ==>
                 Searchable(q.visited[i], job.workspace) && ReadFrom(turns, q.visited[i])
    decreases |turns|
  {
    if turns != [] && turns[0].Read? {
      var all := After(turns[0].table, job.workspace, p.cur);
      var page := PageAfter(turns[0].table, job.workspace, p.cur, job.batch);
      AfterIsASelection(turns[0].table, job.workspace, p.cur);
      forall i | 0 <= i < |page| ensures Searchable(page[i], job.workspace) && ReadFrom(turns, page[i]) {
        assert page[i] == all[i] && all[i] in all;
        assert turns[0].Read? && page[i] in turns[0].table;
      }
      if page != [] {
        var next, q := Turned(job, p, page, turns[0].outcome), Walk(job, p, turns).0;
        if |page| == job.batch {
          OnlySearchableRowsAreVisited(job, next, turns[1..]);
        }
        forall i | |p.visited| <= i < |q.visited|
          ensures Searchable(q.visited[i], job.workspace) && ReadFrom(turns, q.visited[i])
        {
          if i < |next.visited| {
            assert q.visited[i] == next.visited[i] == page[i - |p.visited|];
          } else {
            ReadLater(turns, q.visited[i]);
          }
        }
      }
    }
  }

  lemma ReadLater(turns: seq<Turn>, r: Row)
    requires turns != [] && ReadFrom(turns[1..], r)
    ensures ReadFrom(turns, r)
  {
    var k :| 0 <= k < |turns[1..]| && turns[1..][k].Read? && r in turns[1..][k].table;
    assert turns[k + 1] == turns[1..][k];
  }

  /** Across the turns, one id always comes with one created_at. */
  ghost predicate KeepsCreatedAt(turns: seq<Turn>) {
    forall a, b :: ReadFrom(turns, a) && ReadFrom(turns, b) && a.key.id == b.key.id ==> a.key.at == b.key.at
  }

  /** As long as rows keep their created_at between pages, no id is visited twice. */
  lemma NoIdIsVisitedTwice(job: Job, index: Index, turns: seq<Turn>, i: nat, j: nat)
    requires AllTables(turns) && KeepsCreatedAt(turns)
    requires i < j < |Walk(job, Begin(index), turns).0.visited|
    ensures var visited := Walk(job, Begin(index), turns).0.visited; visited[i].key.id != visited[j].key.id
  {
    VisitedKeysIncrease(job, Begin(index), turns);
    OnlySearchableRowsAreVisited(job, Begin(index), turns);
    var visited := Walk(job, Begin(index), turns).0.visited;
    assert ReadFrom(turns, visited[i]) && ReadFrom(turns, visited[j]);
    assert Less(visited[i].key, visited[j].key);
  }

  // ---------------------------------------------------------------------------
  // No stable row missed
  // ---------------------------------------------------------------------------

  predicate Present(key: Key, turn: Turn, workspace: Option<string>) {
    turn.Read? ==> exists r :: r in turn.table && r.key == key && Searchable(r, workspace)
  }

  predicate Visited(p: Progress, key: Key) {
    exists i :: 0 <= i < |p.visited| && p.visited[i].key == key
  }

  /** A page either contains a stable row, or stops short of it and is full. */
  lemma PageReachesOrFallsShort(job: Job, p: Progress, table: seq<Row>, key: Key)
    requires IsTable(table) && Less(p.cur, key) && Present(key, Read(table, Accepted), job.workspace)
    ensures var page := PageAfter(table, job.workspace, p.cur, job.batch);
            || (exists i :: 0 <= i < |page| && page[i].key == key)
            || (|page| == job.batch && (page != [] ==> Less(page[|page| - 1].key, key)))
  {
    var all := After(table, job.workspace, p.cur);
    var page := PageAfter(table, job.workspace, p.cur, job.batch);
    AfterIsASelection(table, job.workspace, p.cur);
    var r :| r in table && r.key == key && Searchable(r, job.workspace);
    SelectedIffSearchable(r, job.workspace);
    assert r in all;
    var k :| 0 <= k < |all| && all[k] == r;
    if k < |page| {
      assert page[k] == r;
    } else if page != [] {
      assert page[|page| - 1] == all[|page| - 1];
    }
  }

  lemma TurnedVisits(job: Job, p: Progress, page: seq<Row>, outcome: WriteOutcome, key: Key)
    requires page != []
    ensures Visited(p, key) ==> Visited(Turned(job, p, page, outcome), key)
    ensures (exists i :: 0 <= i < |page| && page[i].key == key) ==> Visited(Turned(job, p, page, outcome), key)
  {
    var next := Turned(job, p, page, outcome);
    if Visited(p, key) {
      var i :| 0 <= i < |p.visited| && p.visited[i].key == key;
      assert next.visited[i].key == key;
    }
    if i :| 0 <= i < |page| && page[i].key == key {
      assert next.visited[|p.visited| + i].key == key;
    }
  }

  lemma {:induction false} VisitedStays(job: Job, p: Progress, turns: seq<Turn>, key: Key)
    requires Visited(p, key)
    ensures Visited(Walk(job, p, turns).0, key)
    decreases |turns|
  {
    if turns != [] && turns[0].Read? {
      var page := PageAfter(turns[0].table, job.workspace, p.cur, job.batch);
      if page != [] {
        TurnedVisits(job, p, page, turns[0].outcome, key);
        VisitedStays(job, Turned(job, p, page, turns[0].outcome), turns[1..], key);
      }
    }
  }

  lemma {:induction false} StableRowsAreReached(job: Job, p: Progress, turns: seq<Turn>, key: Key)
    requires job.batch > 0 && AllTables(turns) && Walk(job, p, turns).1 == Complete
    requires Less(p.cur, key) || Visited(p, key)
    requires forall k :: 0 <= k < |turns| ==> Present(key, turns[k], job.workspace)
    ensures Visited(Walk(job, p, turns).0, key)
    decreases |turns|
  {
    if Visited(p, key) {
      VisitedStays(job, p, turns, key);
    } else {
      var turn := turns[0];
      var page := PageAfter(turn.table, job.workspace, p.cur, job.batch);
      assert Present(key, Read(turn.table, Accepted), job.workspace) by {
        assert Present(key, turns[0], job.workspace);
      }
      PageReachesOrFallsShort(job, p, turn.table, key);
      if page != [] {
        var next := Turned(job, p, page, turn.outcome);
        TurnedVisits(job, p, page, turn.outcome, key);
        if |page| == job.batch {
          StableRowsAreReached(job, next, turns[1..], key);
        }
      }
    }
  }

  /** The zero cursor precedes exactly the keys after the epoch's first instant and the nil id. */
  lemma ZeroCursorPrecedes(key: Key)
    ensures Less(ZERO_CURSOR, key) <==> key.at > 0 || (key.at == 0 && key.id > 0)
  {
  }

  /** A row present and searchable throughout a completed run is visited if and only if it sorts after the zero cursor. */
  lemma StableRowsAreVisitedIff(job: Job, index: Index, turns: seq<Turn>, key: Key)
    requires job.batch > 0 && AllTables(turns) && Walk(job, Begin(index), turns).1 == Complete
    requires forall k :: 0 <= k < |turns| ==> Present(key, turns[k], job.workspace)
    ensures Visited(Walk(job, Begin(index), turns).0, key) <==> key.at > 0 || (key.at == 0 && key.id > 0)
  {
    ZeroCursorPrecedes(key);
    if Less(ZERO_CURSOR, key) {
      StableRowsAreReached(job, Begin(index), turns, key);
    } else {
      OnlyAfterZero(job, Begin(index), turns);
    }
  }

  predicate PastZero(rows: seq<Row>) {
    forall i :: 0 <= i < |rows| ==> Less(ZERO_CURSOR, rows[i].key)
  }

  lemma {:induction false} OnlyAfterZero(job: Job, p: Progress, turns: seq<Turn>)
    requires AllTables(turns) && !Less(p.cur, ZERO_CURSOR)
    requires PastZero(p.visited)
    ensures PastZero(Walk(job, p, turns).0.visited)
    decreases |turns|
  {
    if turns != [] && turns[0].Read? {
      var all := After(turns[0].table, job.workspace, p.cur);
      var page := PageAfter(turns[0].table, job.workspace, p.cur, job.batch);
      AfterIsASelection(turns[0].table, job.workspace, p.cur);
      forall i | 0 <= i < |page| ensures Less(ZERO_CURSOR, page[i].key) {
        assert page[i] == all[i] && all[i] in all;
      }
      if page != [] {
        var next := Turned(job, p, page, turns[0].outcome);
        forall i | 0 <= i < |next.visited| ensures Less(ZERO_CURSOR, next.visited[i].key) {
          assert next.visited[i] == if i < |p.visited| then p.visited[i] else page[i - |p.visited|];
        }
        if |page| == job.batch {
          OnlyAfterZero(job, next, turns[1..]);
        }
      }
    }
  }

  /** A row from before 1970 is selected by every query's predicate and still never visited. */
  lemma PreEpochRowIsSkipped()
    ensures var row := Row(Key(-1, 7), "w", MessageStatus(false, false), "message", "old");
            var job := Job(None, 500, false);
            var (end, how) := Walk(job, Begin(map[]), [Read([row], Accepted)]);
            IsTable([row]) && Selected(row, None) && how == Complete && end.visited == []
  {
    var row := Row(Key(-1, 7), "w", MessageStatus(false, false), "message", "old");
    assert [row][1..] == [];
    assert After([row], None, ZERO_CURSOR) == After([row][1..], None, ZERO_CURSOR) == [];
  }

  // ---------------------------------------------------------------------------
  // Accounting
  // ---------------------------------------------------------------------------

  /** Every visited row is counted once, as indexed or as failed, on every path. */
  lemma {:induction false} EveryRowIsCounted(job: Job, p: Progress, turns: seq<Turn>)
    requires p.indexed + p.failed == |p.visited|
    ensures var q := Walk(job, p, turns).0; q.indexed + q.failed == |q.visited|
    decreases |turns|
  {
    if turns != [] && turns[0].Read? {
      var page := PageAfter(turns[0].table, job.workspace, p.cur, job.batch);
      if page != [] {
        EveryRowIsCounted(job, Turned(job, p, page, turns[0].outcome), turns[1..]);
      }
    }
  }

  /** A run stops early if and only if some turn is cancelled or fails to read before the walk is over. */
  lemma {:induction false} StopsEarlyIff(job: Job, p: Progress, turns: seq<Turn>)
    ensures Walk(job, p, turns).1 == StoppedEarly
       <==> exists k :: 0 <= k < |turns| && !turns[k].Read? && Walk(job, p, turns[..k]).1 == StillRunning
    decreases |turns|
  {
    if turns == [] {
    } else if !turns[0].Read? {
      assert turns[..0] == [];
    } else {
      var page := PageAfter(turns[0].table, job.workspace, p.cur, job.batch);
      if page == [] || |page| < job.batch {
        forall k | 0 <= k < |turns| && !turns[k].Read? ensures Walk(job, p, turns[..k]).1 != StillRunning {
          assert turns[..k][0] == turns[0];
        }
      } else {
        var next, rest := Turned(job, p, page, turns[0].outcome), turns[1..];
        StopsEarlyIff(job, next, rest);
        forall k | 0 < k <= |turns| ensures Walk(job, p, turns[..k]) == Walk(job, next, rest[..k - 1]) {
          assert turns[..k][0] == turns[0] && turns[..k][1..] == rest[..k - 1];
        }
        if Walk(job, next, rest).1 == StoppedEarly {
          var k :| 0 <= k < |rest| && !rest[k].Read? && Walk(job, next, rest[..k]).1 == StillRunning;
          assert !turns[k + 1].Read? && Walk(job, p, turns[..k + 1]).1 == StillRunning;
        }
        if k :| 0 <= k < |turns| && !turns[k].Read? && Walk(job, p, turns[..k]).1 == StillRunning {
          assert k > 0 && !rest[k - 1].Read?;
          assert Walk(job, next, rest[..k - 1]).1 == StillRunning;
        }
      }
    }
  }

  // ---------------------------------------------------------------------------
  // An unchanging table
  // ---------------------------------------------------------------------------

  predicate Unchanging(turns: seq<Turn>, table: seq<Row>) {
    forall k :: 0 <= k < |turns| ==> turns[k].Read? && turns[k].table == table
  }

  /**
   * Over an unchanging table of n rows the walk visits all of them and ends exactly with query
   * number n/batch + 1, also when n is a multiple of the batch.
   */
  lemma {:induction false} UnchangingWalk(job: Job, p: Progress, turns: seq<Turn>, table: seq<Row>)
    requires job.batch > 0 && IsTable(table) && Unchanging(turns, table)
    ensures var rest := After(table, job.workspace, p.cur);
            var (q, how) := Walk(job, p, turns);
            && (how == Complete <==> |turns| > |rest| / job.batch)
            && (how != Complete ==> how == StillRunning)
            && (how == Complete ==> q.visited == p.visited + rest)
    decreases |turns|
  {
    var rest := After(table, job.workspace, p.cur);
    if turns != [] && |rest| < job.batch {
      SmallerThanABatch(|rest|, job.batch);
      assert PageAfter(turns[0].table, job.workspace, p.cur, job.batch) == rest;
      assert p.visited + [] == p.visited;
    } else if turns != [] {
      var page := rest[..job.batch];
      assert PageAfter(turns[0].table, job.workspace, p.cur, job.batch) == page;
      var next := Turned(job, p, page, turns[0].outcome);
      FullPageLeavesTheRest(job, p, table, turns[0].outcome);
      assert Walk(job, p, turns) == Walk(job, next, turns[1..]);
      UnchangingWalk(job, next, turns[1..], table);
      OneBatchLess(|rest|, job.batch);
      assert p.visited + page + rest[job.batch..] == p.visited + rest;
    } else {
      NotNegative(|rest|, job.batch);
    }
  }

  lemma FullPageLeavesTheRest(job: Job, p: Progress, table: seq<Row>, outcome: WriteOutcome)
    requires IsTable(table) && |After(table, job.workspace, p.cur)| >= job.batch > 0
    ensures var rest := After(table, job.workspace, p.cur);
            var next := Turned(job, p, rest[..job.batch], outcome);
            && next.visited == p.visited + rest[..job.batch]
            && After(table, job.workspace, next.cur) == rest[job.batch..]
  {
    AfterAdvances(table, job.workspace, p.cur, job.batch - 1);
  }

  lemma NotNegative(n: nat, batch: nat)
    requires batch > 0
    ensures n / batch >= 0
  {
  }

  lemma OneBatchLess(n: nat, batch: nat)
    requires n >= batch > 0
    ensures (n - batch) / batch == n / batch - 1
  {
    var q, r := (n - batch) / batch, (n - batch) % batch;
    assert n == batch * q + r + batch;
    QuotientIsUnique(n, batch, q + 1, r);
  }

  lemma QuotientIsUnique(n: nat, batch: nat, q: nat, r: nat)
    requires r < batch && n == batch * q + r
    ensures n / batch == q
  {
    var p := n / batch;
    assert n == batch * p + n % batch;
    ProductsAreOrdered(batch, p + 1, q);
    ProductsAreOrdered(batch, q + 1, p);
  }

  lemma ProductsAreOrdered(batch: nat, a: nat, b: nat)
    ensures a <= b ==> batch * a <= batch * b
  {
  }

  lemma SmallerThanABatch(n: nat, batch: nat)
    requires n < batch
    ensures n / batch == 0
  {
  }

  // ---------------------------------------------------------------------------
  // What the index holds afterwards
  // ---------------------------------------------------------------------------

  lemma {:induction false} CleanFallbackIsUpsert(index: Index, rows: seq<Row>, n: nat, failing: set<nat>, anyway: set<nat>)
    requires n <= |rows| && forall k :: 0 <= k < n ==> k !in failing
    ensures Fallback(index, rows, n, failing, anyway) == (Upsert(index, rows[..n]), n)
  {
    if n > 0 {
      CleanFallbackIsUpsert(index, rows, n - 1, failing, anyway);
      assert rows[..n][..n - 1] == rows[..n - 1];
    }
  }

  /** A page with no failure has been upserted whole. */
  lemma CleanPageIsUpserted(index: Index, rows: seq<Row>, outcome: WriteOutcome)
    ensures WritePage(index, rows, outcome).2 == 0 ==> WritePage(index, rows, outcome).0 == Upsert(index, rows)
  {
    if outcome.Rejected? && WritePage(index, rows, outcome).2 == 0 {
      FallbackCounts(index, rows, |rows|, outcome.failing, outcome.appliedAnyway);
      CleanFallbackIsUpsert(index, rows, |rows|, outcome.failing, outcome.appliedAnyway);
      assert rows[..|rows|] == rows;
    }
  }

  lemma {:induction false} UpsertConcat(index: Index, a: seq<Row>, b: seq<Row>)
    ensures Upsert(index, a + b) == Upsert(Upsert(index, a), b)
    decreases |b|
  {
    if b == [] {
      assert a + b == a;
    } else {
      var k := |b| - 1;
      assert (a + b)[..|a| + k] == a + b[..k];
      UpsertConcat(index, a, b[..k]);
    }
  }

  lemma {:induction false} FailuresOnlyGrow(job: Job, p: Progress, turns: seq<Turn>)
    ensures Walk(job, p, turns).0.failed >= p.failed
    decreases |turns|
  {
    if turns != [] && turns[0].Read? {
      var page := PageAfter(turns[0].table, job.workspace, p.cur, job.batch);
      if page != [] {
        FailuresOnlyGrow(job, Turned(job, p, page, turns[0].outcome), turns[1..]);
      }
    }
  }

  /** A run without failures has upserted exactly the rows it visited, in order. */
  lemma {:induction false} CleanRunUpserts(job: Job, start: Index, p: Progress, turns: seq<Turn>)
    requires !job.dryRun && p.index == Upsert(start, p.visited) && Walk(job, p, turns).0.failed == 0
    ensures Walk(job, p, turns).0.index == Upsert(start, Walk(job, p, turns).0.visited)
    decreases |turns|
  {
    if turns != [] && turns[0].Read? {
      var page := PageAfter(turns[0].table, job.workspace, p.cur, job.batch);
      if page != [] {
        var next := Turned(job, p, page, turns[0].outcome);
        FailuresOnlyGrow(job, next, turns[1..]);
        CleanPageIsUpserted(p.index, page, turns[0].outcome);
        UpsertConcat(start, p.visited, page);
        if |page| == job.batch {
          CleanRunUpserts(job, start, next, turns[1..]);
        }
      }
    }
  }

  predicate DistinctDocs(rows: seq<Row>) {
    forall i, j :: 0 <= i < j < |rows| ==> KeyOf(rows[i]) != KeyOf(rows[j])
  }

  predicate Holds(index: Index, rows: seq<Row>) {
    forall i :: 0 <= i < |rows| ==> KeyOf(rows[i]) in index && index[KeyOf(rows[i])] == rows[i].body
  }

  predicate Mentions(rows: seq<Row>, key: DocKey) {
    exists i :: 0 <= i < |rows| && KeyOf(rows[i]) == key
  }

  lemma {:induction false} UpsertTouchesOnlyItsKeys(index: Index, rows: seq<Row>, key: DocKey)
    requires !Mentions(rows, key)
    ensures (key in Upsert(index, rows) <==> key in index) && (key in index ==> Upsert(index, rows)[key] == index[key])
    decreases |rows|
  {
    if rows != [] {
      var k := |rows| - 1;
      assert KeyOf(rows[k]) != key;
      forall i | 0 <= i < k ensures KeyOf(rows[..k][i]) != key {
        assert rows[..k][i] == rows[i];
      }
      UpsertTouchesOnlyItsKeys(index, rows[..k], key);
    }
  }

  lemma {:induction false} UpsertHolds(index: Index, rows: seq<Row>)
    requires DistinctDocs(rows)
    ensures Holds(Upsert(index, rows), rows)
    decreases |rows|
  {
    if rows != [] {
      var k := |rows| - 1;
      UpsertHolds(index, rows[..k]);
      forall i | 0 <= i < k ensures KeyOf(rows[i]) in Upsert(index, rows) && Upsert(index, rows)[KeyOf(rows[i])] == rows[i].body {
        assert rows[..k][i] == rows[i];
      }
    }
  }

  /** Upserting what is already there changes nothing. */
  lemma {:induction false} UpsertOfHeldIsIdentity(index: Index, rows: seq<Row>)
    requires Holds(index, rows)
    ensures Upsert(index, rows) == index
    decreases |rows|
  {
    if rows != [] {
      var k := |rows| - 1;
      assert forall i :: 0 <= i < k ==> rows[..k][i] == rows[i];
      UpsertOfHeldIsIdentity(index, rows[..k]);
      assert index[KeyOf(rows[k]) := rows[k].body] == index;
    }
  }

  lemma SelectionHasDistinctDocs(t: seq<Row>, workspace: Option<string>, cur: Key)
    requires IsTable(t)
    ensures DistinctDocs(After(t, workspace, cur))
  {
    var rows := After(t, workspace, cur);
    AfterIsASelection(t, workspace, cur);
    forall i, j | 0 <= i < j < |rows| ensures KeyOf(rows[i]) != KeyOf(rows[j]) {
      var a :| 0 <= a < |t| && t[a] == rows[i];
      var b :| 0 <= b < |t| && t[b] == rows[j];
      assert Less(rows[i].key, rows[j].key);
      assert a < b || b < a;
    }
  }

  /** A row the rebuild is for: searchable, and after the epoch's first instant and the nil id. */
  predicate Due(r: Row, workspace: Option<string>) {
    Searchable(r, workspace) && (r.key.at > 0 || (r.key.at == 0 && r.key.id > 0))
  }

  lemma DueRows(table: seq<Row>, workspace: Option<string>)
    requires IsTable(table)
    ensures var rows := After(table, workspace, ZERO_CURSOR);
            && Increasing(rows)
            && forall r :: r in rows <==> r in table && Due(r, workspace)
  {
    var rows := After(table, workspace, ZERO_CURSOR);
    AfterIsASelection(table, workspace, ZERO_CURSOR);
    forall r ensures r in rows <==> r in table && Due(r, workspace) {
      SelectedIffSearchable(r, workspace);
      ZeroCursorPrecedes(r.key);
    }
  }

  lemma VisitedAreAfterZero(job: Job, index: Index, turns: seq<Turn>, table: seq<Row>)
    requires job.batch > 0 && IsTable(table) && Unchanging(turns, table)
    requires Walk(job, Begin(index), turns).1 == Complete
    ensures Walk(job, Begin(index), turns).0.visited == After(table, job.workspace, ZERO_CURSOR)
  {
    UnchangingWalk(job, Begin(index), turns, table);
    assert [] + After(table, job.workspace, ZERO_CURSOR) == After(table, job.workspace, ZERO_CURSOR);
  }

  lemma IncreasingMeans(rows: seq<Row>)
    requires Increasing(rows)
    ensures forall i, j :: 0 <= i < j < |rows| ==>
              || rows[i].key.at < rows[j].key.at
              || (rows[i].key.at == rows[j].key.at && rows[i].key.id < rows[j].key.id)
  {
  }

  /** Over an unchanging table a completed run has visited exactly the due rows, in (created_at, id) order. */
  lemma DueRowsAreVisited(job: Job, index: Index, turns: seq<Turn>, table: seq<Row>)
    requires job.batch > 0 && IsTable(table) && Unchanging(turns, table)
    requires Walk(job, Begin(index), turns).1 == Complete
    ensures var visited := Walk(job, Begin(index), turns).0.visited;
            && (forall r :: r in visited <==> r in table && Due(r, job.workspace))
            && forall i, j :: 0 <= i < j < |visited| ==>
                 || visited[i].key.at < visited[j].key.at
                 || (visited[i].key.at == visited[j].key.at && visited[i].key.id < visited[j].key.id)
  {
    VisitedAreAfterZero(job, index, turns, table);
    DueRows(table, job.workspace);
    IncreasingMeans(After(table, job.workspace, ZERO_CURSOR));
  }

  lemma UpsertedRows(job: Job, index: Index, turns: seq<Turn>, table: seq<Row>)
    requires job.batch > 0 && !job.dryRun && IsTable(table) && Unchanging(turns, table)
    requires var (q, how) := Walk(job, Begin(index), turns); how == Complete && q.failed == 0
    ensures var q, rows := Walk(job, Begin(index), turns).0, After(table, job.workspace, ZERO_CURSOR);
            q.index == Upsert(index, rows) && Holds(q.index, rows)
  {
    var rows := After(table, job.workspace, ZERO_CURSOR);
    VisitedAreAfterZero(job, index, turns, table);
    CleanRunUpserts(job, index, Begin(index), turns);
    SelectionHasDistinctDocs(table, job.workspace, ZERO_CURSOR);
    UpsertHolds(index, rows);
  }

  /**
   * A run over an unchanging table that reports no failure leaves the index holding exactly each due row's
   * document under its type and id, with every other key untouched.
   */
  lemma CleanRebuildIsExact(job: Job, index: Index, turns: seq<Turn>, table: seq<Row>)
    requires job.batch > 0 && !job.dryRun && IsTable(table) && Unchanging(turns, table)
    requires var (q, how) := Walk(job, Begin(index), turns); how == Complete && q.failed == 0
    ensures var after := Walk(job, Begin(index), turns).0.index;
            && (forall r :: r in table && Due(r, job.workspace) ==>
                  DocKey(r.docType, r.key.id) in after && after[DocKey(r.docType, r.key.id)] == r.body)
            && forall key: DocKey ::
                 (forall r :: r in table && Due(r, job.workspace) ==> DocKey(r.docType, r.key.id) != key) ==>
                   (key in after <==> key in index) && (key in index ==> after[key] == index[key])
  {
    var after, rows := Walk(job, Begin(index), turns).0.index, After(table, job.workspace, ZERO_CURSOR);
    UpsertedRows(job, index, turns, table);
    DueRows(table, job.workspace);
    forall r | r in table && Due(r, job.workspace)
      ensures DocKey(r.docType, r.key.id) in after && after[DocKey(r.docType, r.key.id)] == r.body
    {
      assert r in rows;
      var i :| 0 <= i < |rows| && rows[i] == r;
      assert KeyOf(rows[i]) in after;
    }
    forall key: DocKey | forall r :: r in table && Due(r, job.workspace) ==> DocKey(r.docType, r.key.id) != key
      ensures (key in after <==> key in index) && (key in index ==> after[key] == index[key])
    {
      forall i | 0 <= i < |rows| ensures KeyOf(rows[i]) != key {
        assert rows[i] in rows;
      }
      UpsertTouchesOnlyItsKeys(index, rows, key);
    }
  }

  lemma PartsAreHeld(index: Index, rows: seq<Row>, part: seq<Row>)
    requires Holds(index, rows) && forall r :: r in part ==> r in rows
    ensures Holds(index, part)
  {
    forall i | 0 <= i < |part| ensures KeyOf(part[i]) in index && index[KeyOf(part[i])] == part[i].body {
      assert part[i] in rows;
      var j :| 0 <= j < |rows| && rows[j] == part[i];
    }
  }

  /** Writing one held document again changes nothing. */
  lemma {:induction false} FallbackOfHeldIsIdentity(index: Index, rows: seq<Row>, n: nat, failing: set<nat>, anyway: set<nat>)
    requires n <= |rows| && Holds(index, rows)
    ensures Fallback(index, rows, n, failing, anyway).0 == index
  {
    if n > 0 {
      FallbackOfHeldIsIdentity(index, rows, n - 1, failing, anyway);
      assert index[KeyOf(rows[n - 1]) := rows[n - 1].body] == index;
    }
  }

  /** However a page of held documents is taken, refused or half taken, the index stays as it is. */
  lemma PageOfHeldIsIdentity(index: Index, rows: seq<Row>, outcome: WriteOutcome)
    requires Holds(index, rows)
    ensures WritePage(index, rows, outcome).0 == index
  {
    UpsertOfHeldIsIdentity(index, rows);
    if outcome.Rejected? {
      FallbackOfHeldIsIdentity(index, rows, |rows|, outcome.failing, outcome.appliedAnyway);
    }
  }

  /** Every turn that reads at all reads this table. */
  predicate ReadsOnly(turns: seq<Turn>, table: seq<Row>) {
    forall k :: 0 <= k < |turns| && turns[k].Read? ==> turns[k].table == table
  }

  lemma {:induction false} WalkOfHeldIsIdentity(job: Job, p: Progress, turns: seq<Turn>, table: seq<Row>)
    requires IsTable(table) && ReadsOnly(turns, table) && !Less(p.cur, ZERO_CURSOR)
    requires Holds(p.index, After(table, job.workspace, ZERO_CURSOR))
    ensures Walk(job, p, turns).0.index == p.index
    decreases |turns|
  {
    if turns != [] && turns[0].Read? {
      var all := After(table, job.workspace, p.cur);
      var page := PageAfter(turns[0].table, job.workspace, p.cur, job.batch);
      if page != [] {
        var next := Turned(job, p, page, turns[0].outcome);
        HeldPage(job, p, table);
        PageOfHeldIsIdentity(p.index, page, turns[0].outcome);
        if |page| == job.batch {
          WalkOfHeldIsIdentity(job, next, turns[1..], table);
        }
      }
    }
  }

  lemma HeldPage(job: Job, p: Progress, table: seq<Row>)
    requires IsTable(table) && !Less(p.cur, ZERO_CURSOR) && Holds(p.index, After(table, job.workspace, ZERO_CURSOR))
    ensures var page := PageAfter(table, job.workspace, p.cur, job.batch);
            Holds(p.index, page) && (page != [] ==> !Less(page[|page| - 1].key, ZERO_CURSOR))
  {
    var all := After(table, job.workspace, p.cur);
    var page := PageAfter(table, job.workspace, p.cur, job.batch);
    AfterIsASelection(table, job.workspace, p.cur);
    AfterIsASelection(table, job.workspace, ZERO_CURSOR);
    forall i | 0 <= i < |page| ensures page[i] in After(table, job.workspace, ZERO_CURSOR) && Less(ZERO_CURSOR, page[i].key) {
      assert page[i] == all[i] && all[i] in all;
    }
    PartsAreHeld(p.index, After(table, job.workspace, ZERO_CURSOR), page);
  }

  /** ... so a second run over the same table changes nothing, wherever it stops and whatever its writes meet. */
  lemma SecondRebuildChangesNothing(job: Job, index: Index, turns: seq<Turn>, again: seq<Turn>, table: seq<Row>)
    requires job.batch > 0 && !job.dryRun && IsTable(table) && Unchanging(turns, table) && ReadsOnly(again, table)
    requires var (q, how) := Walk(job, Begin(index), turns); how == Complete && q.failed == 0
    ensures var first := Walk(job, Begin(index), turns).0.index;
            Walk(job, Begin(first), again).0.index == first
  {
    var first := Walk(job, Begin(index), turns).0.index;
    UpsertedRows(job, index, turns, table);
    WalkOfHeldIsIdentity(job, Begin(first), again, table);
  }

  /** A dry run counts and writes nothing. */
  lemma {:induction false} DryRunWritesNothing(job: Job, p: Progress, turns: seq<Turn>)
    requires job.dryRun
    ensures var q := Walk(job, p, turns).0; q.index == p.index && q.failed == p.failed
    decreases |turns|
  {
    if turns != [] && turns[0].Read? {
      var page := PageAfter(turns[0].table, job.workspace, p.cur, job.batch);
      if page != [] {
        DryRunWritesNothing(job, Turned(job, p, page, turns[0].outcome), turns[1..]);
      }
    }
  }
}
