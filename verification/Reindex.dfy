/** The rebuild command's loops, over an index changed in place. */
module Reindex {
  import opened KeysetWalk

  datatype BatchError = NoError | Permanent | Transient

  /** The search index the command writes to. */
  class SearchIndex {
    var docs: Index

    constructor (initial: Index)
      ensures docs == initial
    {
      docs := initial;
    }

    /** One request for the whole page: a permanent refusal applies nothing. */
    method IndexBatch(rows: seq<Row>, outcome: WriteOutcome) returns (err: BatchError)
      modifies this
      ensures outcome.Accepted? ==> err == NoError && docs == Upsert(old(docs), rows)
      ensures outcome.Unreachable? ==>
                err == Transient && docs == if outcome.applied then Upsert(old(docs), rows) else old(docs)
      ensures outcome.Rejected? ==> err == Permanent && docs == old(docs)
    {
      match outcome {
        case Accepted => err := NoError;
        case Unreachable(applied) => err := Transient;
        case Rejected(_, _) => err := Permanent;
      }
      if outcome.Accepted? || (outcome.Unreachable? && outcome.applied) {
        var i := 0;
        while i < |rows|
          invariant 0 <= i <= |rows|
          invariant docs == Upsert(old(docs), rows[..i])
        {
          assert rows[..i + 1][..i] == rows[..i];
          docs := docs[KeyOf(rows[i]) := rows[i].body];
          i := i + 1;
        }
        assert rows[..|rows|] == rows;
      }
    }

    /** One document; a request that errs may have been applied all the same. */
    method IndexAwait(row: Row, errs: bool, appliedAnyway: bool) returns (ok: bool)
      modifies this
      ensures ok == !errs
      ensures docs == if !errs || appliedAnyway then old(docs)[KeyOf(row) := row.body] else old(docs)
    {
      if !errs || appliedAnyway {
        docs := docs[KeyOf(row) := row.body];
      }
      ok := !errs;
    }
  }

  /** Every document of the page is counted once, and a page without failures has been upserted whole. */
  method WritePage(svc: SearchIndex, rows: seq<Row>, outcome: WriteOutcome) returns (indexed: nat, failed: nat)
    modifies svc
    ensures (svc.docs, indexed, failed) == KeysetWalk.WritePage(old(svc.docs), rows, outcome)
    ensures indexed + failed == |rows| && (failed == 0 ==> svc.docs == Upsert(old(svc.docs), rows))
    ensures outcome.Accepted? ==> failed == 0
    ensures outcome.Unreachable? ==> indexed == 0
    ensures outcome.Rejected? ==> failed == Errors(|rows|, outcome.failing)
  {
    CleanPageIsUpserted(svc.docs, rows, outcome);
    PageCounts(svc.docs, rows, outcome);
    var err := svc.IndexBatch(rows, outcome);
    if err == NoError {
      return |rows|, 0;
    } else if err != Permanent {
      return 0, |rows|;
    }
    indexed, failed := 0, 0;
    var i := 0;
    while i < |rows|
      invariant 0 <= i <= |rows| && indexed + failed == i
      invariant (svc.docs, indexed) == Fallback(old(svc.docs), rows, i, outcome.failing, outcome.appliedAnyway)
    {
      var ok := svc.IndexAwait(rows[i], i in outcome.failing, i in outcome.appliedAnyway);
      if ok {
        indexed := indexed + 1;
      } else {
        failed := failed + 1;
      }
      i := i + 1;
    }
  }

  /**
   * The rebuild of one source: every row it visits is counted once, no row is visited twice, and counts, ending and
   * index are those of the walk. svc is null in a dry run; the turns say what each query and each write meets.
   */
  method Rebuild(svc: SearchIndex?, job: Job, turns: seq<Turn>)
    returns (indexed: nat, failed: nat, ending: Ending, ghost visited: seq<Row>)
    requires svc == null <==> job.dryRun
    modifies if svc == null then {} else {svc}
    ensures var before := if svc == null then map[] else old(svc.docs);
            var (p, how) := Walk(job, Begin(before), turns);
            && indexed == p.indexed && failed == p.failed && ending == how && visited == p.visited
            && (svc != null ==> svc.docs == p.index)
    ensures indexed + failed == |visited|
    ensures AllTables(turns) ==> Increasing(visited)
    ensures AllTables(turns) ==> forall r :: r in visited ==> Searchable(r, job.workspace) && ReadFrom(turns, r)
    ensures ending == Complete && job.batch > 0 ==> forall table ::
              IsTable(table) && Unchanging(turns, table) ==>
                forall r :: r in table && Due(r, job.workspace) ==> r in visited
  {
    ghost var before: Index := if svc == null then map[] else svc.docs;
    EveryRowIsCounted(job, Begin(before), turns);
    if AllTables(turns) {
      VisitedKeysIncrease(job, Begin(before), turns);
      OnlySearchableRowsAreVisited(job, Begin(before), turns);
    }
    if Walk(job, Begin(before), turns).1 == Complete && job.batch > 0 {
      forall table | IsTable(table) && Unchanging(turns, table)
        ensures forall r :: r in table && Due(r, job.workspace) ==> r in Walk(job, Begin(before), turns).0.visited
      {
        DueRowsAreVisited(job, before, turns, table);
      }
    }
    indexed, failed, ending, visited := WalkTable(svc, job, turns);
  }

  /** The loop. */
  method WalkTable(svc: SearchIndex?, job: Job, turns: seq<Turn>)
    returns (indexed: nat, failed: nat, ending: Ending, ghost visited: seq<Row>)
    requires svc == null <==> job.dryRun
    modifies if svc == null then {} else {svc}
    ensures var before := if svc == null then map[] else old(svc.docs);
            var (p, how) := Walk(job, Begin(before), turns);
            && indexed == p.indexed && failed == p.failed && ending == how && visited == p.visited
            && (svc != null ==> svc.docs == p.index)
  {
    ghost var before: Index := if svc == null then map[] else svc.docs;
    var cur := ZERO_CURSOR;
    var turn := 0;
    indexed, failed, visited := 0, 0, [];
    ghost var here := Begin(before);
    while turn < |turns|
      invariant 0 <= turn <= |turns|
      invariant here == Progress(cur, indexed, failed, if svc == null then before else svc.docs, visited)
      invariant Walk(job, here, turns[turn..]) == Walk(job, Begin(before), turns)
    {
      assert turns[turn..][0] == turns[turn] && turns[turn..][1..] == turns[turn + 1..];
      if !turns[turn].Read? {
        return indexed, failed, StoppedEarly, visited;
      }
      var rows := PageAfter(turns[turn].table, job.workspace, cur, job.batch);
      var docs: seq<Row> := [];
      var page := 0;
      while page < |rows|
        invariant 0 <= page <= |rows| && docs == rows[..page]
        invariant cur == if page == 0 then here.cur else rows[page - 1].key
      {
        docs := docs + [rows[page]];
        cur := rows[page].key;
        page := page + 1;
      }
      assert docs == rows;
      if page == 0 {
        return indexed, failed, Complete, visited;
      }
      if svc == null {
        indexed := indexed + page;
      } else {
        var ok, bad := WritePage(svc, docs, turns[turn].outcome);
        indexed := indexed + ok;
        failed := failed + bad;
      }
      visited := visited + docs;
      here := Turned(job, here, rows, turns[turn].outcome);
      if page < job.batch {
        return indexed, failed, Complete, visited;
      }
      turn := turn + 1;
    }
    ending := StillRunning;
  }
}
