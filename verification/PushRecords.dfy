/** What the push queue's record tells: who holds the key, and exactly which registrations get a DELETE of their own. */
module PushRecords {
  import opened SessionCore
  import opened PushLifecycle

  // ---------------------------------------------------------------------------
  // The invariant of the record
  // ---------------------------------------------------------------------------

  /** Unstarted cleanups belong to different sessions, none of which has begun its cleanup. */
  predicate OneEach(begun: set<nat>, jobs: seq<PushJob>) {
    && (forall i :: 0 <= i < |jobs| && jobs[i].Cleanup? ==> jobs[i].session !in begun)
    && (forall i, j :: 0 <= i < j < |jobs| && jobs[i].Cleanup? && jobs[j].Cleanup? ==> jobs[i].session != jobs[j].session)
  }

  /** Only a cleanup that has begun deletes or removes. */
  predicate DoneByBegun(log: seq<PushEntry>, begun: set<nat>) {
    forall i :: 0 <= i < |log| && (log[i].Deleted? || log[i].Removed?) ==> log[i].session in begun
  }

  /** Whether the key is there after these entries. */
  function KeyAfter(log: seq<PushEntry>, before: bool): bool
    decreases |log|
  {
    if log == [] then before
    else
      var last := log[|log| - 1];
      if last.Stored? then true else if last.Removed? then false else KeyAfter(log[..|log| - 1], before)
  }

  predicate KeyRecorded(log: seq<PushEntry>, keyStored: bool) {
    (KeyAfter(log, false) ==> keyStored) && (keyStored ==> KeyAfter(log, true))
  }

  /** No registration goes out without its key having just been stored. */
  predicate StoredBeforePosted(log: seq<PushEntry>) {
    forall i :: 0 <= i < |log| && log[i].Posted? ==> i > 0 && log[i - 1].Stored?
  }

  predicate PostedUpTo(log: seq<PushEntry>, session: nat) {
    forall i :: 0 <= i < |log| && log[i].Posted? ==> log[i].origin <= session
  }

  /** A removal comes from the session of every earlier registration or from a later one. */
  predicate RemovedByLater(log: seq<PushEntry>) {
    forall i, j :: 0 <= i < j < |log| && log[i].Posted? && log[j].Removed? ==> log[i].origin <= log[j].session
  }

  predicate RecordInv(p: Push) {
    && OneEach(p.begun, Unstarted(p))
    && DoneByBegun(p.log, p.begun)
    && KeyRecorded(p.log, p.keyOwner.Some?)
    && StoredBeforePosted(p.log)
    && RemovedByLater(p.log)
    && (p.stage.RemovingKey? && p.queue != [] && p.queue[0].Cleanup? ==> PostedUpTo(p.log, p.queue[0].session))
  }

  // ---------------------------------------------------------------------------
  // One cleanup for each session
  // ---------------------------------------------------------------------------

  lemma InsertedStaysOneEach(a: seq<PushJob>, b: seq<PushJob>, job: PushJob, begun: set<nat>)
    requires job.Register? && OneEach(begun, a + b)
    ensures OneEach(begun, a + [job] + b)
  {
    var jobs, others := a + b, a + [job] + b;
    assert forall i :: 0 <= i < |a| ==> others[i] == jobs[i];
    assert forall i :: |a| < i < |others| ==> others[i] == jobs[i - 1];
    assert others[|a|] == job;
  }

  /** Where an element of the moved list came from. */
  function CameFrom(at: nat, k: nat, i: nat): nat {
    if i < at then i else if i == at then at + k else if i <= at + k then i - 1 else i
  }

  lemma MovedStaysOneEach(head: seq<PushJob>, importing: seq<PushJob>, k: nat, begun: set<nat>)
    requires k < |importing| && OneEach(begun, head + importing)
    ensures OneEach(begun, head + [importing[k]] + Without(importing, k))
  {
    var jobs, moved := head + importing, head + [importing[k]] + Without(importing, k);
    forall i | 0 <= i < |moved| ensures CameFrom(|head|, k, i) < |jobs| && moved[i] == jobs[CameFrom(|head|, k, i)] {
    }
    forall i, j | 0 <= i < j < |moved| && moved[i].Cleanup? && moved[j].Cleanup? ensures moved[i].session != moved[j].session {
      var a, b := CameFrom(|head|, k, i), CameFrom(|head|, k, j);
      assert a != b && moved[i] == jobs[a] && moved[j] == jobs[b];
    }
  }

  lemma HeadLeavesOneEach(begun: set<nat>, jobs: seq<PushJob>)
    requires jobs != [] && OneEach(begun, jobs)
    ensures OneEach(begun, jobs[1..])
    ensures jobs[0].Cleanup? ==> jobs[0].session !in begun && OneEach(begun + {jobs[0].session}, jobs[1..])
  {
    assert forall i :: 0 <= i < |jobs[1..]| ==> jobs[1..][i] == jobs[i + 1];
  }

  lemma OneMoreEach(generation: nat, begun: set<nat>, jobs: seq<PushJob>, job: PushJob)
    requires job.Cleanup? && job.session == generation && DebtsInv(generation, begun, jobs) && OneEach(begun, jobs)
    ensures OneEach(begun, jobs + [job])
  {
    var more := jobs + [job];
    forall i | 0 <= i < |jobs| && jobs[i].Cleanup? ensures more[i] == jobs[i] && jobs[i].session < generation {
      assert jobs[i] in jobs;
    }
  }

  // ---------------------------------------------------------------------------
  // The record grows
  // ---------------------------------------------------------------------------

  /** Any entry but these leaves the record's facts as they are. */
  predicate Plain(e: PushEntry) {
    e.RemovalIssued? || e.Stored? || e.Deleted?
  }

  lemma KeyAfterSnoc(log: seq<PushEntry>, e: PushEntry, before: bool)
    ensures KeyAfter(log + [e], before) == if e.Stored? then true else if e.Removed? then false else KeyAfter(log, before)
  {
    assert (log + [e])[..|log|] == log;
  }

  lemma PlainKeepsRecord(log: seq<PushEntry>, e: PushEntry, begun: set<nat>, key: bool)
    requires Plain(e) && (e.Deleted? ==> e.session in begun)
    requires DoneByBegun(log, begun) && StoredBeforePosted(log) && RemovedByLater(log) && KeyRecorded(log, key)
    ensures DoneByBegun(log + [e], begun) && StoredBeforePosted(log + [e]) && RemovedByLater(log + [e])
    ensures KeyRecorded(log + [e], e.Stored? || key)
  {
    KeyAfterSnoc(log, e, false);
    KeyAfterSnoc(log, e, true);
  }

  lemma PostKeepsRecord(log: seq<PushEntry>, e: PushEntry, begun: set<nat>)
    requires e.Posted? && log != [] && log[|log| - 1].Stored?
    requires DoneByBegun(log, begun) && StoredBeforePosted(log) && RemovedByLater(log) && KeyRecorded(log, true)
    ensures DoneByBegun(log + [e], begun) && StoredBeforePosted(log + [e]) && RemovedByLater(log + [e])
    ensures KeyRecorded(log + [e], true)
  {
    KeyAfterSnoc(log, e, false);
    KeyAfterSnoc(log, e, true);
  }

  lemma RemovalKeepsRecord(log: seq<PushEntry>, e: PushEntry, begun: set<nat>)
    requires e.Removed? && e.session in begun && PostedUpTo(log, e.session)
    requires DoneByBegun(log, begun) && StoredBeforePosted(log) && RemovedByLater(log)
    ensures DoneByBegun(log + [e], begun) && StoredBeforePosted(log + [e]) && RemovedByLater(log + [e])
    ensures KeyRecorded(log + [e], false)
  {
    KeyAfterSnoc(log, e, false);
    KeyAfterSnoc(log, e, true);
  }

  // ---------------------------------------------------------------------------
  // Preservation
  // ---------------------------------------------------------------------------

  lemma QueueStepKeepsRecord(core: Core, p: Push, e: PushEvent)
    requires PushInv(core, p) && RecordInv(p) && PushEnabled(p, e) && !e.Advance?
    ensures RecordInv(PushStep(core, p, e))
  {
    var q := PushStep(core, p, e);
    if e.TokenObtained? {
      assert Unstarted(q) == Waiting(p) + [p.asking[e.asked]] + p.importing;
      InsertedStaysOneEach(Waiting(p), p.importing, p.asking[e.asked], p.begun);
    } else if e.ImportResolved? {
      assert Unstarted(q) == Waiting(p) + [p.importing[e.owed]] + Without(p.importing, e.owed);
      MovedStaysOneEach(Waiting(p), p.importing, e.owed, p.begun);
    } else {
      assert Unstarted(q) == Unstarted(p);
    }
  }

  lemma RegisterStoresRecord(core: Core, p: Push)
    requires RecordInv(p) && p.queue != [] && p.queue[0].Register? && p.stage.StoringKey?
    ensures RecordInv(AdvanceRegister(core, p, true))
  {
    var q, g := AdvanceRegister(core, p, true), p.queue[0].generation;
    HeadGone(p, q);
    var stored := p.log + [Stored(g)];
    PlainKeepsRecord(p.log, Stored(g), p.begun, p.keyOwner.Some?);
    if q.log != stored {
      PostKeepsRecord(stored, Posted(g, core.generation, core.signedIn, q.keyOwner), p.begun);
    }
  }

  lemma RegisterKeepsRecord(core: Core, p: Push, ok: bool)
    requires RecordInv(p) && PushEnabled(p, Advance(ok)) && p.queue[0].Register?
    ensures RecordInv(AdvanceRegister(core, p, ok))
  {
    var q := AdvanceRegister(core, p, ok);
    HeadGone(p, q);
    if p.stage.Queued? {
      assert Unstarted(p)[1..] == Unstarted(q);
      HeadLeavesOneEach(p.begun, Unstarted(p));
    } else if p.stage.StoringKey? && ok {
      RegisterStoresRecord(core, p);
    }
  }

  lemma GrownBegun(log: seq<PushEntry>, begun: set<nat>, session: nat)
    requires DoneByBegun(log, begun)
    ensures DoneByBegun(log, begun + {session})
  {
  }

  lemma CleanupBeginsKeepsRecord(core: Core, p: Push, ok: bool)
    requires PushInv(core, p) && RecordInv(p) && PushEnabled(p, Advance(ok)) && p.queue[0].Cleanup? && p.stage.Queued?
    ensures RecordInv(AdvanceCleanup(core, p, ok))
  {
    var q, g := AdvanceCleanup(core, p, ok), p.queue[0].session;
    HeadGone(p, q);
    assert Unstarted(p)[1..] == Unstarted(q) && Unstarted(p)[0] == p.queue[0];
    HeadLeavesOneEach(p.begun, Unstarted(p));
    GrownBegun(p.log, p.begun, g);
    if q.log != p.log {
      PlainKeepsRecord(p.log, Deleted(g), p.begun + {g}, p.keyOwner.Some?);
    }
  }

  /** At the moment a removal is issued, nobody later than the ended session has ever posted. */
  lemma NobodyLaterPosted(core: Core, p: Push)
    requires PushInv(core, p) && p.queue != [] && p.queue[0].Cleanup? && CleanupIsCurrent(core, p.queue[0])
    ensures PostedUpTo(p.log, p.queue[0].session)
  {
    forall i | 0 <= i < |p.log| && p.log[i].Posted? ensures p.log[i].origin <= p.queue[0].session {
      assert EntryInv(core, p.log[i]);
    }
  }

  lemma RemovalIssuedKeepsRecord(core: Core, p: Push)
    requires PushInv(core, p) && RecordInv(p) && p.queue != [] && p.queue[0].Cleanup? && p.stage.Rereading?
    requires CleanupIsCurrent(core, p.queue[0]) && p.keyOwner.Some?
    ensures RecordInv(AdvanceCleanup(core, p, true))
  {
    var q := AdvanceCleanup(core, p, true);
    var e := RemovalIssued(p.queue[0].session, core.generation, core.signedIn, p.keyOwner);
    assert q == p.(stage := RemovingKey, log := p.log + [e]);
    HeadGone(p, q);
    NobodyLaterPosted(core, p);
    PlainKeepsRecord(p.log, e, p.begun, true);
  }

  lemma RemovalLandsKeepsRecord(core: Core, p: Push, ok: bool)
    requires PushInv(core, p) && RecordInv(p) && p.queue != [] && p.queue[0].Cleanup? && p.stage.RemovingKey?
    ensures RecordInv(AdvanceCleanup(core, p, ok))
  {
    var q := AdvanceCleanup(core, p, ok);
    HeadGone(p, q);
    if ok {
      RemovalKeepsRecord(p.log, Removed(p.queue[0].session, core.generation, core.signedIn, p.keyOwner), p.begun);
    }
  }

  lemma CleanupGoesOnKeepsRecord(core: Core, p: Push, ok: bool)
    requires PushInv(core, p) && RecordInv(p) && PushEnabled(p, Advance(ok)) && p.queue[0].Cleanup? && !p.stage.Queued?
    ensures RecordInv(AdvanceCleanup(core, p, ok))
  {
    var q := AdvanceCleanup(core, p, ok);
    if p.stage.RemovingKey? {
      RemovalLandsKeepsRecord(core, p, ok);
    } else if q.stage.RemovingKey? {
      RemovalIssuedKeepsRecord(core, p);
    } else {
      HeadGone(p, q);
      assert q.log == p.log && q.keyOwner == p.keyOwner && q.begun == p.begun;
    }
  }

  lemma PushStepKeepsRecord(core: Core, p: Push, e: PushEvent)
    requires PushInv(core, p) && RecordInv(p) && PushEnabled(p, e)
    ensures RecordInv(PushStep(core, p, e))
  {
    if !e.Advance? {
      QueueStepKeepsRecord(core, p, e);
    } else if p.queue[0].Register? {
      RegisterKeepsRecord(core, p, e.ok);
    } else if p.stage.Queued? {
      CleanupBeginsKeepsRecord(core, p, e.ok);
    } else {
      CleanupGoesOnKeepsRecord(core, p, e.ok);
    }
  }

  lemma EffectKeepsRecord(core: Core, p: Push, effect: Effect)
    requires PushInv(core, p) && RecordInv(p)
    ensures RecordInv(ApplyToPush(core, p, effect))
  {
    if effect.Reset? {
      var job := Cleanup(core.generation, core.access);
      assert Unstarted(ApplyToPush(core, p, effect)) == Unstarted(p) + [job];
      OneMoreEach(core.generation, p.begun, Unstarted(p), job);
    }
  }

  // ---------------------------------------------------------------------------
  // Who took the key
  // ---------------------------------------------------------------------------

  predicate StoredSince(log: seq<PushEntry>, j: nat) {
    exists k :: j < k < |log| && log[k].Stored?
  }

  /** If the key is gone after an entry that stored it, some removal after that entry was the last word on it. */
  lemma {:induction false} LastRemoval(log: seq<PushEntry>, i: nat) returns (j: nat)
    requires i < |log| && log[i].Stored? && !KeyAfter(log, false)
    ensures i < j < |log| && log[j].Removed? && !StoredSince(log, j)
    decreases |log|
  {
    var n := |log| - 1;
    if log[n].Removed? {
      j := n;
    } else {
      j := LastRemoval(log[..n], i);
      assert log[..n][j] == log[j];
      forall k | j < k < |log| ensures !log[k].Stored? {
        if k < n {
          assert log[..n][k] == log[k];
          assert !StoredSince(log[..n], j);
        }
      }
    }
  }

  lemma {:induction false} RemovedIsGone(log: seq<PushEntry>, j: nat)
    requires j < |log| && log[j].Removed? && !StoredSince(log, j)
    ensures !KeyAfter(log, true)
    decreases |log|
  {
    var n := |log| - 1;
    if j < n {
      assert !log[n].Stored?;
      assert forall k :: 0 <= k < n ==> log[..n][k] == log[k];
      RemovedIsGone(log[..n], j);
    }
  }

  /** A later session's cleanup took the key, and it has not been stored since. */
  predicate TakenSince(log: seq<PushEntry>, i: nat, session: nat) {
    exists j :: i < j < |log| && log[j].Removed? && log[j].session > session && !StoredSince(log, j)
  }

  /** Before a session's cleanup begins, its key is missing exactly if a later session's cleanup took it. */
  lemma KeyIsMissingIff(p: Push, i: nat)
    requires RecordInv(p) && i < |p.log| && p.log[i].Posted? && p.log[i].origin !in p.begun
    ensures p.keyOwner.None? <==> TakenSince(p.log, i, p.log[i].origin)
  {
    var log := p.log;
    if p.keyOwner.None? {
      var j := LastRemoval(log, i - 1);
      assert log[j].session in p.begun && j != i;
      assert log[i].origin <= log[j].session;
    } else if TakenSince(log, i, log[i].origin) {
      var j :| i < j < |log| && log[j].Removed? && log[j].session > log[i].origin && !StoredSince(log, j);
      RemovedIsGone(log, j);
    }
  }

  // ---------------------------------------------------------------------------
  // What a begun session's record becomes
  // ---------------------------------------------------------------------------

  predicate HasDeleted(log: seq<PushEntry>, session: nat) {
    exists j :: 0 <= j < |log| && log[j] == Deleted(session)
  }

  lemma DeletedSnoc(log: seq<PushEntry>, e: PushEntry, g: nat)
    ensures HasDeleted(log + [e], g) <==> HasDeleted(log, g) || e == Deleted(g)
  {
    var more := log + [e];
    assert more[|log|] == e;
    if HasDeleted(log, g) {
      var j :| 0 <= j < |log| && log[j] == Deleted(g);
      assert more[j] == Deleted(g);
    }
  }

  /** The log only grows, by nothing that concerns session g. */
  predicate LeavesAlone(before: seq<PushEntry>, after: seq<PushEntry>, g: nat) {
    && before <= after
    && (HasDeleted(after, g) <==> HasDeleted(before, g))
    && forall i :: |before| <= i < |after| && after[i].Posted? ==> after[i].origin != g
  }

  lemma OtherEntryLeavesAlone(log: seq<PushEntry>, e: PushEntry, g: nat)
    requires e != Deleted(g) && !(e.Posted? && e.origin == g)
    ensures LeavesAlone(log, log + [e], g)
  {
    DeletedSnoc(log, e, g);
  }

  lemma LeavesAloneTwice(a: seq<PushEntry>, b: seq<PushEntry>, c: seq<PushEntry>, g: nat)
    requires LeavesAlone(a, b, g) && LeavesAlone(b, c, g)
    ensures LeavesAlone(a, c, g)
  {
    assert forall i :: 0 <= i < |b| ==> b[i] == c[i];
  }

  lemma RegisterLeavesBegun(core: Core, p: Push, ok: bool, g: nat)
    requires PushEnabled(p, Advance(ok)) && p.queue[0].Register? && g < core.generation
    ensures LeavesAlone(p.log, AdvanceRegister(core, p, ok).log, g)
  {
    var q, session := AdvanceRegister(core, p, ok), p.queue[0].generation;
    if p.stage.StoringKey? && ok {
      var stored := p.log + [Stored(session)];
      OtherEntryLeavesAlone(p.log, Stored(session), g);
      if q.log != stored {
        var e := Posted(session, core.generation, core.signedIn, q.keyOwner);
        OtherEntryLeavesAlone(stored, e, g);
        LeavesAloneTwice(p.log, stored, stored + [e], g);
      }
    }
  }

  lemma CleanupLeavesBegun(core: Core, p: Push, ok: bool, g: nat)
    requires PushEnabled(p, Advance(ok)) && p.queue[0].Cleanup? && (p.stage.Queued? ==> p.queue[0].session != g)
    ensures LeavesAlone(p.log, AdvanceCleanup(core, p, ok).log, g)
  {
    var q := AdvanceCleanup(core, p, ok);
    if q.log != p.log {
      OtherEntryLeavesAlone(p.log, q.log[|p.log|], g);
    }
  }

  /** No step deletes for a session whose cleanup began earlier, or posts for one that is over. */
  lemma StepLeavesBegun(core: Core, p: Push, e: PushEvent, g: nat)
    requires RecordInv(p) && PushEnabled(p, e) && g in p.begun && g < core.generation
    ensures g in PushStep(core, p, e).begun && LeavesAlone(p.log, PushStep(core, p, e).log, g)
  {
    if e.Advance? && p.queue[0].Register? {
      RegisterLeavesBegun(core, p, e.ok, g);
    } else if e.Advance? {
      assert p.stage.Queued? ==> Unstarted(p)[0] == p.queue[0];
      CleanupLeavesBegun(core, p, e.ok, g);
    }
  }

  /** A cleanup that begins deletes exactly if its read of the key succeeds and finds it, as long as there is anything to delete. */
  lemma BeginningDeletesIff(core: Core, p: Push, ok: bool)
    requires PushInv(core, p) && RecordInv(p) && p.queue != [] && p.stage.Queued? && p.queue[0].Cleanup?
    ensures var g, q := p.queue[0].session, PushStep(core, p, Advance(ok));
            && g in q.begun && g !in p.begun && g < core.generation && p.log <= q.log
            && !HasDeleted(p.log, g)
            && (HasPosted(p.log, g) ==> (HasDeleted(q.log, g) <==> ok && p.keyOwner.Some?))
            && forall i :: |p.log| <= i < |q.log| ==> !q.log[i].Posted?
  {
    var g := p.queue[0].session;
    assert Unstarted(p)[0] == p.queue[0];
    assert p.queue[0] in Unstarted(p);
    DeletedSnoc(p.log, Deleted(g), g);
  }
}
