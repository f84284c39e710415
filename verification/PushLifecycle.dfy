/**
 * The FIFO push-lifecycle queue: device registrations made by a session and
 * the cleanup each sign-out owes. The device's push token is fixed; the key
 * under which it is remembered is the only shared device storage.
 */
module PushLifecycle {
  import opened Prelude
  import opened SessionCore

  datatype PushJob =
    | Register(generation: nat, access: Option<Token>)
    | Cleanup(session: nat, access: Option<Token>)  // session is the generation the reset ended

  /** How far the job at the head of the queue has got. */
  datatype PushStage =
    | Queued
    | StoringKey     // registration: setItem issued
    | Posting        // registration: POST issued (or skipped for want of a bearer)
    | Deleting       // cleanup: key read, DELETE issued (or skipped for want of a bearer)
    | Rereading      // cleanup: second getItem issued
    | RemovingKey    // cleanup: removeItem issued
    | ClearingBadge

  /** What reached the server or device storage, in order, with the session and the key as they stood. */
  datatype PushEntry =
    | Stored(session: nat)
    | Posted(origin: nat, generation: nat, signedIn: bool, keyOwner: Option<int>)
    | Deleted(session: nat)
    | RemovalIssued(session: nat, generation: nat, signedIn: bool, keyOwner: Option<int>)
    | Removed(session: nat, generation: nat, signedIn: bool, keyOwner: Option<int>)

  datatype Push = Push(
    queue: seq<PushJob>,
    stage: PushStage,
    asking: seq<PushJob>,      // registrations still awaiting permission or the device token
    importing: seq<PushJob>,   // cleanups whose dynamic import has not resolved yet
    keyOwner: Option<int>,     // generation that last stored the key, -1 for an earlier launch; None when absent
    log: seq<PushEntry>,       // history
    begun: set<nat>,           // history: sessions whose cleanup has begun
    inOrder: bool,             // history: imports have resolved in the order they were asked for
    failed: bool)              // some device-storage call has failed

  datatype PushEvent =
    | Ask                        // registerPushToken up to its first await
    | TokenObtained(asked: nat)  // ... and its enqueueing, once permission and token are there
    | AskDropped(asked: nat)     // ... or its early return
    | ImportResolved(owed: nat)  // deregisterPushToken enqueues one of the pending cleanups
    | Advance(ok: bool)          // the head job's pending call settles and it runs to its next await

  predicate PushEnabled(p: Push, e: PushEvent) {
    match e
    case Ask => true
    case TokenObtained(k) => k < |p.asking|
    case AskDropped(k) => k < |p.asking|
    case ImportResolved(k) => k < |p.importing|
    case Advance(_) => p.queue != [] && StageOfJob(p.queue[0], p.stage)
  }

  predicate StageOfJob(job: PushJob, stage: PushStage) {
    match job
    case Register(_, _) => stage.Queued? || stage.StoringKey? || stage.Posting?
    case Cleanup(_, _) => !stage.StoringKey? && !stage.Posting?
  }

  function PushStep(core: Core, p: Push, e: PushEvent): Push
    requires PushEnabled(p, e)
  {
    match e
    case Ask => p.(asking := p.asking + [Register(core.generation, core.access)])
    case TokenObtained(k) => p.(asking := Without(p.asking, k), queue := p.queue + [p.asking[k]])
    case AskDropped(k) => p.(asking := Without(p.asking, k))
    case ImportResolved(k) =>
      p.(importing := Without(p.importing, k), queue := p.queue + [p.importing[k]], inOrder := p.inOrder && k == 0)
    case Advance(ok) => if p.queue[0].Register? then AdvanceRegister(core, p, ok) else AdvanceCleanup(core, p, ok)
  }

  function Without(jobs: seq<PushJob>, k: nat): seq<PushJob>
    requires k < |jobs|
  {
    jobs[..k] + jobs[k + 1..]
  }

  function Leave(p: Push): Push
    requires p.queue != []
  {
    p.(queue := p.queue[1..], stage := Queued)
  }

  /** registrationIsCurrent: the originating session is still the one signed in. */
  predicate RegistrationIsCurrent(core: Core, job: PushJob)
    requires job.Register?
  {
    core.generation == job.generation && core.signedIn
  }

  /** cleanupIsCurrent: still signed out, and by the very reset that owes this cleanup. */
  predicate CleanupIsCurrent(core: Core, job: PushJob)
    requires job.Cleanup?
  {
    core.generation == job.session + 1 && !core.signedIn
  }

  function AdvanceRegister(core: Core, p: Push, ok: bool): Push
    requires p.queue != [] && p.queue[0].Register? && StageOfJob(p.queue[0], p.stage)
  {
    var job := p.queue[0];
    match p.stage
    case Queued => if RegistrationIsCurrent(core, job) then p.(stage := StoringKey) else Leave(p)
    case StoringKey =>
      if !ok then Leave(p).(failed := true)
      else
        var stored := p.(keyOwner := Some(job.generation), log := p.log + [Stored(job.generation)]);
        if !RegistrationIsCurrent(core, job) then Leave(stored)
        else if job.access.None? then stored.(stage := Posting)
        else stored.(stage := Posting, log := stored.log + [Posted(job.generation, core.generation, core.signedIn, stored.keyOwner)])
    case _ => Leave(p)
  }

  function AdvanceCleanup(core: Core, p: Push, ok: bool): Push
    requires p.queue != [] && p.queue[0].Cleanup? && StageOfJob(p.queue[0], p.stage)
  {
    var job := p.queue[0];
    match p.stage
    case Queued =>  // the key has been read
      var started := p.(begun := p.begun + {job.session});
      if !ok then Leave(started).(failed := true)
      else if p.keyOwner.None? then Leave(started)
      else if job.access.None? then started.(stage := Deleting)
      else started.(stage := Deleting, log := p.log + [Deleted(job.session)])
    case Deleting => if CleanupIsCurrent(core, job) then p.(stage := Rereading) else Leave(p)
    case Rereading =>
      if !ok then Leave(p).(failed := true)
      else if !CleanupIsCurrent(core, job) || p.keyOwner.None? then Leave(p)
      else
        p.(stage := RemovingKey,
           log := p.log + [RemovalIssued(job.session, core.generation, core.signedIn, p.keyOwner)])
    case RemovingKey =>
      var removed :=
        if ok then
          p.(keyOwner := None, log := p.log + [Removed(job.session, core.generation, core.signedIn, p.keyOwner)])
        else p.(failed := true);
      if CleanupIsCurrent(core, job) then removed.(stage := ClearingBadge) else Leave(removed)
    case _ => Leave(p)
  }

  /** A reset owes one cleanup, carrying the bearer of the session it ended. */
  function ApplyToPush(core: Core, p: Push, effect: Effect): Push {
    match effect
    case Reset => p.(importing := p.importing + [Cleanup(core.generation, core.access)])
    case _ => p
  }

  /**
   * When a registration goes on: it asks storage only in its own signed-in session, posts only if the key was stored
   * and that session still runs, and says so only with a bearer.
   */
  lemma RegistrationGoesOnIff(core: Core, p: Push, ok: bool)
    requires p.queue != [] && p.queue[0].Register? && StageOfJob(p.queue[0], p.stage)
    ensures var job, q := p.queue[0], AdvanceRegister(core, p, ok);
            var mine := core.generation == job.generation && core.signedIn;
            && (q.stage.StoringKey? <==> p.stage.Queued? && mine)
            && (q.stage.Posting? <==> p.stage.StoringKey? && ok && mine)
            && (q.stage.Queued? <==> !q.stage.StoringKey? && !q.stage.Posting?)
            && q.queue == (if q.stage.Queued? then p.queue[1..] else p.queue)
            && (q.keyOwner == if p.stage.StoringKey? && ok then Some(job.generation) else p.keyOwner)
            && (|q.log| == |p.log| + (if p.stage.StoringKey? && ok then (if mine && job.access.Some? then 2 else 1) else 0))
            && p.log <= q.log && q.importing == p.importing && q.asking == p.asking && q.begun == p.begun
  {
  }

  /**
   * When a cleanup goes on: it deletes only if it read a key, looks at the key again and removes it only while its own
   * sign-out is the last word, and clears the badge only if that is still so.
   */
  lemma CleanupGoesOnIff(core: Core, p: Push, ok: bool)
    requires p.queue != [] && p.queue[0].Cleanup? && StageOfJob(p.queue[0], p.stage)
    ensures var job, q := p.queue[0], AdvanceCleanup(core, p, ok);
            var mine := core.generation == job.session + 1 && !core.signedIn;
            && (q.stage.Deleting? <==> p.stage.Queued? && ok && p.keyOwner.Some?)
            && (q.stage.Rereading? <==> p.stage.Deleting? && mine)
            && (q.stage.RemovingKey? <==> p.stage.Rereading? && ok && mine && p.keyOwner.Some?)
            && (q.stage.ClearingBadge? <==> p.stage.RemovingKey? && mine)
            && (q.stage.Queued? <==> q.queue == p.queue[1..]) && (!q.stage.Queued? ==> q.queue == p.queue)
            && (q.keyOwner == if p.stage.RemovingKey? && ok then None else p.keyOwner)
            && q.begun == (if p.stage.Queued? then p.begun + {job.session} else p.begun)
            && p.log <= q.log && q.importing == p.importing && q.asking == p.asking
  {
    assert |p.queue[1..]| < |p.queue|;
  }

  // ---------------------------------------------------------------------------
  // The invariant
  // ---------------------------------------------------------------------------

  /** Jobs that have not begun yet, wherever they wait. */
  function Unstarted(p: Push): seq<PushJob> {
    (if p.stage.Queued? || p.queue == [] then p.queue else p.queue[1..]) + p.importing
  }

  /** Session g has been signed in: it ended, or it is the one signed in now. */
  predicate WasSignedIn(core: Core, g: int) {
    g < core.generation || (g == core.generation && core.signedIn)
  }

  predicate StageInv(core: Core, p: Push) {
    && (p.queue == [] ==> p.stage.Queued?)
    && (p.queue != [] ==> StageOfJob(p.queue[0], p.stage))
    && (forall i :: 0 <= i < |p.asking| ==> p.asking[i].Register?)
    && (forall i :: 0 <= i < |p.importing| ==> p.importing[i].Cleanup?)
    && (p.stage.StoringKey? ==> WasSignedIn(core, p.queue[0].generation))
    && (p.queue != [] && p.queue[0].Cleanup? && !p.stage.Queued? ==> p.queue[0].session in p.begun)
    && (p.keyOwner.Some? ==> WasSignedIn(core, p.keyOwner.value))
    && (p.stage.RemovingKey? ==>
          p.queue[0].session < core.generation && p.keyOwner.Some? && p.keyOwner.value <= p.queue[0].session)
  }

  predicate EntryInv(core: Core, e: PushEntry) {
    match e
    case Stored(_) => true
    case Posted(origin, generation, signedIn, owner) =>
      origin == generation && signedIn && owner == Some(origin) && WasSignedIn(core, origin)
    case Deleted(_) => true
    case RemovalIssued(session, generation, signedIn, owner) =>
      generation == session + 1 && !signedIn && owner.Some? && owner.value <= session
    case Removed(session, generation, _, owner) =>
      generation > session && owner.Some? && owner.value <= session
  }

  predicate LogInv(core: Core, log: seq<PushEntry>) {
    forall i :: 0 <= i < |log| ==> EntryInv(core, log[i])
  }

  predicate Owes(jobs: seq<PushJob>, session: nat) {
    exists job :: job in jobs && job.Cleanup? && job.session == session
  }

  /** Every ended session's cleanup has begun or waits, and only ended sessions have one. */
  predicate DebtsInv(generation: nat, begun: set<nat>, jobs: seq<PushJob>) {
    && (forall job :: job in jobs && job.Cleanup? ==> job.session < generation)
    && (forall g :: g in begun ==> g < generation)
    && (forall g {:trigger Owes(jobs, g)} :: 0 <= g < generation ==> g in begun || Owes(jobs, g))
  }

  predicate HasPosted(log: seq<PushEntry>, session: nat) {
    exists i :: 0 <= i < |log| && log[i].Posted? && log[i].origin == session
  }

  /** A cleanup with something to delete carries a bearer. */
  predicate BearersInv(jobs: seq<PushJob>, log: seq<PushEntry>) {
    forall job :: job in jobs && job.Cleanup? && HasPosted(log, job.session) ==> job.access.Some?
  }

  /** Cleanups wait in the order their sessions ended, behind all that have begun. */
  predicate Ordered(begun: set<nat>, jobs: seq<PushJob>) {
    && (forall i, j :: 0 <= i < j < |jobs| && jobs[i].Cleanup? && jobs[j].Cleanup? ==> jobs[i].session < jobs[j].session)
    && (forall g, j :: g in begun && 0 <= j < |jobs| && jobs[j].Cleanup? ==> g < jobs[j].session)
  }

  predicate DeletedAfter(log: seq<PushEntry>, i: nat, session: nat) {
    exists j :: i < j < |log| && log[j] == Deleted(session)
  }

  /** A later session's cleanup has removed the key since. */
  predicate TakenAfter(log: seq<PushEntry>, i: nat, session: nat) {
    exists j :: i < j < |log| && log[j].Removed? && log[j].session > session
  }

  predicate CoveredAt(log: seq<PushEntry>, i: nat, begun: set<nat>, keyStored: bool, inOrder: bool)
    requires i < |log| && log[i].Posted?
  {
    || (if log[i].origin in begun then DeletedAfter(log, i, log[i].origin) else keyStored)
    || (!inOrder && TakenAfter(log, i, log[i].origin))
  }

  /**
   * A registration whose session's cleanup has begun has been deleted again, any other is still covered by the
   * stored key; only imports that resolve out of order let a later session's cleanup take the key away first.
   */
  predicate Covered(log: seq<PushEntry>, begun: set<nat>, keyStored: bool, inOrder: bool) {
    forall i :: 0 <= i < |log| && log[i].Posted? ==> CoveredAt(log, i, begun, keyStored, inOrder)
  }

  /** A removal is under way: every registration is begun or of an earlier session than the remover's. */
  predicate OnlyEarlier(log: seq<PushEntry>, begun: set<nat>, session: nat) {
    forall i :: 0 <= i < |log| && log[i].Posted? ==> log[i].origin in begun || log[i].origin < session
  }

  predicate PushInv(core: Core, p: Push) {
    && StageInv(core, p)
    && LogInv(core, p.log)
    && DebtsInv(core.generation, p.begun, Unstarted(p))
    && BearersInv(Unstarted(p), p.log)
    && (p.inOrder ==> Ordered(p.begun, Unstarted(p)))
    && (p.stage.RemovingKey? ==> OnlyEarlier(p.log, p.begun, p.queue[0].session))
    && (!p.failed ==> Covered(p.log, p.begun, p.keyOwner.Some?, p.inOrder))
  }

  // ---------------------------------------------------------------------------
  // Debts
  // ---------------------------------------------------------------------------

  /** Debts and bearers depend on which cleanups wait, not on where. */
  predicate SameDebts(jobs: seq<PushJob>, others: seq<PushJob>) {
    && (forall job :: job in jobs && job.Cleanup? ==> job in others)
    && (forall job :: job in others && job.Cleanup? ==> job in jobs)
  }

  lemma SameDebtsKeepInv(generation: nat, begun: set<nat>, jobs: seq<PushJob>, others: seq<PushJob>, log: seq<PushEntry>)
    requires SameDebts(jobs, others) && DebtsInv(generation, begun, jobs) && BearersInv(jobs, log)
    ensures DebtsInv(generation, begun, others) && BearersInv(others, log)
  {
    forall g | 0 <= g < generation ensures g in begun || Owes(others, g) {
      if g !in begun {
        assert Owes(jobs, g);
        var job :| job in jobs && job.Cleanup? && job.session == g;
        assert job in others;
      }
    }
  }

  /** A registration joins the jobs without changing any debt. */
  lemma InsertedRegistration(a: seq<PushJob>, b: seq<PushJob>, job: PushJob, begun: set<nat>)
    requires job.Register?
    ensures SameDebts(a + b, a + [job] + b)
    ensures Ordered(begun, a + b) ==> Ordered(begun, a + [job] + b)
  {
    var jobs, others := a + b, a + [job] + b;
    assert forall i :: 0 <= i < |a| ==> others[i] == jobs[i];
    assert forall i :: |a| < i < |others| ==> others[i] == jobs[i - 1];
    assert others[|a|] == job;
    forall other | other in jobs ensures other in others {
      var i :| 0 <= i < |jobs| && jobs[i] == other;
      assert others[if i < |a| then i else i + 1] == other;
    }
  }

  /** Jobs taken out of the middle and put at the end of the queue are the same debts. */
  lemma MovedImport(head: seq<PushJob>, importing: seq<PushJob>, k: nat)
    requires k < |importing|
    ensures SameDebts(head + importing, head + [importing[k]] + Without(importing, k))
    ensures k == 0 ==> head + [importing[k]] + Without(importing, k) == head + importing
  {
    assert importing == importing[..k] + [importing[k]] + importing[k + 1..];
  }

  /** The head begins: a registration owes nothing, a cleanup is one debt less. */
  lemma HeadBegins(generation: nat, begun: set<nat>, jobs: seq<PushJob>, log: seq<PushEntry>)
    requires jobs != [] && DebtsInv(generation, begun, jobs) && BearersInv(jobs, log)
    ensures jobs[0].Register? ==> DebtsInv(generation, begun, jobs[1..])
    ensures jobs[0].Cleanup? ==> DebtsInv(generation, begun + {jobs[0].session}, jobs[1..])
    ensures BearersInv(jobs[1..], log)
  {
    var rest := jobs[1..];
    assert jobs == [jobs[0]] + rest;
    forall g | 0 <= g < generation && Owes(jobs, g) ensures Owes(rest, g) || (jobs[0].Cleanup? && g == jobs[0].session) {
      var job :| job in jobs && job.Cleanup? && job.session == g;
      assert job == jobs[0] || job in rest;
    }
    forall g | 0 <= g < generation && g !in begun ensures Owes(rest, g) || (jobs[0].Cleanup? && g == jobs[0].session) {
      assert Owes(jobs, g);
    }
  }

  lemma HeadBeginsInOrder(begun: set<nat>, jobs: seq<PushJob>)
    requires jobs != [] && Ordered(begun, jobs)
    ensures jobs[0].Register? ==> Ordered(begun, jobs[1..])
    ensures jobs[0].Cleanup? ==> Ordered(begun + {jobs[0].session}, jobs[1..])
  {
    var rest := jobs[1..];
    assert forall i :: 0 <= i < |rest| ==> rest[i] == jobs[i + 1];
  }

  /** A reset adds the debt of the session it ends, behind all others. */
  lemma OneMoreDebt(generation: nat, begun: set<nat>, jobs: seq<PushJob>, job: PushJob)
    requires job.Cleanup? && job.session == generation && DebtsInv(generation, begun, jobs)
    ensures DebtsInv(generation + 1, begun, jobs + [job])
    ensures Ordered(begun, jobs) ==> Ordered(begun, jobs + [job])
  {
    var more := jobs + [job];
    assert job in more;
    forall g | 0 <= g < generation + 1 && g !in begun ensures Owes(more, g) {
      if g < generation {
        assert Owes(jobs, g);
        var other :| other in jobs && other.Cleanup? && other.session == g;
        assert other in more;
      }
    }
    assert forall i :: 0 <= i < |jobs| ==> more[i] == jobs[i] && jobs[i] in jobs;
  }

  // ---------------------------------------------------------------------------
  // Covers
  // ---------------------------------------------------------------------------

  lemma PostsOfSnoc(log: seq<PushEntry>, e: PushEntry, session: nat)
    ensures HasPosted(log + [e], session) <==> HasPosted(log, session) || (e.Posted? && e.origin == session)
  {
    var more := log + [e];
    if HasPosted(log, session) {
      var i :| 0 <= i < |log| && log[i].Posted? && log[i].origin == session;
      assert more[i] == log[i];
    }
    assert more[|log|] == e;
  }

  lemma OtherEntryKeepsBearers(jobs: seq<PushJob>, log: seq<PushEntry>, e: PushEntry)
    requires BearersInv(jobs, log) && !e.Posted?
    ensures BearersInv(jobs, log + [e])
  {
    forall job | job in jobs && job.Cleanup? && HasPosted(log + [e], job.session) ensures job.access.Some? {
      PostsOfSnoc(log, e, job.session);
    }
  }

  /** A registration of the running session concerns no cleanup that waits. */
  lemma PostKeepsBearers(generation: nat, begun: set<nat>, jobs: seq<PushJob>, log: seq<PushEntry>, e: PushEntry)
    requires BearersInv(jobs, log) && DebtsInv(generation, begun, jobs) && e.Posted? && e.origin == generation
    ensures BearersInv(jobs, log + [e])
  {
    forall job | job in jobs && job.Cleanup? && HasPosted(log + [e], job.session) ensures job.access.Some? {
      PostsOfSnoc(log, e, job.session);
    }
  }

  /** What has covered a registration goes on covering it as the log grows. */
  lemma CoverStays(log: seq<PushEntry>, e: PushEntry, i: nat, begun: set<nat>, key: bool, inOrder: bool)
    requires i < |log| && log[i].Posted? && CoveredAt(log, i, begun, key, inOrder)
    ensures CoveredAt(log + [e], i, begun, key, inOrder)
  {
    var more, g := log + [e], log[i].origin;
    assert more[i] == log[i];
    if g in begun && DeletedAfter(log, i, g) {
      var j :| i < j < |log| && log[j] == Deleted(g);
      assert more[j] == log[j];
    } else if !inOrder && TakenAfter(log, i, g) {
      var j :| i < j < |log| && log[j].Removed? && log[j].session > g;
      assert more[j] == log[j];
    }
  }

  lemma OtherEntryKeepsCover(log: seq<PushEntry>, e: PushEntry, begun: set<nat>, key: bool, inOrder: bool)
    requires !e.Posted? && Covered(log, begun, key, inOrder)
    ensures Covered(log + [e], begun, key, inOrder)
  {
    var more := log + [e];
    forall i | 0 <= i < |more| && more[i].Posted? ensures CoveredAt(more, i, begun, key, inOrder) {
      assert i < |log| && more[i] == log[i];
      CoverStays(log, e, i, begun, key, inOrder);
    }
  }

  /** Storing the key covers what it covered before, and more. */
  lemma StoredKeyCovers(log: seq<PushEntry>, begun: set<nat>, key: bool, inOrder: bool)
    requires Covered(log, begun, key, inOrder)
    ensures Covered(log, begun, true, inOrder)
  {
    forall i | 0 <= i < |log| && log[i].Posted? ensures CoveredAt(log, i, begun, true, inOrder) {
      assert CoveredAt(log, i, begun, key, inOrder);
    }
  }

  lemma PostKeepsCover(log: seq<PushEntry>, e: PushEntry, begun: set<nat>, inOrder: bool)
    requires e.Posted? && e.origin !in begun && Covered(log, begun, true, inOrder)
    ensures Covered(log + [e], begun, true, inOrder)
  {
    var more := log + [e];
    forall i | 0 <= i < |more| && more[i].Posted? ensures CoveredAt(more, i, begun, true, inOrder) {
      if i < |log| {
        assert more[i] == log[i];
        CoverStays(log, e, i, begun, true, inOrder);
      }
    }
  }

  /** An import out of order allows more, never less. */
  lemma OutOfOrderKeepsCover(log: seq<PushEntry>, begun: set<nat>, key: bool, inOrder: bool)
    requires Covered(log, begun, key, inOrder)
    ensures Covered(log, begun, key, false)
  {
    forall i | 0 <= i < |log| && log[i].Posted? ensures CoveredAt(log, i, begun, key, false) {
      assert CoveredAt(log, i, begun, key, inOrder);
    }
  }

  /** A cleanup that finds the key deletes what its session posted. */
  lemma DeleteKeepsCover(log: seq<PushEntry>, begun: set<nat>, session: nat, inOrder: bool)
    requires Covered(log, begun, true, inOrder)
    ensures Covered(log + [Deleted(session)], begun + {session}, true, inOrder)
  {
    var more := log + [Deleted(session)];
    forall i | 0 <= i < |more| && more[i].Posted? ensures CoveredAt(more, i, begun + {session}, true, inOrder) {
      assert i < |log| && more[i] == log[i];
      if log[i].origin == session {
        assert more[|log|] == Deleted(session);
      } else {
        CoverStays(log, Deleted(session), i, begun, true, inOrder);
      }
    }
  }

  /** A cleanup without a bearer, or without a key, had nothing of its own left to delete. */
  lemma IdleCleanupKeepsCover(log: seq<PushEntry>, begun: set<nat>, session: nat, key: bool, inOrder: bool)
    requires Covered(log, begun, key, inOrder) && (key ==> !HasPosted(log, session))
    ensures Covered(log, begun + {session}, key, inOrder)
  {
    forall i | 0 <= i < |log| && log[i].Posted? ensures CoveredAt(log, i, begun + {session}, key, inOrder) {
      assert CoveredAt(log, i, begun, key, inOrder);
      assert log[i].origin == session ==> HasPosted(log, session);
    }
  }

  /** The key goes: out of order this is what takes it from earlier sessions, in order all of those have begun. */
  lemma RemovalKeepsCover(log: seq<PushEntry>, e: PushEntry, begun: set<nat>, inOrder: bool)
    requires e.Removed? && Covered(log, begun, true, inOrder) && OnlyEarlier(log, begun, e.session)
    requires inOrder ==> forall i :: 0 <= i < |log| && log[i].Posted? ==> log[i].origin in begun
    ensures Covered(log + [e], begun, false, inOrder)
  {
    var more := log + [e];
    forall i | 0 <= i < |more| && more[i].Posted? ensures CoveredAt(more, i, begun, false, inOrder) {
      assert i < |log| && more[i] == log[i] && more[|log|] == e;
      CoverStays(log, e, i, begun, true, inOrder);
    }
  }

  // ---------------------------------------------------------------------------
  // Preservation
  // ---------------------------------------------------------------------------

  lemma LogGrows(core: Core, log: seq<PushEntry>, e: PushEntry)
    requires LogInv(core, log) && EntryInv(core, e)
    ensures LogInv(core, log + [e])
  {
  }

  /** The part of the queue that has not begun. */
  function Waiting(p: Push): seq<PushJob> {
    if p.stage.Queued? || p.queue == [] then p.queue else p.queue[1..]
  }

  lemma TokenKeepsInv(core: Core, p: Push, k: nat)
    requires PushInv(core, p) && k < |p.asking|
    ensures PushInv(core, PushStep(core, p, TokenObtained(k)))
  {
    var q := PushStep(core, p, TokenObtained(k));
    assert Unstarted(q) == Waiting(p) + [p.asking[k]] + p.importing;
    InsertedRegistration(Waiting(p), p.importing, p.asking[k], p.begun);
    SameDebtsKeepInv(core.generation, p.begun, Unstarted(p), Unstarted(q), p.log);
  }

  lemma ImportKeepsInv(core: Core, p: Push, k: nat)
    requires PushInv(core, p) && k < |p.importing|
    ensures PushInv(core, PushStep(core, p, ImportResolved(k)))
  {
    var q := PushStep(core, p, ImportResolved(k));
    assert Unstarted(q) == Waiting(p) + [p.importing[k]] + Without(p.importing, k);
    MovedImport(Waiting(p), p.importing, k);
    SameDebtsKeepInv(core.generation, p.begun, Unstarted(p), Unstarted(q), p.log);
    if !p.failed && k > 0 {
      OutOfOrderKeepsCover(p.log, p.begun, p.keyOwner.Some?, p.inOrder);
    }
  }

  lemma AskingKeepsInv(core: Core, p: Push, asking: seq<PushJob>)
    requires PushInv(core, p) && forall i :: 0 <= i < |asking| ==> asking[i].Register?
    ensures PushInv(core, p.(asking := asking))
  {
    assert Unstarted(p.(asking := asking)) == Unstarted(p);
  }

  lemma QueueStepKeepsInv(core: Core, p: Push, e: PushEvent)
    requires PushInv(core, p) && PushEnabled(p, e) && !e.Advance?
    ensures PushInv(core, PushStep(core, p, e))
  {
    match e
    case Ask => AskingKeepsInv(core, p, PushStep(core, p, e).asking);
    case AskDropped(_) => AskingKeepsInv(core, p, PushStep(core, p, e).asking);
    case TokenObtained(k) => TokenKeepsInv(core, p, k);
    case ImportResolved(k) => ImportKeepsInv(core, p, k);
  }

  /** The head is under way or has left: nothing but the head was ever going to begin. */
  lemma HeadGone(p: Push, q: Push)
    requires p.queue != [] && q.importing == p.importing
    requires (q.queue == p.queue && !q.stage.Queued?) || (q.queue == p.queue[1..] && q.stage.Queued?)
    ensures Unstarted(q) == p.queue[1..] + p.importing
    ensures p.stage.Queued? ==> Unstarted(p) == [p.queue[0]] + Unstarted(q)
    ensures !p.stage.Queued? ==> Unstarted(p) == Unstarted(q)
  {
  }

  lemma RegisterBegins(core: Core, p: Push, ok: bool)
    requires PushInv(core, p) && PushEnabled(p, Advance(ok)) && p.queue[0].Register? && p.stage.Queued?
    ensures PushInv(core, AdvanceRegister(core, p, ok))
  {
    var q := AdvanceRegister(core, p, ok);
    HeadGone(p, q);
    assert Unstarted(p)[1..] == Unstarted(q);
    HeadBegins(core.generation, p.begun, Unstarted(p), p.log);
    if p.inOrder {
      HeadBeginsInOrder(p.begun, Unstarted(p));
    }
  }

  /** The key is stored, and the registration posted if its session is still the one signed in. */
  lemma StoringKeepsCover(log: seq<PushEntry>, session: nat, begun: set<nat>, key: bool, inOrder: bool)
    requires Covered(log, begun, key, inOrder)
    ensures Covered(log + [Stored(session)], begun, true, inOrder)
  {
    StoredKeyCovers(log, begun, key, inOrder);
    OtherEntryKeepsCover(log, Stored(session), begun, true, inOrder);
  }

  lemma RegisterStores(core: Core, p: Push, ok: bool)
    requires PushInv(core, p) && PushEnabled(p, Advance(ok)) && p.queue[0].Register? && p.stage.StoringKey?
    ensures PushInv(core, AdvanceRegister(core, p, ok))
  {
    var q := AdvanceRegister(core, p, ok);
    HeadGone(p, q);
    if ok {
      var g := p.queue[0].generation;
      var stored := p.log + [Stored(g)];
      LogGrows(core, p.log, Stored(g));
      OtherEntryKeepsBearers(Unstarted(p), p.log, Stored(g));
      if !p.failed {
        StoringKeepsCover(p.log, g, p.begun, p.keyOwner.Some?, p.inOrder);
      }
      if q.log != stored {
        var e := Posted(g, core.generation, core.signedIn, q.keyOwner);
        assert q.log == stored + [e];
        LogGrows(core, stored, e);
        PostKeepsBearers(core.generation, p.begun, Unstarted(p), stored, e);
        if !p.failed {
          PostKeepsCover(stored, e, p.begun, p.inOrder);
        }
      }
    }
  }

  lemma RegisterKeepsInv(core: Core, p: Push, ok: bool)
    requires PushInv(core, p) && PushEnabled(p, Advance(ok)) && p.queue[0].Register?
    ensures PushInv(core, AdvanceRegister(core, p, ok))
  {
    if p.stage.Queued? {
      RegisterBegins(core, p, ok);
    } else if p.stage.StoringKey? {
      RegisterStores(core, p, ok);
    } else {
      HeadGone(p, AdvanceRegister(core, p, ok));
    }
  }

  lemma CleanupBeginsKeepsCover(core: Core, p: Push)
    requires PushInv(core, p) && !p.failed && p.queue != [] && p.queue[0].Cleanup? && p.stage.Queued?
    ensures var q := AdvanceCleanup(core, p, true);
            Covered(q.log, q.begun, q.keyOwner.Some?, q.inOrder)
  {
    var job := p.queue[0];
    if p.keyOwner.Some? && job.access.Some? {
      DeleteKeepsCover(p.log, p.begun, job.session, p.inOrder);
    } else {
      assert job in Unstarted(p);
      IdleCleanupKeepsCover(p.log, p.begun, job.session, p.keyOwner.Some?, p.inOrder);
    }
  }

  lemma CleanupBeginsKeepsInv(core: Core, p: Push, ok: bool)
    requires PushInv(core, p) && PushEnabled(p, Advance(ok)) && p.queue[0].Cleanup? && p.stage.Queued?
    ensures PushInv(core, AdvanceCleanup(core, p, ok))
  {
    var q := AdvanceCleanup(core, p, ok);
    var job := p.queue[0];
    HeadGone(p, q);
    assert Unstarted(p)[1..] == Unstarted(q) && Unstarted(p)[0] == job;
    HeadBegins(core.generation, p.begun, Unstarted(p), p.log);
    if p.inOrder {
      HeadBeginsInOrder(p.begun, Unstarted(p));
    }
    if q.log != p.log {
      LogGrows(core, p.log, Deleted(job.session));
      OtherEntryKeepsBearers(Unstarted(q), p.log, Deleted(job.session));
    }
    if !q.failed {
      CleanupBeginsKeepsCover(core, p);
    }
  }

  /** A removal is issued only while its own sign-out is the last thing that happened to the session. */
  lemma OnlyEarlierPosted(core: Core, p: Push)
    requires PushInv(core, p) && p.queue != [] && p.queue[0].Cleanup? && !p.stage.Queued?
    requires CleanupIsCurrent(core, p.queue[0])
    ensures OnlyEarlier(p.log, p.begun, p.queue[0].session)
  {
    forall i | 0 <= i < |p.log| && p.log[i].Posted? ensures p.log[i].origin in p.begun || p.log[i].origin < p.queue[0].session {
      assert EntryInv(core, p.log[i]);
    }
  }

  lemma RemovalIssuedKeepsInv(core: Core, p: Push)
    requires PushInv(core, p) && p.queue != [] && p.queue[0].Cleanup? && p.stage.Rereading?
    requires CleanupIsCurrent(core, p.queue[0]) && p.keyOwner.Some?
    ensures PushInv(core, AdvanceCleanup(core, p, true))
  {
    var q := AdvanceCleanup(core, p, true);
    var e := RemovalIssued(p.queue[0].session, core.generation, core.signedIn, p.keyOwner);
    assert q == p.(stage := RemovingKey, log := p.log + [e]);
    HeadGone(p, q);
    OnlyEarlierPosted(core, p);
    LogGrows(core, p.log, e);
    OtherEntryKeepsBearers(Unstarted(p), p.log, e);
    if !p.failed {
      OtherEntryKeepsCover(p.log, e, p.begun, true, p.inOrder);
    }
  }

  lemma OwedIsLater(begun: set<nat>, jobs: seq<PushJob>, session: nat, owed: nat)
    requires Ordered(begun, jobs) && session in begun
    ensures Owes(jobs, owed) ==> session < owed
  {
    if Owes(jobs, owed) {
      var job :| job in jobs && job.Cleanup? && job.session == owed;
      var j :| 0 <= j < |jobs| && jobs[j] == job;
      assert session < jobs[j].session;
    }
  }

  /** In order, every session up to the remover's has begun. */
  lemma EarlierHaveBegun(core: Core, p: Push)
    requires PushInv(core, p) && p.stage.RemovingKey? && p.inOrder
    ensures forall i :: 0 <= i < |p.log| && p.log[i].Posted? ==> p.log[i].origin in p.begun
  {
    forall i | 0 <= i < |p.log| && p.log[i].Posted? ensures p.log[i].origin in p.begun {
      OwedIsLater(p.begun, Unstarted(p), p.queue[0].session, p.log[i].origin);
    }
  }

  lemma RemovalLandsKeepsInv(core: Core, p: Push, ok: bool)
    requires PushInv(core, p) && p.queue != [] && p.queue[0].Cleanup? && p.stage.RemovingKey?
    ensures PushInv(core, AdvanceCleanup(core, p, ok))
  {
    var q := AdvanceCleanup(core, p, ok);
    HeadGone(p, q);
    if ok {
      var e := Removed(p.queue[0].session, core.generation, core.signedIn, p.keyOwner);
      assert q.log == p.log + [e] && q.begun == p.begun;
      LogGrows(core, p.log, e);
      OtherEntryKeepsBearers(Unstarted(p), p.log, e);
      if !p.failed {
        if p.inOrder {
          EarlierHaveBegun(core, p);
        }
        RemovalKeepsCover(p.log, e, p.begun, p.inOrder);
      }
    }
  }

  lemma CleanupGoesOnKeepsInv(core: Core, p: Push, ok: bool)
    requires PushInv(core, p) && PushEnabled(p, Advance(ok)) && p.queue[0].Cleanup? && !p.stage.Queued?
    ensures PushInv(core, AdvanceCleanup(core, p, ok))
  {
    var q := AdvanceCleanup(core, p, ok);
    if p.stage.RemovingKey? {
      RemovalLandsKeepsInv(core, p, ok);
    } else if q.stage.RemovingKey? {
      RemovalIssuedKeepsInv(core, p);
    } else {
      HeadGone(p, q);
      assert q.log == p.log && q.keyOwner == p.keyOwner && q.begun == p.begun && q.inOrder == p.inOrder;
    }
  }

  lemma PushStepKeepsInv(core: Core, p: Push, e: PushEvent)
    requires PushInv(core, p) && PushEnabled(p, e)
    ensures PushInv(core, PushStep(core, p, e))
  {
    if !e.Advance? {
      QueueStepKeepsInv(core, p, e);
    } else if p.queue[0].Register? {
      RegisterKeepsInv(core, p, e.ok);
    } else if p.stage.Queued? {
      CleanupBeginsKeepsInv(core, p, e.ok);
    } else {
      CleanupGoesOnKeepsInv(core, p, e.ok);
    }
  }

  lemma LaterSessionKeepsLog(core: Core, later: Core, log: seq<PushEntry>)
    requires LogInv(core, log) && (forall g: int :: WasSignedIn(core, g) ==> WasSignedIn(later, g))
    ensures LogInv(later, log)
  {
    forall i | 0 <= i < |log| ensures EntryInv(later, log[i]) {
      assert EntryInv(core, log[i]);
    }
  }

  lemma ResetKeepsBearers(core: Core, p: Push, job: PushJob)
    requires CoreInv(core) && LogInv(core, p.log) && BearersInv(Unstarted(p), p.log) && job == Cleanup(core.generation, core.access)
    ensures BearersInv(Unstarted(p) + [job], p.log)
  {
    forall other | other in Unstarted(p) + [job] && other.Cleanup? && HasPosted(p.log, other.session)
      ensures other.access.Some?
    {
      if other !in Unstarted(p) {
        var i :| 0 <= i < |p.log| && p.log[i].Posted? && p.log[i].origin == other.session;
        assert EntryInv(core, p.log[i]);
      }
    }
  }

  lemma EffectKeepsPushInv(core: Core, p: Push, effect: Effect)
    requires CoreInv(core) && PushInv(core, p)
    ensures PushInv(ApplyToCore(core, effect), ApplyToPush(core, p, effect))
  {
    var later, q := ApplyToCore(core, effect), ApplyToPush(core, p, effect);
    assert forall g: int :: WasSignedIn(core, g) ==> WasSignedIn(later, g);
    LaterSessionKeepsLog(core, later, p.log);
    if effect.Reset? {
      var job := Cleanup(core.generation, core.access);
      assert Unstarted(q) == Unstarted(p) + [job];
      OneMoreDebt(core.generation, p.begun, Unstarted(p), job);
      ResetKeepsBearers(core, p, job);
    }
  }

  /** The push queue looks at the generation and at whether anybody is signed in, and at nothing else of the session. */
  lemma PushIgnores(core: Core, other: Core, p: Push)
    requires core.generation == other.generation && core.signedIn == other.signedIn
    ensures PushInv(core, p) <==> PushInv(other, p)
  {
    assert forall g: int :: WasSignedIn(core, g) <==> WasSignedIn(other, g);
    if LogInv(core, p.log) {
      LaterSessionKeepsLog(core, other, p.log);
    }
    if LogInv(other, p.log) {
      LaterSessionKeepsLog(other, core, p.log);
    }
  }
}
