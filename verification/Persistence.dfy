/**
 * The FIFO persistence queue behind the auth store. Token writes and session
 * erasures are jobs; each job is executed in several asynchronous storage
 * calls, and sign-ins, rotations and sign-outs may fall between any two.
 */
module Persistence {
  import opened Prelude
  import opened SessionCore

  /** The two secure-storage entries of the token pair. */
  datatype Storage = Storage(access: Option<Token>, refresh: Option<Token>)

  datatype Job =
    | Store(generation: nat, access: Token, refresh: Token)
    | Erase(generation: nat)  // generation is the one the sign-out ended

  /** How far the job at the head of the queue has got. */
  datatype Stage =
    | Waiting
    | WritingAccess
    | WritingRefresh
    | Erasing(accessDone: bool, refreshDone: bool)

  /** A storage call that took effect, in the order it did. */
  datatype Change = Wrote(generation: nat) | Erased(generation: nat)

  datatype Persist = Persist(
    queue: seq<Job>,
    stage: Stage,
    storage: Storage,
    changes: seq<Change>,  // history
    failed: bool)          // some storage call has failed

  datatype PersistEvent =
    | Begin                    // the head job starts
    | WriteReturns(ok: bool)   // a setSecureItem call settles
    | EraseReturns(accessKey: bool, ok: bool)  // a deleteSecureItem call settles

  function Pop(p: Persist): Persist
    requires p.queue != []
  {
    p.(queue := p.queue[1..], stage := Waiting)
  }

  predicate PersistEnabled(p: Persist, e: PersistEvent) {
    && p.queue != []
    && match e
       case Begin => p.stage.Waiting?
       case WriteReturns(_) => p.queue[0].Store? && (p.stage.WritingAccess? || p.stage.WritingRefresh?)
       case EraseReturns(k, _) =>
         p.queue[0].Erase? && p.stage.Erasing? && !(if k then p.stage.accessDone else p.stage.refreshDone)
  }

  function PersistStep(core: Core, p: Persist, e: PersistEvent): Persist
    requires PersistEnabled(p, e)
  {
    match e
    case Begin => BeginJob(core, p)
    case WriteReturns(ok) => if ok then WriteLands(p) else Pop(p).(failed := true)
    case EraseReturns(k, ok) => EraseLands(p, k, ok)
  }

  function BeginJob(core: Core, p: Persist): Persist
    requires PersistEnabled(p, Begin)
  {
    match p.queue[0]
    case Store(g, _, _) => if g != core.authGeneration then Pop(p) else p.(stage := WritingAccess)
    case Erase(_) => p.(stage := Erasing(false, false))
  }

  function WriteLands(p: Persist): Persist
    requires p.queue != [] && p.queue[0].Store? && (p.stage.WritingAccess? || p.stage.WritingRefresh?)
  {
    var job := p.queue[0];
    var logged := p.changes + [Wrote(job.generation)];
    if p.stage.WritingAccess? then
      p.(storage := p.storage.(access := Some(job.access)), stage := WritingRefresh, changes := logged)
    else
      Pop(p.(storage := p.storage.(refresh := Some(job.refresh)), changes := logged))
  }

  /** A failed delete is swallowed: the job goes on, only the entry survives. */
  function EraseLands(p: Persist, accessKey: bool, ok: bool): Persist
    requires PersistEnabled(p, EraseReturns(accessKey, ok))
  {
    var stage := if accessKey then p.stage.(accessDone := true) else p.stage.(refreshDone := true);
    var q :=
      if !ok then p.(failed := true, stage := stage)
      else
        var cleared := if accessKey then p.storage.(access := None) else p.storage.(refresh := None);
        p.(storage := cleared, stage := stage, changes := p.changes + [Erased(p.queue[0].generation)]);
    if stage.accessDone && stage.refreshDone then Pop(q) else q
  }

  /** The persistence half of a session effect: what setTokens and clearLocalAuthSession enqueue. */
  function ApplyToPersist(core: Core, p: Persist, effect: Effect): Persist {
    match effect
    case Nothing => p
    case Install(a, r) => p.(queue := p.queue + [Store(core.authGeneration, a, r)])
    case Reset => p.(queue := p.queue + [Erase(core.authGeneration)])
  }

  // ---------------------------------------------------------------------------
  // What storage will hold once the queue has run dry
  // ---------------------------------------------------------------------------

  function AfterJob(s: Storage, stage: Stage, job: Job, generation: nat): Storage {
    match job
    case Store(g, a, r) =>
      if stage.Waiting? && g != generation then s
      else if stage.WritingRefresh? then s.(refresh := Some(r))
      else Storage(Some(a), Some(r))
    case Erase(_) =>
      if stage.Erasing? then
        Storage(if stage.accessDone then s.access else None, if stage.refreshDone then s.refresh else None)
      else Storage(None, None)
  }

  function Settled(s: Storage, stage: Stage, queue: seq<Job>, generation: nat): Storage
    decreases |queue|
  {
    if queue == [] then s
    else Settled(AfterJob(s, stage, queue[0], generation), Waiting, queue[1..], generation)
  }

  lemma {:induction false} SettledSnoc(s: Storage, stage: Stage, queue: seq<Job>, job: Job, generation: nat)
    requires queue == [] ==> stage.Waiting?
    ensures Settled(s, stage, queue + [job], generation)
         == AfterJob(Settled(s, stage, queue, generation), Waiting, job, generation)
    decreases |queue|
  {
    if queue == [] {
      assert (queue + [job])[1..] == [];
    } else {
      assert (queue + [job])[1..] == queue[1..] + [job];
      SettledSnoc(AfterJob(s, stage, queue[0], generation), Waiting, queue[1..], job, generation);
    }
  }

  // ---------------------------------------------------------------------------
  // The invariant
  // ---------------------------------------------------------------------------

  /** Sessions occupy the queue in order, each closed by its own erasure. */
  predicate Precedes(a: Job, b: Job) {
    a.generation < b.generation || (a.generation == b.generation && a.Store?)
  }

  predicate QueueOrdered(queue: seq<Job>, generation: nat) {
    && (forall i, j :: 0 <= i < j < |queue| ==> Precedes(queue[i], queue[j]))
    && (forall i :: 0 <= i < |queue| ==>
          queue[i].generation <= generation && (queue[i].Erase? ==> queue[i].generation < generation))
  }

  /** No write of a session lands after an erasure of that session (or of a later one). */
  predicate NoWriteAfterErase(changes: seq<Change>) {
    forall i, j :: 0 <= i < j < |changes| && changes[i].Erased? && changes[j].Wrote? ==>
      changes[i].generation < changes[j].generation
  }

  /** No queued write belongs to a session whose erasure has already landed. */
  predicate ErasedSessionsAreOver(changes: seq<Change>, queue: seq<Job>) {
    forall i, j :: 0 <= i < |changes| && 0 <= j < |queue| && changes[i].Erased? && queue[j].Store? ==>
      changes[i].generation < queue[j].generation
  }

  predicate HistoryInv(p: Persist, generation: nat) {
    && NoWriteAfterErase(p.changes)
    && ErasedSessionsAreOver(p.changes, p.queue)
    && (forall i :: 0 <= i < |p.changes| && p.changes[i].Erased? ==> p.changes[i].generation < generation)
  }

  predicate StageFits(p: Persist) {
    if p.queue == [] then p.stage.Waiting?
    else match p.queue[0]
      case Store(_, _, _) => !p.stage.Erasing?
      case Erase(_) => p.stage.Waiting? || (p.stage.Erasing? && !(p.stage.accessDone && p.stage.refreshDone))
  }

  predicate Agrees(core: Core, p: Persist) {
    Settled(p.storage, p.stage, p.queue, core.authGeneration) == Storage(core.access, core.refresh)
  }

  predicate PersistInv(core: Core, p: Persist) {
    && StageFits(p)
    && QueueOrdered(p.queue, core.authGeneration)
    && HistoryInv(p, core.authGeneration)
    && (!p.failed ==> Agrees(core, p))
  }

  lemma DroppingTheHeadKeepsOrder(queue: seq<Job>, changes: seq<Change>, generation: nat)
    requires queue != [] && QueueOrdered(queue, generation) && ErasedSessionsAreOver(changes, queue)
    ensures QueueOrdered(queue[1..], generation) && ErasedSessionsAreOver(changes, queue[1..])
    ensures forall j :: 0 <= j < |queue[1..]| ==> Precedes(queue[0], queue[1..][j])
  {
    var rest := queue[1..];
    forall i, j | 0 <= i < j < |rest| ensures Precedes(rest[i], rest[j]) {
      assert rest[i] == queue[i + 1] && rest[j] == queue[j + 1];
    }
    forall j | 0 <= j < |rest| ensures rest[j] in queue && Precedes(queue[0], rest[j]) {
      assert rest[j] == queue[j + 1];
    }
  }

  /** A write that lands belongs to a session no erasure has closed yet. */
  lemma WriteKeepsOrder(p: Persist, generation: nat)
    requires p.queue != [] && p.queue[0].Store? && QueueOrdered(p.queue, generation) && HistoryInv(p, generation)
    ensures HistoryInv(p.(changes := p.changes + [Wrote(p.queue[0].generation)]), generation)
  {
  }

  /** An erasure that lands is behind every write of its session and ahead of every later session. */
  lemma EraseKeepsOrder(p: Persist, generation: nat)
    requires p.queue != [] && p.queue[0].Erase? && QueueOrdered(p.queue, generation) && HistoryInv(p, generation)
    ensures HistoryInv(p.(changes := p.changes + [Erased(p.queue[0].generation)]), generation)
  {
    var changes := p.changes + [Erased(p.queue[0].generation)];
    forall i, j | 0 <= i < |changes| && 0 <= j < |p.queue| && changes[i].Erased? && p.queue[j].Store?
      ensures changes[i].generation < p.queue[j].generation
    {
      if i == |p.changes| {
        assert Precedes(p.queue[0], p.queue[j]);
      }
    }
  }

  lemma StepKeepsOrder(core: Core, p: Persist, e: PersistEvent)
    requires PersistEnabled(p, e) && PersistInv(core, p)
    ensures var q := PersistStep(core, p, e);
            StageFits(q) && QueueOrdered(q.queue, core.authGeneration) && HistoryInv(q, core.authGeneration)
  {
    match e
    case Begin =>
      DroppingTheHeadKeepsOrder(p.queue, p.changes, core.authGeneration);
    case WriteReturns(ok) =>
      WriteKeepsOrder(p, core.authGeneration);
      DroppingTheHeadKeepsOrder(p.queue, PersistStep(core, p, e).changes, core.authGeneration);
    case EraseReturns(_, ok) =>
      EraseKeepsOrder(p, core.authGeneration);
      DroppingTheHeadKeepsOrder(p.queue, PersistStep(core, p, e).changes, core.authGeneration);
  }

  lemma {:induction false} StepKeepsAgreement(core: Core, p: Persist, e: PersistEvent)
    requires PersistEnabled(p, e) && PersistInv(core, p) && !PersistStep(core, p, e).failed
    ensures Agrees(core, PersistStep(core, p, e))
  {
  }

  lemma PersistStepKeepsInv(core: Core, p: Persist, e: PersistEvent)
    requires PersistEnabled(p, e) && PersistInv(core, p)
    ensures PersistInv(core, PersistStep(core, p, e))
  {
    StepKeepsOrder(core, p, e);
    if !PersistStep(core, p, e).failed {
      StepKeepsAgreement(core, p, e);
    }
  }

  /** A sign-in, rotation or sign-out landing at any point leaves storage converging on the new memory. */
  lemma EffectKeepsPersistInv(core: Core, p: Persist, effect: Effect)
    requires PersistInv(core, p)
    ensures PersistInv(ApplyToCore(core, effect), ApplyToPersist(core, p, effect))
  {
    var core', p' := ApplyToCore(core, effect), ApplyToPersist(core, p, effect);
    if effect != Nothing {
      var job := p'.queue[|p.queue|];
      assert p'.queue == p.queue + [job];
      SettledSnoc(p.storage, p.stage, p.queue, job, core'.authGeneration);
    }
  }

  /** Persistence looks at the pair and its own generation counter, and at nothing else of the session. */
  lemma PersistIgnores(core: Core, other: Core, p: Persist)
    requires core.access == other.access && core.refresh == other.refresh && core.authGeneration == other.authGeneration
    ensures PersistInv(core, p) <==> PersistInv(other, p)
  {
  }

  // ---------------------------------------------------------------------------
  // The queue runs dry
  // ---------------------------------------------------------------------------

  /** Storage calls the queue may still wait for, and jobs it has yet to begin. */
  function Remaining(p: Persist): nat
    requires StageFits(p)
  {
    if p.queue == [] then 0
    else
      3 * |p.queue| - match p.stage
        case Waiting => 0
        case WritingAccess => 1
        case WritingRefresh => 2
        case Erasing(a, r) => if a || r then 2 else 1
  }

  /** Whatever a storage call comes to, less is left to do, and as long as anything is left some step is possible. */
  lemma StorageNeverStalls(core: Core, p: Persist)
    requires StageFits(p)
    ensures forall e :: PersistEnabled(p, e) ==>
              StageFits(PersistStep(core, p, e)) && Remaining(PersistStep(core, p, e)) < Remaining(p)
    ensures Remaining(p) > 0 <==> exists e :: PersistEnabled(p, e)
  {
    if p.queue != [] {
      var e := if p.stage.Waiting? then Begin
               else if p.queue[0].Store? then WriteReturns(true)
               else EraseReturns(!p.stage.accessDone, true);
      assert PersistEnabled(p, e);
    }
  }

  /** Each storage call that settles, and what it leaves: a failed write ends its job, a failed delete does not. */
  lemma StorageCallOutcome(core: Core, p: Persist, e: PersistEvent)
    requires PersistEnabled(p, e) && !e.Begin?
    ensures var q := PersistStep(core, p, e);
            var over := if e.WriteReturns? then !e.ok || p.stage.WritingRefresh?
                        else if e.accessKey then p.stage.refreshDone else p.stage.accessDone;
            && q.queue == (if over then p.queue[1..] else p.queue) && (over ==> q.stage == Waiting)
            && q.failed == (p.failed || !e.ok) && (!e.ok ==> q.changes == p.changes)
            && q.storage == (if !e.ok then p.storage
                             else if p.stage.WritingAccess? then p.storage.(access := Some(p.queue[0].access))
                             else if p.stage.WritingRefresh? then p.storage.(refresh := Some(p.queue[0].refresh))
                             else if e.accessKey then p.storage.(access := None)
                             else p.storage.(refresh := None))
  {
  }
}
