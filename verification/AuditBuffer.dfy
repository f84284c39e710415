/**
 * The Tier 2 audit buffer: a bounded queue that drops when full, batching
 * workers with a ticker, and a close that drains. Goroutines are interleaved
 * step by step; a write succeeds or fails as the environment pleases.
 */
module AuditBuffer {

  type Entry = string

  // ---------------------------------------------------------------------------
  // Configuration
  // ---------------------------------------------------------------------------

  datatype Config = Config(size: int, workers: int, batchSize: int)

  const DEFAULT_CONFIG := Config(4096, 2, 64)

  function WithDefaults(c: Config): (r: Config)
    ensures r.size > 0 && r.workers > 0 && r.batchSize > 0
    ensures (c.size > 0 ==> r.size == c.size) && (c.size <= 0 ==> r.size == 4096)
    ensures (c.workers > 0 ==> r.workers == c.workers) && (c.workers <= 0 ==> r.workers == 2)
    ensures (c.batchSize > 0 ==> r.batchSize == c.batchSize) && (c.batchSize <= 0 ==> r.batchSize == 64)
  {
    Config(if c.size <= 0 then DEFAULT_CONFIG.size else c.size,
           if c.workers <= 0 then DEFAULT_CONFIG.workers else c.workers,
           if c.batchSize <= 0 then DEFAULT_CONFIG.batchSize else c.batchSize)
  }

  // ---------------------------------------------------------------------------
  // State
  // ---------------------------------------------------------------------------

  datatype Stage =
    | Selecting               // blocked in select
    | Writing(last: bool)     // inside flush; `last` when the channel was seen closed
    | Gone

  datatype Worker = Worker(
    batch: seq<Entry>,
    stage: Stage,
    handed: seq<seq<Entry>>)  // history: batches handed to a write that has returned

  datatype Buffer = Buffer(
    size: nat,
    batchSize: nat,
    queue: seq<Entry>,
    closed: bool,
    dropped: nat,
    written: nat,            // entries whose write succeeded
    failures: nat,           // entries counted as failures
    workers: seq<Worker>,
    offered: seq<Entry>,     // history
    accepted: seq<Entry>,    // history
    refused: seq<Entry>,     // history
    owners: seq<nat>)        // history: which worker received each accepted entry

  datatype Event =
    | Enqueue(e: Entry)
    | Receive(w: nat)
    | SeeClosed(w: nat)
    | Tick(w: nat)
    | WriteReturns(w: nat, ok: bool)
    | Close

  function Started(c: Config): Buffer {
    var r := WithDefaults(c);
    Buffer(r.size, r.batchSize, [], false, 0, 0, 0, seq(r.workers, _ => Worker([], Selecting, [])), [], [], [], [])
  }

  // ---------------------------------------------------------------------------
  // Steps
  // ---------------------------------------------------------------------------

  function Put(b: Buffer, w: nat, v: Worker): Buffer
    requires w < |b.workers|
  {
    b.(workers := b.workers[w := v])
  }

  /** A non-blocking send: accepted while there is room, counted as dropped otherwise. */
  function DoEnqueue(b: Buffer, e: Entry): Buffer {
    var seen := b.(offered := b.offered + [e]);
    if |b.queue| < b.size then seen.(queue := b.queue + [e], accepted := b.accepted + [e])
    else seen.(dropped := b.dropped + 1, refused := b.refused + [e])
  }

  function DoReceive(b: Buffer, w: nat): Buffer
    requires w < |b.workers| && b.queue != []
  {
    var me := b.workers[w];
    var batch := me.batch + [b.queue[0]];
    var taken := b.(queue := b.queue[1..], owners := b.owners + [w]);
    Put(taken, w, me.(batch := batch, stage := if |batch| >= b.batchSize then Writing(false) else Selecting))
  }

  function DoSeeClosed(b: Buffer, w: nat): Buffer
    requires w < |b.workers|
  {
    Put(b, w, b.workers[w].(stage := if b.workers[w].batch == [] then Gone else Writing(true)))
  }

  function DoTick(b: Buffer, w: nat): Buffer
    requires w < |b.workers|
  {
    if b.workers[w].batch == [] then b else Put(b, w, b.workers[w].(stage := Writing(false)))
  }

  /** The batch is given up either way; only the count differs. */
  function DoWriteReturns(b: Buffer, w: nat, ok: bool): Buffer
    requires w < |b.workers| && b.workers[w].stage.Writing?
  {
    var me := b.workers[w];
    var counted := if ok then b.(written := b.written + |me.batch|) else b.(failures := b.failures + |me.batch|);
    Put(counted, w, Worker([], if me.stage.last then Gone else Selecting, me.handed + [me.batch]))
  }

  /** Enqueueing after close would panic: callers stop enqueueing first. */
  predicate Enabled(b: Buffer, ev: Event) {
    match ev
    case Enqueue(_) => !b.closed
    case Receive(w) => w < |b.workers| && b.workers[w].stage.Selecting? && b.queue != []
    case SeeClosed(w) => w < |b.workers| && b.workers[w].stage.Selecting? && b.queue == [] && b.closed
    case Tick(w) => w < |b.workers| && b.workers[w].stage.Selecting?
    case WriteReturns(w, _) => w < |b.workers| && b.workers[w].stage.Writing?
    case Close => true
  }

  function Step(b: Buffer, ev: Event): Buffer
    requires Enabled(b, ev)
  {
    match ev
    case Enqueue(e) => DoEnqueue(b, e)
    case Receive(w) => DoReceive(b, w)
    case SeeClosed(w) => DoSeeClosed(b, w)
    case Tick(w) => DoTick(b, w)
    case WriteReturns(w, ok) => DoWriteReturns(b, w, ok)
    case Close => b.(closed := true)
  }

  // ---------------------------------------------------------------------------
  // Who got what
  // ---------------------------------------------------------------------------

  /** The entries worker w received, in acceptance order. */
  function Share(entries: seq<Entry>, owners: seq<nat>, w: nat): seq<Entry>
    requires |owners| <= |entries|
    decreases |owners|
  {
    if owners == [] then []
    else
      var k := |owners| - 1;
      Share(entries, owners[..k], w) + (if owners[k] == w then [entries[k]] else [])
  }

  function Flatten(batches: seq<seq<Entry>>): seq<Entry>
    decreases |batches|
  {
    if batches == [] then [] else Flatten(batches[..|batches| - 1]) + batches[|batches| - 1]
  }

  /** Everything worker w has received so far: what it has handed on, then what it still holds. */
  function Received(me: Worker): seq<Entry> {
    Flatten(me.handed) + me.batch
  }

  function Held(workers: seq<Worker>): nat {
    if workers == [] then 0 else |workers[0].batch| + Held(workers[1..])
  }

  function Live(workers: seq<Worker>): nat {
    if workers == [] then 0 else (if workers[0].stage.Gone? then 0 else 1) + Live(workers[1..])
  }

  predicate WorkerInv(b: Buffer, w: nat)
    requires w < |b.workers| && |b.owners| <= |b.accepted|
  {
    var me := b.workers[w];
    && Received(me) == Share(b.accepted, b.owners, w)
    && (match me.stage
        case Selecting => |me.batch| < b.batchSize
        case Writing(last) => 1 <= |me.batch| <= b.batchSize && (last ==> b.closed && b.queue == [])
        case Gone => me.batch == [] && b.closed && b.queue == [])
    && forall k :: 0 <= k < |me.handed| ==> 1 <= |me.handed[k]| <= b.batchSize
  }

  predicate QueueInv(b: Buffer) {
    && b.size > 0 && b.batchSize > 0
    && |b.queue| <= b.size
    && |b.owners| <= |b.accepted|
    && b.queue == b.accepted[|b.owners|..]
    && (forall k :: 0 <= k < |b.owners| ==> b.owners[k] < |b.workers|)
  }

  predicate CountsInv(b: Buffer) {
    && b.dropped == |b.refused|
    && |b.offered| == |b.accepted| + |b.refused|
    && multiset(b.offered) == multiset(b.accepted) + multiset(b.refused)
    && |b.accepted| == |b.queue| + Held(b.workers) + b.written + b.failures
  }

  predicate Inv(b: Buffer) {
    && QueueInv(b)
    && CountsInv(b)
    && forall w :: 0 <= w < |b.workers| ==> WorkerInv(b, w)
  }

  // ---------------------------------------------------------------------------
  // Preservation
  // ---------------------------------------------------------------------------

  lemma {:induction false} HeldUpdate(workers: seq<Worker>, w: nat, v: Worker)
    requires w < |workers|
    ensures Held(workers[w := v]) == Held(workers) - |workers[w].batch| + |v.batch|
  {
    if w == 0 {
      assert workers[w := v][1..] == workers[1..];
    } else {
      assert workers[w := v][1..] == workers[1..][w - 1 := v];
      HeldUpdate(workers[1..], w - 1, v);
    }
  }

  lemma {:induction false} LiveUpdate(workers: seq<Worker>, w: nat, v: Worker)
    requires w < |workers|
    ensures Live(workers[w := v]) ==
            Live(workers) - (if workers[w].stage.Gone? then 0 else 1) + (if v.stage.Gone? then 0 else 1)
  {
    if w == 0 {
      assert workers[w := v][1..] == workers[1..];
    } else {
      assert workers[w := v][1..] == workers[1..][w - 1 := v];
      LiveUpdate(workers[1..], w - 1, v);
    }
  }

  lemma {:induction false} ShareIgnoresLaterEntries(entries: seq<Entry>, owners: seq<nat>, w: nat, more: seq<Entry>)
    requires |owners| <= |entries|
    ensures Share(entries + more, owners, w) == Share(entries, owners, w)
    decreases |owners|
  {
    if owners != [] {
      ShareIgnoresLaterEntries(entries, owners[..|owners| - 1], w, more);
    }
  }

  lemma EnqueueKeepsInv(b: Buffer, e: Entry)
    requires Inv(b) && Enabled(b, Enqueue(e))
    ensures Inv(DoEnqueue(b, e))
  {
    var next := DoEnqueue(b, e);
    forall w | 0 <= w < |b.workers| ensures WorkerInv(next, w) {
      assert WorkerInv(b, w);
      ShareIgnoresLaterEntries(b.accepted, b.owners, w, [e]);
    }
  }

  lemma ReceiveKeepsInv(b: Buffer, w: nat)
    requires Inv(b) && Enabled(b, Receive(w))
    ensures Inv(DoReceive(b, w))
  {
    var next := DoReceive(b, w);
    var k := |b.owners|;
    assert next.owners[..k] == b.owners;
    assert b.queue[0] == b.accepted[k];
    assert next.queue == b.accepted[k + 1..];
    HeldUpdate(b.workers, w, next.workers[w]);
    forall v | 0 <= v < |b.workers| ensures WorkerInv(next, v) {
      assert WorkerInv(b, v);
      assert Share(b.accepted, next.owners, v) == Share(b.accepted, b.owners, v) + (if v == w then [b.queue[0]] else []);
      if v == w {
        assert Received(next.workers[w]) == Received(b.workers[w]) + [b.queue[0]];
      }
    }
  }

  /** A worker that changes only its own stage, or hands its batch on, keeps its share. */
  lemma WorkerMoveKeepsInv(b: Buffer, next: Buffer, w: nat)
    requires Inv(b) && w < |b.workers| == |next.workers|
    requires next == b.(workers := b.workers[w := next.workers[w]], written := next.written, failures := next.failures)
    requires WorkerInv(next, w)
    requires next.written + next.failures + |next.workers[w].batch| == b.written + b.failures + |b.workers[w].batch|
    ensures Inv(next)
  {
    HeldUpdate(b.workers, w, next.workers[w]);
    forall v | 0 <= v < |b.workers| ensures WorkerInv(next, v) {
      assert WorkerInv(b, v);
    }
  }

  lemma WriteReturnsKeepsInv(b: Buffer, w: nat, ok: bool)
    requires Inv(b) && Enabled(b, WriteReturns(w, ok))
    ensures Inv(DoWriteReturns(b, w, ok))
  {
    var me, next := b.workers[w], DoWriteReturns(b, w, ok);
    assert WorkerInv(b, w);
    assert next.workers[w].handed[..|me.handed|] == me.handed;
    assert Received(next.workers[w]) == Received(me);
    WorkerMoveKeepsInv(b, next, w);
  }

  lemma SeeClosedKeepsInv(b: Buffer, w: nat)
    requires Inv(b) && Enabled(b, SeeClosed(w))
    ensures Inv(DoSeeClosed(b, w))
  {
    assert WorkerInv(b, w);
    WorkerMoveKeepsInv(b, DoSeeClosed(b, w), w);
  }

  lemma TickKeepsInv(b: Buffer, w: nat)
    requires Inv(b) && Enabled(b, Tick(w))
    ensures Inv(DoTick(b, w))
  {
    assert WorkerInv(b, w);
    WorkerMoveKeepsInv(b, DoTick(b, w), w);
  }

  lemma CloseKeepsInv(b: Buffer)
    requires Inv(b)
    ensures Inv(b.(closed := true))
  {
    forall w | 0 <= w < |b.workers| ensures WorkerInv(b.(closed := true), w) {
      assert WorkerInv(b, w);
    }
  }

  lemma StepKeepsInv(b: Buffer, ev: Event)
    requires Inv(b) && Enabled(b, ev)
    ensures Inv(Step(b, ev))
  {
    match ev
    case Enqueue(e) => EnqueueKeepsInv(b, e);
    case Receive(w) => ReceiveKeepsInv(b, w);
    case SeeClosed(w) => SeeClosedKeepsInv(b, w);
    case Tick(w) => TickKeepsInv(b, w);
    case WriteReturns(w, ok) => WriteReturnsKeepsInv(b, w, ok);
    case Close => CloseKeepsInv(b);
  }

  lemma {:induction false} NothingHeld(workers: seq<Worker>)
    requires forall w :: 0 <= w < |workers| ==> workers[w].batch == []
    ensures Held(workers) == 0
  {
    if workers != [] {
      NothingHeld(workers[1..]);
    }
  }

  lemma StartedInv(c: Config)
    ensures Inv(Started(c))
  {
    NothingHeld(Started(c).workers);
  }

  // ---------------------------------------------------------------------------
  // Every schedule
  // ---------------------------------------------------------------------------

  predicate Runs(b: Buffer, events: seq<Event>, c: Buffer)
    decreases |events|
  {
    if events == [] then b == c else Enabled(b, events[0]) && Runs(Step(b, events[0]), events[1..], c)
  }

  lemma {:induction false} RunKeepsInv(b: Buffer, events: seq<Event>, c: Buffer)
    requires Inv(b) && Runs(b, events, c)
    ensures Inv(c)
    decreases |events|
  {
    if events != [] {
      StepKeepsInv(b, events[0]);
      RunKeepsInv(Step(b, events[0]), events[1..], c);
    }
  }

  ghost predicate Reachable(c: Buffer) {
    exists cfg, events :: Runs(Started(cfg), events, c)
  }

  lemma ReachableInv(c: Buffer)
    requires Reachable(c)
    ensures Inv(c)
  {
    var cfg, events :| Runs(Started(cfg), events, c);
    StartedInv(cfg);
    RunKeepsInv(Started(cfg), events, c);
  }

  /** Nothing offered goes missing: it was dropped and counted, or is queued, held, written or counted as a failure. */
  lemma Conservation(b: Buffer)
    requires Reachable(b)
    ensures multiset(b.offered) == multiset(b.accepted) + multiset(b.refused)
    ensures |b.offered| == |b.accepted| + b.dropped
    ensures |b.accepted| == |b.queue| + Held(b.workers) + b.written + b.failures
    ensures |b.queue| <= b.size
  {
    ReachableInv(b);
  }

  /** What a worker has been given, in order, is its share of the accepted entries; each write is 1 to BatchSize of them. */
  lemma WorkersKeepOrder(b: Buffer, w: nat)
    requires Reachable(b) && w < |b.workers|
    ensures |b.owners| <= |b.accepted| && b.queue == b.accepted[|b.owners|..]
    ensures Flatten(b.workers[w].handed) + b.workers[w].batch == Share(b.accepted, b.owners, w)
    ensures forall k :: 0 <= k < |b.workers[w].handed| ==> 1 <= |b.workers[w].handed[k]| <= b.batchSize
  {
    ReachableInv(b);
    assert WorkerInv(b, w);
  }

  /** The sizes of the shares of workers 0 .. n-1. */
  function ShareSizes(entries: seq<Entry>, owners: seq<nat>, n: nat): nat
    requires |owners| <= |entries|
  {
    if n == 0 then 0 else ShareSizes(entries, owners, n - 1) + |Share(entries, owners, n - 1)|
  }

  /** Each received entry is in exactly one worker's share. */
  lemma {:induction false} SharesPartition(entries: seq<Entry>, owners: seq<nat>, n: nat)
    requires |owners| <= |entries| && forall k :: 0 <= k < |owners| ==> owners[k] < n
    ensures ShareSizes(entries, owners, n) == |owners|
    decreases |owners|
  {
    if owners == [] {
      EmptyShares(entries, n);
    } else {
      var k := |owners| - 1;
      SharesPartition(entries, owners[..k], n);
      OneMoreShare(entries, owners, n);
    }
  }

  lemma {:induction false} EmptyShares(entries: seq<Entry>, n: nat)
    ensures ShareSizes(entries, [], n) == 0
  {
    if n > 0 {
      EmptyShares(entries, n - 1);
    }
  }

  lemma {:induction false} OneMoreShare(entries: seq<Entry>, owners: seq<nat>, n: nat)
    requires owners != [] && |owners| <= |entries|
    ensures var k := |owners| - 1;
            ShareSizes(entries, owners, n) == ShareSizes(entries, owners[..k], n) + (if owners[k] < n then 1 else 0)
    decreases n
  {
    if n > 0 {
      OneMoreShare(entries, owners, n - 1);
    }
  }

  // ---------------------------------------------------------------------------
  // Draining
  // ---------------------------------------------------------------------------

  function Remaining(b: Buffer): nat {
    |b.queue| + Live(b.workers)
  }

  predicate IsExit(b: Buffer, ev: Event)
    requires Enabled(b, ev)
  {
    || (ev.SeeClosed? && b.workers[ev.w].batch == [])
    || (ev.WriteReturns? && b.workers[ev.w].stage.last)
  }

  /** After close, a receive or a worker's exit brings the end one closer, and no step moves it away. */
  lemma DrainStep(b: Buffer, ev: Event)
    requires b.closed && Enabled(b, ev)
    ensures Step(b, ev).closed
    ensures Remaining(Step(b, ev)) == if ev.Receive? || IsExit(b, ev) then Remaining(b) - 1 else Remaining(b)
  {
    var next := Step(b, ev);
    if !ev.Close? {
      LiveUpdate(b.workers, ev.w, next.workers[ev.w]);
      assert next.workers == b.workers[ev.w := next.workers[ev.w]];
    }
  }

  /** How much work a closed buffer still has in it. */
  function Rank(b: Buffer): nat {
    3 * |b.queue| + Work(b.workers)
  }

  function WorkOf(me: Worker): nat {
    match me.stage
    case Selecting => if me.batch == [] then 2 else 4
    case Writing(last) => if last then 1 else 3
    case Gone => 0
  }

  function Work(workers: seq<Worker>): nat {
    if workers == [] then 0 else WorkOf(workers[0]) + Work(workers[1..])
  }

  lemma {:induction false} WorkUpdate(workers: seq<Worker>, w: nat, v: Worker)
    requires w < |workers|
    ensures Work(workers[w := v]) == Work(workers) - WorkOf(workers[w]) + WorkOf(v)
  {
    if w == 0 {
      assert workers[w := v][1..] == workers[1..];
    } else {
      assert workers[w := v][1..] == workers[1..][w - 1 := v];
      WorkUpdate(workers[1..], w - 1, v);
    }
  }

  /** A tick with nothing to flush, and a repeated close, do nothing. */
  predicate Idle(b: Buffer, ev: Event)
    requires Enabled(b, ev)
  {
    (ev.Tick? && b.workers[ev.w].batch == []) || ev.Close?
  }

  lemma EveryOtherStepIsProgress(b: Buffer, ev: Event)
    requires b.closed && Enabled(b, ev)
    ensures if Idle(b, ev) then Step(b, ev) == b else Rank(Step(b, ev)) < Rank(b)
  {
    var next := Step(b, ev);
    if !ev.Close? {
      WorkUpdate(b.workers, ev.w, next.workers[ev.w]);
      assert next.workers == b.workers[ev.w := next.workers[ev.w]];
    }
  }

  function Steps(b: Buffer, events: seq<Event>): nat
    decreases |events|
  {
    if events == [] || !Enabled(b, events[0]) then 0
    else (if Idle(b, events[0]) then 0 else 1) + Steps(Step(b, events[0]), events[1..])
  }

  /** Every schedule after close takes at most Rank steps that do anything. */
  lemma {:induction false} DrainIsBounded(b: Buffer, events: seq<Event>, c: Buffer)
    requires b.closed && Runs(b, events, c)
    ensures Steps(b, events) + Rank(c) <= Rank(b)
    decreases |events|
  {
    if events != [] {
      EveryOtherStepIsProgress(b, events[0]);
      DrainStep(b, events[0]);
      DrainIsBounded(Step(b, events[0]), events[1..], c);
    }
  }

  /** Close never gets stuck: while a worker is left, some step that makes progress is enabled. */
  lemma DrainNeverStalls(b: Buffer, w: nat)
    requires b.closed && w < |b.workers| && !b.workers[w].stage.Gone?
    ensures exists ev :: Enabled(b, ev) && !Idle(b, ev) && !ev.Tick?
  {
    if b.workers[w].stage.Writing? {
      assert Enabled(b, WriteReturns(w, true)) && !Idle(b, WriteReturns(w, true));
    } else if b.queue != [] {
      assert Enabled(b, Receive(w)) && !Idle(b, Receive(w));
    } else {
      assert Enabled(b, SeeClosed(w)) && !Idle(b, SeeClosed(w));
    }
  }

  /** When the last worker is gone, everything accepted has been handed to a write, exactly once and in order. */
  lemma CloseDrains(b: Buffer)
    requires Reachable(b) && b.workers != [] && forall w :: 0 <= w < |b.workers| ==> b.workers[w].stage.Gone?
    ensures b.closed && b.queue == [] && |b.owners| == |b.accepted|
    ensures forall w :: 0 <= w < |b.workers| ==>
              b.workers[w].batch == [] && Flatten(b.workers[w].handed) == Share(b.accepted, b.owners, w)
    ensures ShareSizes(b.accepted, b.owners, |b.workers|) == |b.accepted|
    ensures b.written + b.failures == |b.accepted|
  {
    ReachableInv(b);
    forall w | 0 <= w < |b.workers|
      ensures b.workers[w].batch == [] && b.closed && b.queue == []
      ensures Flatten(b.workers[w].handed) == Share(b.accepted, b.owners, w)
    {
      assert WorkerInv(b, w);
      assert Received(b.workers[w]) == Flatten(b.workers[w].handed);
    }
    assert b.workers[0].batch == [];
    SharesPartition(b.accepted, b.owners, |b.workers|);
    NothingHeld(b.workers);
  }

  // ---------------------------------------------------------------------------
  // Why entries are dropped, flushed and counted
  // ---------------------------------------------------------------------------

  /** An entry is dropped if and only if it meets a queue of exactly Size. */
  lemma DroppedIff(b: Buffer, e: Entry)
    requires Inv(b) && Enabled(b, Enqueue(e))
    ensures var c := Step(b, Enqueue(e));
            && c == b.(queue := c.queue, accepted := c.accepted, refused := c.refused, dropped := c.dropped, offered := b.offered + [e])
            && (|b.queue| < b.size ==>
                  c.queue == b.queue + [e] && c.accepted == b.accepted + [e] && c.dropped == b.dropped && c.refused == b.refused)
            && (|b.queue| == b.size ==>
                  c.queue == b.queue && c.accepted == b.accepted && c.dropped == b.dropped + 1 && c.refused == b.refused + [e])
  {
  }

  /** A worker flushes when its batch is full, when the tick finds anything, and when it sees the channel closed. */
  lemma FlushedIff(b: Buffer, ev: Event, w: nat)
    requires Inv(b) && Enabled(b, ev) && w < |b.workers| && (ev == Receive(w) || ev == Tick(w) || ev == SeeClosed(w))
    ensures var c, me := Step(b, ev), b.workers[w];
            && w < |c.workers| && c.workers[w].handed == me.handed
            && c.workers[w].batch == (if ev.Receive? then me.batch + [b.queue[0]] else me.batch)
            && (c.workers[w].stage == Writing(false) <==>
                  (ev.Receive? && |me.batch| + 1 == b.batchSize) || (ev.Tick? && me.batch != []))
            && (c.workers[w].stage == Writing(true) <==> ev.SeeClosed? && me.batch != [])
            && (c.workers[w].stage == Gone <==> ev.SeeClosed? && me.batch == [])
            && c.queue == if ev.Receive? then b.queue[1..] else b.queue
  {
    assert WorkerInv(b, w);
  }

  /** After its write a worker has an empty batch, and goes on unless it had seen the channel closed. */
  lemma WriteCounts(b: Buffer, w: nat, ok: bool)
    requires Enabled(b, WriteReturns(w, ok))
    ensures var c, me := Step(b, WriteReturns(w, ok)), b.workers[w];
            && w < |c.workers| && c.workers[w].batch == [] && c.workers[w].handed == me.handed + [me.batch]
            && c.workers[w].stage == (if me.stage == Writing(true) then Gone else Selecting)
            && c.written == b.written + (if ok then |me.batch| else 0)
            && c.failures == b.failures + (if ok then 0 else |me.batch|)
  {
  }

  /** Enqueues of a schedule that met a queue of exactly Size. */
  function FullMeetings(b: Buffer, events: seq<Event>): nat
    decreases |events|
  {
    if events == [] || !Enabled(b, events[0]) then 0
    else
      (if events[0].Enqueue? && |b.queue| == b.size then 1 else 0) + FullMeetings(Step(b, events[0]), events[1..])
  }

  /** Entries in batches whose write returned that way. */
  function Returned(b: Buffer, events: seq<Event>, ok: bool): nat
    decreases |events|
  {
    if events == [] || !Enabled(b, events[0]) then 0
    else
      (if events[0].WriteReturns? && events[0].ok == ok then |b.workers[events[0].w].batch| else 0)
      + Returned(Step(b, events[0]), events[1..], ok)
  }

  lemma StepCounts(b: Buffer, ev: Event)
    requires Inv(b) && Enabled(b, ev)
    ensures var c := Step(b, ev);
            && c.dropped == b.dropped + (if ev.Enqueue? && |b.queue| == b.size then 1 else 0)
            && c.written == b.written + (if ev.WriteReturns? && ev.ok then |b.workers[ev.w].batch| else 0)
            && c.failures == b.failures + (if ev.WriteReturns? && !ev.ok then |b.workers[ev.w].batch| else 0)
  {
    match ev
    case Enqueue(e) => DroppedIff(b, e);
    case WriteReturns(w, ok) => WriteCounts(b, w, ok);
    case _ =>
  }

  /** In every schedule: dropped counts the enqueues that met a full queue, written and failures the writes by outcome. */
  lemma {:induction false} CountersTellWhy(b: Buffer, events: seq<Event>, c: Buffer)
    requires Inv(b) && Runs(b, events, c)
    ensures c.dropped == b.dropped + FullMeetings(b, events)
    ensures c.written == b.written + Returned(b, events, true)
    ensures c.failures == b.failures + Returned(b, events, false)
    decreases |events|
  {
    if events != [] {
      StepCounts(b, events[0]);
      StepKeepsInv(b, events[0]);
      CountersTellWhy(Step(b, events[0]), events[1..], c);
    }
  }
}
