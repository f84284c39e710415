/** The REST resync of the realtime manager: one at a time, rate limited, and fenced by the lifecycle generation. */
module Resync {

  const RESYNC_COOLDOWN_MS := 2000

  datatype Phase =
    | ListingChannels
    | LoadingMessages(outstanding: nat)  // fetches of Promise.all still pending
    | CountingUnread
    | Over

  datatype Task = Task(generation: nat, startedAt: int, phase: Phase)

  /** Something a task did outside itself, with its own generation and the manager's at that moment. */
  datatype Deed = WroteStore(task: nat, mine: nat, current: nat) | ClearedFlag(task: nat, mine: nat, current: nat)
                | Notified(task: nat, mine: nat, current: nat)

  datatype Syncer = Syncer(
    generation: nat,     // lifecycleGeneration
    inFlight: bool,      // resyncInFlight
    lastAt: int,         // lastResyncAt
    tasks: seq<Task>,    // every resync ever started
    deeds: seq<Deed>)    // history

  datatype SyncEvent =
    | Request(now: int, workspace: bool, loaded: nat)
    | ChannelsListed(task: nat, ok: bool, loaded: nat)
    | MessagesListed(task: nat, ok: bool)
    | MessagesDone(task: nat)
    | UnreadCounted(task: nat, ok: bool)
    | Teardown                // reset()

  predicate SyncEnabled(s: Syncer, e: SyncEvent) {
    match e
    case ChannelsListed(t, _, _) => t < |s.tasks| && s.tasks[t].phase.ListingChannels?
    case MessagesListed(t, _) => t < |s.tasks| && s.tasks[t].phase.LoadingMessages? && s.tasks[t].phase.outstanding > 0
    case MessagesDone(t) => t < |s.tasks| && s.tasks[t].phase == LoadingMessages(0)
    case UnreadCounted(t, _) => t < |s.tasks| && s.tasks[t].phase.CountingUnread?
    case _ => true
  }

  function SetPhase(s: Syncer, t: nat, phase: Phase): Syncer
    requires t < |s.tasks|
  {
    s.(tasks := s.tasks[t := s.tasks[t].(phase := phase)])
  }

  function Did(s: Syncer, d: Deed): Syncer {
    s.(deeds := s.deeds + [d])
  }

  predicate Current(s: Syncer, t: nat) {
    t < |s.tasks| && s.tasks[t].generation == s.generation
  }

  function DoRequest(s: Syncer, now: int, workspace: bool, loaded: nat): Syncer {
    if s.inFlight || now - s.lastAt < RESYNC_COOLDOWN_MS then s
    else
      var phase := if workspace then ListingChannels else LoadingMessages(loaded);
      s.(inFlight := true, lastAt := now, tasks := s.tasks + [Task(s.generation, now, phase)])
  }

  function Write(s: Syncer, t: nat, ok: bool): Syncer
    requires t < |s.tasks|
  {
    if ok then Did(s, WroteStore(t, s.tasks[t].generation, s.generation)) else s
  }

  /** The end of a task that is still current: the finally block, then the listeners. */
  function Conclude(s: Syncer, t: nat): Syncer
    requires t < |s.tasks|
  {
    var cleared := Did(SetPhase(s, t, Over), ClearedFlag(t, s.tasks[t].generation, s.generation)).(inFlight := false);
    Did(cleared, Notified(t, s.tasks[t].generation, s.generation))
  }

  /** reset() forgets the flag and the cooldown along with the generation. */
  function DoTeardown(s: Syncer): Syncer {
    s.(generation := s.generation + 1, inFlight := false, lastAt := 0)
  }

  function SyncStep(s: Syncer, e: SyncEvent): Syncer
    requires SyncEnabled(s, e)
  {
    match e
    case Request(now, workspace, loaded) => DoRequest(s, now, workspace, loaded)
    case ChannelsListed(t, ok, loaded) =>
      if !Current(s, t) then SetPhase(s, t, Over) else SetPhase(Write(s, t, ok), t, LoadingMessages(loaded))
    case MessagesListed(t, ok) =>
      SetPhase(Write(s, t, ok && Current(s, t)), t, LoadingMessages(s.tasks[t].phase.outstanding - 1))
    case MessagesDone(t) => SetPhase(s, t, if Current(s, t) then CountingUnread else Over)
    case UnreadCounted(t, ok) => if !Current(s, t) then SetPhase(s, t, Over) else Conclude(Write(s, t, ok), t)
    case Teardown => DoTeardown(s)
  }

  // ---------------------------------------------------------------------------
  // The invariant
  // ---------------------------------------------------------------------------

  /** Task t of generation g is still going. */
  predicate Live(task: Task, g: nat) {
    !task.phase.Over? && task.generation == g
  }

  predicate OneAtATime(tasks: seq<Task>, generation: nat, inFlight: bool) {
    && (forall t :: 0 <= t < |tasks| ==> tasks[t].generation <= generation)
    && (forall t, u :: 0 <= t < |tasks| && 0 <= u < |tasks| && !tasks[t].phase.Over? && Live(tasks[u], tasks[t].generation)
          ==> t == u)
    && (inFlight <==> exists t :: 0 <= t < |tasks| && Live(tasks[t], generation))
  }

  predicate Spaced(tasks: seq<Task>, generation: nat, lastAt: int) {
    && (forall t, u :: 0 <= t < u < |tasks| && tasks[t].generation == tasks[u].generation ==>
          tasks[t].startedAt + RESYNC_COOLDOWN_MS <= tasks[u].startedAt)
    && (forall t :: 0 <= t < |tasks| && tasks[t].generation == generation ==> tasks[t].startedAt <= lastAt)
  }

  /** A deed is done only in the generation of the task that does it. */
  predicate Fenced(deeds: seq<Deed>) {
    forall d :: 0 <= d < |deeds| ==> deeds[d].mine == deeds[d].current
  }

  predicate SyncInv(s: Syncer) {
    OneAtATime(s.tasks, s.generation, s.inFlight) && Spaced(s.tasks, s.generation, s.lastAt) && Fenced(s.deeds)
  }

  lemma MoveKeepsInv(s: Syncer, t: nat, phase: Phase)
    requires SyncInv(s) && t < |s.tasks| && !s.tasks[t].phase.Over? && (phase.Over? ==> !Current(s, t))
    ensures SyncInv(SetPhase(s, t, phase))
  {
    var next := SetPhase(s, t, phase).tasks;
    if s.inFlight {
      var u :| 0 <= u < |s.tasks| && Live(s.tasks[u], s.generation);
      assert Live(next[u], s.generation);
    }
    forall u | 0 <= u < |next| && Live(next[u], s.generation) ensures Live(s.tasks[u], s.generation) {}
    forall u, v | 0 <= u < |next| && 0 <= v < |next| && !next[u].phase.Over? && Live(next[v], next[u].generation)
      ensures u == v
    {
      assert Live(s.tasks[v], s.tasks[u].generation);
    }
  }

  lemma WriteKeepsInv(s: Syncer, t: nat, ok: bool)
    requires SyncInv(s) && t < |s.tasks| && (ok ==> Current(s, t))
    ensures SyncInv(Write(s, t, ok))
  {
  }

  lemma ConcludeKeepsInv(s: Syncer, t: nat)
    requires SyncInv(s) && t < |s.tasks| && Live(s.tasks[t], s.generation)
    ensures SyncInv(Conclude(s, t))
  {
    var next := Conclude(s, t).tasks;
    forall u, v | 0 <= u < |next| && 0 <= v < |next| && !next[u].phase.Over? && Live(next[v], next[u].generation)
      ensures u == v
    {
      assert Live(s.tasks[v], s.tasks[u].generation);
    }
    forall u | 0 <= u < |next| ensures !Live(next[u], s.generation) {
      assert Live(s.tasks[u], s.tasks[t].generation) ==> u == t;
    }
  }

  lemma RequestKeepsInv(s: Syncer, now: int, workspace: bool, loaded: nat)
    requires SyncInv(s)
    ensures SyncInv(DoRequest(s, now, workspace, loaded))
  {
    var next := DoRequest(s, now, workspace, loaded);
    if next != s {
      assert Live(next.tasks[|s.tasks|], s.generation);
      assert forall u :: 0 <= u < |s.tasks| ==> next.tasks[u] == s.tasks[u] && !Live(s.tasks[u], s.generation);
    }
  }

  lemma WriteAndMoveKeepInv(s: Syncer, t: nat, ok: bool, phase: Phase)
    requires SyncInv(s) && t < |s.tasks| && !s.tasks[t].phase.Over? && !phase.Over? && (ok ==> Current(s, t))
    ensures SyncInv(SetPhase(Write(s, t, ok), t, phase))
  {
    WriteKeepsInv(s, t, ok);
    MoveKeepsInv(Write(s, t, ok), t, phase);
  }

  lemma LastReplyKeepsInv(s: Syncer, t: nat, ok: bool)
    requires SyncInv(s) && t < |s.tasks| && Live(s.tasks[t], s.generation)
    ensures SyncInv(Conclude(Write(s, t, ok), t))
  {
    WriteKeepsInv(s, t, ok);
    ConcludeKeepsInv(Write(s, t, ok), t);
  }

  lemma CurrentReplyKeepsInv(s: Syncer, e: SyncEvent)
    requires SyncInv(s) && SyncEnabled(s, e) && !e.Request? && !e.Teardown? && Current(s, e.task)
    ensures SyncInv(SyncStep(s, e))
  {
    match e
    case ChannelsListed(t, ok, loaded) => WriteAndMoveKeepInv(s, t, ok, LoadingMessages(loaded));
    case MessagesListed(t, ok) => WriteAndMoveKeepInv(s, t, ok, LoadingMessages(s.tasks[t].phase.outstanding - 1));
    case MessagesDone(t) => MoveKeepsInv(s, t, CountingUnread);
    case UnreadCounted(t, ok) => LastReplyKeepsInv(s, t, ok);
  }

  lemma ReplyKeepsInv(s: Syncer, e: SyncEvent)
    requires SyncInv(s) && SyncEnabled(s, e) && !e.Request? && !e.Teardown?
    ensures SyncInv(SyncStep(s, e))
  {
    if Current(s, e.task) {
      CurrentReplyKeepsInv(s, e);
    } else if e.MessagesListed? {
      WriteAndMoveKeepInv(s, e.task, false, LoadingMessages(s.tasks[e.task].phase.outstanding - 1));
    } else {
      MoveKeepsInv(s, e.task, Over);
    }
  }

  lemma SyncStepKeepsInv(s: Syncer, e: SyncEvent)
    requires SyncInv(s) && SyncEnabled(s, e)
    ensures SyncInv(SyncStep(s, e))
  {
    match e
    case Request(now, workspace, loaded) => RequestKeepsInv(s, now, workspace, loaded);
    case Teardown => TeardownKeepsInv(s);
    case _ => ReplyKeepsInv(s, e);
  }

  /** A reset forgets the cooldown and the flag: whatever was going on, the next request starts a resync. */
  lemma ResetAllowsAResync(s: Syncer, now: int, workspace: bool, loaded: nat)
    requires now >= 2000
    ensures var t := DoRequest(DoTeardown(s), now, workspace, loaded);
            && t.inFlight && t.lastAt == now && |t.tasks| == |s.tasks| + 1
            && t.tasks[|s.tasks|].generation == s.generation + 1 && t.tasks[|s.tasks|].startedAt == now
  {
  }

  /** A reply to a resync of an earlier generation changes nothing but that resync's own progress. */
  lemma StaleReplyDoesNothing(s: Syncer, e: SyncEvent)
    requires SyncEnabled(s, e) && !e.Request? && !e.Teardown? && s.tasks[e.task].generation != s.generation
    ensures SyncStep(s, e) == s.(tasks := SyncStep(s, e).tasks)
  {
  }

  /** A new generation starts with no resync of its own. */
  lemma TeardownKeepsInv(s: Syncer)
    requires SyncInv(s)
    ensures SyncInv(DoTeardown(s))
  {
  }

  // ---------------------------------------------------------------------------
  // Every run
  // ---------------------------------------------------------------------------

  const IDLE := Syncer(0, false, 0, [], [])

  predicate SyncRuns(s: Syncer, events: seq<SyncEvent>, t: Syncer)
    decreases |events|
  {
    if events == [] then s == t
    else SyncEnabled(s, events[0]) && SyncRuns(SyncStep(s, events[0]), events[1..], t)
  }

  lemma {:induction false} SyncRunKeepsInv(s: Syncer, events: seq<SyncEvent>, t: Syncer)
    requires SyncInv(s) && SyncRuns(s, events, t)
    ensures SyncInv(t)
    decreases |events|
  {
    if events != [] {
      SyncStepKeepsInv(s, events[0]);
      SyncRunKeepsInv(SyncStep(s, events[0]), events[1..], t);
    }
  }

  /** At most one resync of a generation is running, and two of one generation start at least the cooldown apart. */
  lemma ResyncsNeverOverlap(events: seq<SyncEvent>, s: Syncer, t: nat, u: nat)
    requires SyncRuns(IDLE, events, s) && t < u < |s.tasks| && s.tasks[t].generation == s.tasks[u].generation
    ensures s.tasks[t].phase.Over? || s.tasks[u].phase.Over?
    ensures s.tasks[t].startedAt + RESYNC_COOLDOWN_MS <= s.tasks[u].startedAt
  {
    SyncRunKeepsInv(IDLE, events, s);
    assert Live(s.tasks[u], s.tasks[t].generation) <==> !s.tasks[u].phase.Over?;
  }

  /** `resyncInFlight` is set exactly while a resync of the current generation is running. */
  lemma FlagTellsTheTruth(events: seq<SyncEvent>, s: Syncer)
    requires SyncRuns(IDLE, events, s)
    ensures s.inFlight <==> exists t :: 0 <= t < |s.tasks| && Live(s.tasks[t], s.generation)
  {
    SyncRunKeepsInv(IDLE, events, s);
  }

  /** A resync begun before a reset writes no store, clears no flag and notifies nobody after it. */
  lemma StaleResyncsDoNothing(events: seq<SyncEvent>, s: Syncer, d: nat)
    requires SyncRuns(IDLE, events, s) && d < |s.deeds|
    ensures s.deeds[d].mine == s.deeds[d].current
  {
    SyncRunKeepsInv(IDLE, events, s);
  }

  // ---------------------------------------------------------------------------
  // A resync runs to its end
  // ---------------------------------------------------------------------------

  lemma SyncRunsCons(s: Syncer, e: SyncEvent, rest: seq<SyncEvent>, t: Syncer)
    requires SyncEnabled(s, e) && SyncRuns(SyncStep(s, e), rest, t)
    ensures SyncRuns(s, [e] + rest, t)
  {
    assert ([e] + rest)[1..] == rest;
  }

  /** Task t ends, clears the flag and tells the listeners; every deed it adds is its own. */
  predicate Ends(s: Syncer, t: nat, end: Syncer) {
    && |end.tasks| == |s.tasks| && t < |s.tasks| && end.tasks[t].phase.Over?
    && !end.inFlight && end.generation == s.generation
    && end.deeds != [] && end.deeds[|end.deeds| - 1] == Notified(t, s.generation, s.generation)
  }

  /** How many replies were answers. */
  function Answers(oks: seq<bool>): nat {
    if oks == [] then 0 else (if oks[0] then 1 else 0) + Answers(oks[1..])
  }

  /** The remaining replies of a resync, one for each message list and one for the unread count. */
  lemma {:induction false} LoadingFinishes(s: Syncer, t: nat, oks: seq<bool>) returns (events: seq<SyncEvent>, end: Syncer)
    requires Current(s, t) && s.tasks[t].phase.LoadingMessages? && |oks| == s.tasks[t].phase.outstanding + 1
    ensures SyncRuns(s, events, end) && Ends(s, t, end)
    ensures |end.deeds| == |s.deeds| + Answers(oks) + 2
    decreases |oks|
  {
    if |oks| > 1 {
      var next := SyncStep(s, MessagesListed(t, oks[0]));
      events, end := LoadingFinishes(next, t, oks[1..]);
      SyncRunsCons(s, MessagesListed(t, oks[0]), events, end);
      events := [MessagesListed(t, oks[0])] + events;
    } else {
      assert Answers(oks) == (if oks[0] then 1 else 0) + Answers([]) && oks[1..] == [];
      var counting := SyncStep(s, MessagesDone(t));
      end := SyncStep(counting, UnreadCounted(t, oks[0]));
      SyncRunsCons(counting, UnreadCounted(t, oks[0]), [], end);
      SyncRunsCons(s, MessagesDone(t), [UnreadCounted(t, oks[0])] + [], end);
      events := [MessagesDone(t)] + ([UnreadCounted(t, oks[0])] + []);
    }
  }

  /**
   * Outside the cooldown and with none in flight, a requested resync starts and, whichever of its replies are
   * answers and whichever are failures, runs to its end; it writes once for every answer.
   */
  lemma RequestedResyncFinishes(s: Syncer, now: int, loaded: nat, listed: bool, oks: seq<bool>)
    returns (events: seq<SyncEvent>, end: Syncer)
    requires !s.inFlight && now - s.lastAt >= 2000 && |oks| == loaded + 1
    ensures SyncRuns(s, [Request(now, true, loaded)] + events, end) && Ends(DoRequest(s, now, true, loaded), |s.tasks|, end)
    ensures |end.deeds| == |s.deeds| + (if listed then 1 else 0) + Answers(oks) + 2
  {
    var started := DoRequest(s, now, true, loaded);
    var t := |s.tasks|;
    var loading := SyncStep(started, ChannelsListed(t, listed, loaded));
    var rest, stop := LoadingFinishes(loading, t, oks);
    SyncRunsCons(started, ChannelsListed(t, listed, loaded), rest, stop);
    events, end := [ChannelsListed(t, listed, loaded)] + rest, stop;
    SyncRunsCons(s, Request(now, true, loaded), events, end);
  }
}
