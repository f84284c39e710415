/** Runs of the whole manager: connection and resync together, and when a reconnection refetches. */
module RealtimeRuns {
  import opened Prelude
  import opened SocketLink
  import opened Resync

  datatype Manager = Manager(link: Link, sync: Syncer)

  /** What the connection meets, with what a resync started by it would find; and the resync's own events. */
  datatype Event =
    | OnLink(link: LinkEvent, now: int, workspace: bool, loaded: nat)
    | OnSync(sync: SyncEvent)

  predicate Able(m: Manager, e: Event) {
    match e
    case OnLink(le, _, _, _) => LinkEnabled(m.link, le)
    case OnSync(se) => SyncEnabled(m.sync, se) && !se.Teardown?
  }

  /** What a connection event means for the resync. */
  function SyncAfter(m: Manager, e: LinkEvent, now: int, workspace: bool, loaded: nat): Syncer {
    match e
    case ResetAll => DoTeardown(m.sync)
    case SocketOpens(k, _) =>
      if Heeds(m.link, k) && m.link.everConnected then DoRequest(m.sync, now, workspace, loaded) else m.sync
    case Withdrawn(k, topic, _) =>
      if Heeds(m.link, k) && topic.Channel? then DoRequest(m.sync, now, workspace, loaded) else m.sync
    case _ => m.sync
  }

  function Step(m: Manager, e: Event): Manager
    requires Able(m, e)
  {
    match e
    case OnLink(le, now, workspace, loaded) => Manager(LinkStep(m.link, le), SyncAfter(m, le, now, workspace, loaded))
    case OnSync(se) => m.(sync := SyncStep(m.sync, se))
  }

  /** Where events lead; one that cannot happen does nothing. */
  function Play(s: Manager, events: seq<Event>): Manager
    decreases |events|
  {
    if events == [] then s
    else
      var m := Play(s, events[..|events| - 1]);
      if Able(m, events[|events| - 1]) then Step(m, events[|events| - 1]) else m
  }

  predicate Starts(s: Manager) {
    Fresh(s.link) && s.sync == IDLE
  }

  predicate ManagerInv(m: Manager) {
    LinkInv(m.link) && SyncInv(m.sync) && m.link.generation == m.sync.generation
  }

  lemma StepKeepsManager(m: Manager, e: Event)
    requires ManagerInv(m) && Able(m, e)
    ensures ManagerInv(Step(m, e))
  {
    match e
    case OnLink(le, now, workspace, loaded) =>
      LinkStepKeepsInv(m.link, le);
      RequestKeepsInv(m.sync, now, workspace, loaded);
      TeardownKeepsInv(m.sync);
      LinkStepKeepsRest(m.link, le);
    case OnSync(se) => SyncStepKeepsInv(m.sync, se);
  }

  lemma {:induction false} PlayKeepsManager(s: Manager, events: seq<Event>)
    requires Starts(s)
    ensures ManagerInv(Play(s, events))
    decreases |events|
  {
    if events != [] {
      PlayKeepsManager(s, events[..|events| - 1]);
      var m := Play(s, events[..|events| - 1]);
      if Able(m, events[|events| - 1]) {
        StepKeepsManager(m, events[|events| - 1]);
      }
    }
  }

  // ---------------------------------------------------------------------------
  // What sending leaves alone
  // ---------------------------------------------------------------------------

  /** Everything but sockets and desires. */
  predicate SameRest(l: Link, m: Link) {
    && l.generation == m.generation && l.ws == m.ws && l.everConnected == m.everConnected
    && |l.sockets| == |m.sockets| && l.timers == m.timers && l.reconnectTimer == m.reconnectTimer
    && l.reconnectDelay == m.reconnectDelay && l.connected == m.connected && l.intentionalClose == m.intentionalClose
    && l.token == m.token
  }

  lemma SendKeepsRest(l: Link, c: Command, budget: nat)
    ensures SameRest(l, Send(l, c, budget).0)
  {
    if IsOpen(l) && budget == 0 {
      assert Send(l, c, budget).0 == SetReady(l, l.ws.value, Closing);
    } else if IsOpen(l) {
      assert Send(l, c, budget).0 == Record(l, l.ws.value, c);
    }
  }

  lemma {:induction false} SendAllKeepsRest(l: Link, cs: seq<Command>, budget: nat)
    ensures SameRest(l, SendAll(l, cs, budget).0)
    decreases |cs|
  {
    if cs != [] {
      var (m, left) := Send(l, cs[0], budget);
      SendKeepsRest(l, cs[0], budget);
      SendAllKeepsRest(m, cs[1..], left);
    }
  }

  lemma EnlistKeepsRest(l: Link, topic: Topic, id: string, budget: nat)
    ensures SameRest(l, Enlist(l, topic, id, budget).0)
  {
    SendKeepsRest(WithDesired(l, topic, Desired(l, topic) + [id]), Add(topic, id), budget);
  }

  lemma DelistKeepsRest(l: Link, topic: Topic, id: string, budget: nat)
    ensures SameRest(l, Delist(l, topic, id, budget).0)
  {
    SendKeepsRest(WithDesired(l, topic, Without(Desired(l, topic), id)), Remove(topic, id), budget);
  }

  lemma {:induction false} DelistMissingKeepsRest(l: Link, ids: seq<string>, next: seq<string>, budget: nat)
    ensures SameRest(l, DelistMissing(l, ids, next, budget).0)
    decreases |ids|
  {
    if ids != [] {
      var (m, left) := if ids[0] in next then (l, budget) else Delist(l, Channel, ids[0], budget);
      DelistKeepsRest(l, Channel, ids[0], budget);
      DelistMissingKeepsRest(m, ids[1..], next, left);
    }
  }

  lemma {:induction false} EnlistAllKeepsRest(l: Link, ids: seq<string>, budget: nat)
    ensures SameRest(l, EnlistAll(l, ids, budget).0)
    decreases |ids|
  {
    if ids != [] {
      var (m, left) := Enlist(l, Channel, ids[0], budget);
      EnlistKeepsRest(l, Channel, ids[0], budget);
      EnlistAllKeepsRest(m, ids[1..], left);
    }
  }

  lemma SubscriptionsKeepRest(l: Link, ids: seq<string>, budget: nat)
    ensures SameRest(l, Subscriptions(l, ids, budget).0)
  {
    DelistMissingKeepsRest(l, l.channels, ids, budget);
    var (m, left) := DelistMissing(l, l.channels, ids, budget);
    EnlistAllKeepsRest(m, ids, left);
  }

  lemma ReassertKeeps(l: Link, budget: nat)
    ensures var m := Reassert(l, budget);
            && m.everConnected == l.everConnected && m.generation == l.generation && m.connected && m.reconnectDelay == 1000
  {
    var ready := l.(reconnectDelay := INITIAL_RECONNECT_DELAY_MS, connected := true);
    SendAllKeepsRest(ready, Adds(Channel, l.channels) + Adds(Room, l.rooms), budget);
  }

  predicate TearsDown(e: LinkEvent) {
    e.Disconnect? || e.ResetAll?
  }

  /** The current socket opens. */
  predicate OpensCurrent(l: Link, e: LinkEvent) {
    e.SocketOpens? && l.ws == Some(e.socket)
  }

  lemma OpeningRemembers(l: Link, k: nat, budget: nat)
    requires LinkInv(l) && k < |l.sockets|
    ensures DoOpen(l, k, budget).everConnected == (l.ws == Some(k) || l.everConnected)
    ensures DoOpen(l, k, budget).generation == l.generation
  {
    ReassertKeeps(SetReady(l, k, Open), budget);
  }

  lemma TimerRemembers(l: Link, t: nat)
    requires t < |l.timers|
    ensures DoFire(l, t).everConnected == l.everConnected && DoFire(l, t).generation == l.generation
  {
  }

  lemma CloseRemembers(l: Link, k: nat)
    requires k < |l.sockets|
    ensures DoClose(l, k).everConnected == l.everConnected && DoClose(l, k).generation == l.generation
  {
  }

  lemma ConnectRemembers(l: Link)
    ensures DoConnect(l).everConnected == l.everConnected && DoConnect(l).generation == l.generation
  {
  }

  lemma DisconnectForgets(l: Link)
    ensures !DoDisconnect(l).everConnected && DoDisconnect(l).generation == l.generation
  {
    var stopped := ClearTimer(l.(intentionalClose := true));
    assert stopped.generation == l.generation;
    assert CloseCurrent(stopped).generation == stopped.generation;
  }

  lemma ResetForgets(l: Link)
    ensures !DoReset(l).everConnected && DoReset(l).generation == l.generation + 1
  {
    assert Detach(l).generation == l.generation + 1;
    DisconnectForgets(Detach(l));
  }

  lemma WithdrawalRemembers(l: Link, k: nat, topic: Topic, id: string)
    requires k < |l.sockets|
    ensures DoWithdraw(l, k, topic, id).everConnected == l.everConnected
    ensures DoWithdraw(l, k, topic, id).generation == l.generation
  {
  }

  lemma LinkStepKeepsRest(l: Link, e: LinkEvent)
    requires LinkInv(l) && LinkEnabled(l, e)
    ensures LinkStep(l, e).everConnected ==
            if TearsDown(e) then false else if OpensCurrent(l, e) then true else l.everConnected
    ensures LinkStep(l, e).generation == if e.ResetAll? then l.generation + 1 else l.generation
  {
    match e
    case Connect => ConnectRemembers(l);
    case Disconnect => DisconnectForgets(l);
    case ResetAll => ResetForgets(l);
    case SocketOpens(k, budget) => OpeningRemembers(l, k, budget);
    case SocketErrs(k) =>
    case SocketCloses(k) => CloseRemembers(l, k);
    case TimerFires(t) => TimerRemembers(l, t);
    case TokenChanges(_) =>
    case Want(topic, id, budget) => EnlistKeepsRest(l, topic, id, budget);
    case Unwant(topic, id, budget) => DelistKeepsRest(l, topic, id, budget);
    case SetSubscriptions(ids, budget) => SubscriptionsKeepRest(l, ids, budget);
    case Withdrawn(k, topic, id) => WithdrawalRemembers(l, k, topic, id);
  }

  /** Neither a close, an error, a withdrawal nor a connect touches the delay. */
  lemma DelayStays(l: Link, e: LinkEvent)
    requires LinkInv(l) && LinkEnabled(l, e)
    requires e.Connect? || e.SocketErrs? || e.SocketCloses? || e.TokenChanges? || e.Withdrawn?
    ensures LinkStep(l, e).reconnectDelay == l.reconnectDelay
  {
  }

  lemma TeardownRestartsDelay(l: Link, e: LinkEvent)
    requires LinkEnabled(l, e) && TearsDown(e)
    ensures LinkStep(l, e).reconnectDelay == 1000
  {
  }

  /**
   * The delay before the next attempt doubles with every attempt up to thirty seconds, and starts over at one
   * second with every opening and every teardown.
   */
  lemma DelayAfter(l: Link, e: LinkEvent)
    requires LinkInv(l) && LinkEnabled(l, e)
    ensures LinkStep(l, e).reconnectDelay ==
            if TearsDown(e) || OpensCurrent(l, e) then 1000
            else if !e.TimerFires? then l.reconnectDelay
            else if l.reconnectDelay * 2 < 30_000 then l.reconnectDelay * 2
            else 30_000
    ensures OpensCurrent(l, e) ==> LinkStep(l, e).connected && LinkStep(l, e).everConnected
  {
    match e
    case SocketOpens(k, budget) => ReassertKeeps(SetReady(l, k, Open), budget);
    case Want(topic, id, budget) => EnlistKeepsRest(l, topic, id, budget);
    case Unwant(topic, id, budget) => DelistKeepsRest(l, topic, id, budget);
    case SetSubscriptions(ids, budget) => SubscriptionsKeepRest(l, ids, budget);
    case TimerFires(_) =>
    case Disconnect => TeardownRestartsDelay(l, e);
    case ResetAll => TeardownRestartsDelay(l, e);
    case _ => DelayStays(l, e);
  }

  // ---------------------------------------------------------------------------
  // When a reconnection refetches
  // ---------------------------------------------------------------------------

  predicate IsOpening(m: Manager, e: Event) {
    e.OnLink? && Able(m, e) && OpensCurrent(m.link, e.link)
  }

  predicate IsTeardown(e: Event) {
    e.OnLink? && TearsDown(e.link)
  }

  /** Event k opened the connection of its time, and the application has not torn anything down since. */
  predicate Stands(s: Manager, events: seq<Event>, k: nat) {
    && k < |events| && IsOpening(Play(s, events[..k]), events[k])
    && forall j :: k < j < |events| ==> !IsTeardown(events[j])
  }

  predicate ConnectedBefore(s: Manager, events: seq<Event>) {
    exists k :: 0 <= k < |events| && Stands(s, events, k)
  }

  lemma StandsSnoc(s: Manager, events: seq<Event>, k: nat)
    requires k + 1 < |events| && !IsTeardown(events[|events| - 1])
    ensures Stands(s, events, k) <==> Stands(s, events[..|events| - 1], k)
  {
    var init := events[..|events| - 1];
    assert init[..k] == events[..k];
    assert forall j :: 0 <= j < |init| ==> init[j] == events[j];
  }

  lemma StepConnects(m: Manager, e: Event)
    requires ManagerInv(m) && Able(m, e)
    ensures Step(m, e).link.everConnected ==
            if IsTeardown(e) then false else if IsOpening(m, e) then true else m.link.everConnected
  {
    if e.OnLink? {
      LinkStepKeepsRest(m.link, e.link);
    }
  }

  /** The manager remembers having been connected exactly while some opening still stands. */
  lemma {:induction false} RemembersConnectionIff(s: Manager, events: seq<Event>)
    requires Starts(s)
    ensures Play(s, events).link.everConnected <==> ConnectedBefore(s, events)
    decreases |events|
  {
    if events != [] {
      var n := |events| - 1;
      var init, e := events[..n], events[n];
      var m := Play(s, init);
      RemembersConnectionIff(s, init);
      PlayKeepsManager(s, init);
      if Able(m, e) {
        StepConnects(m, e);
      }
      if IsOpening(m, e) {
        assert Stands(s, events, n);
      } else if !IsTeardown(e) {
        forall k | 0 <= k < n ensures Stands(s, events, k) <==> Stands(s, init, k) {
          StandsSnoc(s, events, k);
        }
      } else {
        assert Able(m, e);
      }
    }
  }

  /**
   * An opening starts a resync if and only if an earlier opening still stands, none is in flight and the last one
   * is two seconds old; otherwise it leaves the resync as it was.
   */
  lemma ReconnectionsResyncIff(s: Manager, events: seq<Event>, e: Event)
    requires Starts(s) && IsOpening(Play(s, events), e)
    ensures var m := Play(s, events);
            var n := Step(m, e);
            if ConnectedBefore(s, events) && !m.sync.inFlight && e.now - m.sync.lastAt >= 2000 then
              && n.sync.inFlight && n.sync.lastAt == e.now && |n.sync.tasks| == |m.sync.tasks| + 1
              && n.sync.tasks[..|m.sync.tasks|] == m.sync.tasks
              && n.sync.tasks[|m.sync.tasks|].generation == m.link.generation
              && n.sync.tasks[|m.sync.tasks|].startedAt == e.now && !n.sync.tasks[|m.sync.tasks|].phase.Over?
            else n.sync == m.sync
  {
    RemembersConnectionIff(s, events);
    PlayKeepsManager(s, events);
  }

  /** The three events of a connection lost and found again. */
  function Comeback(m: Manager, k: nat, t: nat, budget: nat, now: int, loaded: nat): seq<Event> {
    [OnLink(SocketCloses(k), now, true, loaded), OnLink(TimerFires(t), now, true, loaded),
     OnLink(SocketOpens(|m.link.sockets|, budget), now, true, loaded)]
  }

  lemma PlayMore(m: Manager, events: seq<Event>, e: Event)
    requires Able(Play(m, events), e)
    ensures Play(m, events + [e]) == Step(Play(m, events), e)
  {
    assert (events + [e])[..|events|] == events;
  }

  lemma PlayThree(m: Manager, a: Event, b: Event, c: Event)
    requires Able(m, a) && Able(Step(m, a), b) && Able(Step(Step(m, a), b), c)
    ensures Play(m, [a, b, c]) == Step(Step(Step(m, a), b), c)
  {
    PlayMore(m, [], a);
    assert [] + [a] == [a];
    PlayMore(m, [a], b);
    PlayMore(m, [a] + [b], c);
    assert [a] + [b] + [c] == [a, b, c];
  }

  lemma ReopeningResyncs(m: Manager, e: Event)
    requires Able(m, e) && e.OnLink? && e.link.SocketOpens? && e.workspace
    requires LinkInv(m.link) && Heeds(m.link, e.link.socket) && m.link.everConnected
    requires |m.link.channels| + |m.link.rooms| <= e.link.budget && !m.sync.inFlight && e.now - m.sync.lastAt >= 2000
    ensures var n := Step(m, e);
            && n.link.ws == m.link.ws && IsOpen(n.link) && n.link.connected
            && Replay(Carried(n.link), Channel) == Members(m.link.channels)
            && Replay(Carried(n.link), Room) == Members(m.link.rooms)
            && n.sync.inFlight && n.sync.lastAt == e.now && |n.sync.tasks| == |m.sync.tasks| + 1
  {
    OpenKeepsInv(m.link, e.link.socket, e.link.budget);
    OpeningHolds(m.link, e.link.socket, e.link.budget);
  }

  /**
   * A connection that had been open and closes by itself comes back: a new socket, told everything still desired,
   * and a resync started, outside the cooldown, for what was missed meanwhile.
   */
  lemma LostConnectionsComeBackAndResync(s: Manager, events: seq<Event>, k: nat, budget: nat, now: int, loaded: nat)
    returns (t: nat)
    requires Starts(s) && ConnectedBefore(s, events)
    requires var m := Play(s, events);
             && k < |m.link.sockets| && m.link.ws == Some(k) && !m.link.sockets[k].ready.Closed? && m.link.token
             && |m.link.channels| + |m.link.rooms| <= budget && !m.sync.inFlight && now - m.sync.lastAt >= 2000
    ensures var m := Play(s, events);
            var n := Play(m, Comeback(m, k, t, budget, now, loaded));
            && n.link.ws == Some(|m.link.sockets|) && IsOpen(n.link) && n.link.connected
            && Replay(Carried(n.link), Channel) == Members(m.link.channels)
            && Replay(Carried(n.link), Room) == Members(m.link.rooms)
            && n.sync.inFlight && n.sync.lastAt == now && |n.sync.tasks| == |m.sync.tasks| + 1
  {
    var m := Play(s, events);
    PlayKeepsManager(s, events);
    RemembersConnectionIff(s, events);
    t := CloseLeadsToANewSocket(m.link, k);
    var a, b := OnLink(SocketCloses(k), now, true, loaded), OnLink(TimerFires(t), now, true, loaded);
    var c := OnLink(SocketOpens(|m.link.sockets|, budget), now, true, loaded);
    LinkStepKeepsRest(m.link, SocketCloses(k));
    CloseKeepsInv(m.link, k);
    LinkStepKeepsRest(Step(m, a).link, TimerFires(t));
    ReopeningResyncs(Step(Step(m, a), b), c);
    PlayThree(m, a, b, c);
  }
}
