/** The realtime manager itself: one object whose methods and callbacks update its fields in place. */
module RealtimeManager {
  import opened Prelude
  import opened SocketLink
  import opened SocketSequence
  import opened Resync
  import RealtimeRuns

  lemma {:induction false} SendAllConcat(l: Link, a: seq<Command>, b: seq<Command>, budget: nat)
    ensures var (m, left) := SendAll(l, a, budget); SendAll(l, a + b, budget) == SendAll(m, b, left)
    decreases |a|
  {
    if a == [] {
      assert a + b == b;
    } else {
      assert (a + b)[1..] == a[1..] + b;
      var (m, left) := Send(l, a[0], budget);
      SendAllConcat(m, a[1..], b, left);
    }
  }

  lemma AddsStep(topic: Topic, ids: seq<string>, i: nat)
    requires i < |ids|
    ensures Adds(topic, ids[i..]) != [] && Adds(topic, ids[i..])[0] == Add(topic, ids[i])
    ensures Adds(topic, ids[i..])[1..] == Adds(topic, ids[i + 1..])
  {
    assert ids[i..][1..] == ids[i + 1..];
  }

  class WebSocketManager {
    var sockets: seq<Socket>
    var ws: Option<nat>
    var lifecycleGeneration: nat
    var timers: seq<Timer>
    var reconnectTimer: Option<nat>
    var reconnectDelay: nat
    var connected: bool
    var intentionalClose: bool
    var everConnected: bool
    var desiredChannels: seq<string>
    var desiredRooms: seq<string>
    var hasToken: bool

    var lastSeq: int
    var announced: seq<Gap>           // gaps emitted on this connection
    ghost var frames: seq<Frame>      // frames heeded on this connection

    var resyncInFlight: bool
    var lastResyncAt: int
    var tasks: seq<Task>
    ghost var deeds: seq<Deed>

    ghost function Wire(): Link
      reads this
    {
      Link(sockets, ws, lifecycleGeneration, timers, reconnectTimer, reconnectDelay, connected, intentionalClose,
           everConnected, desiredChannels, desiredRooms, hasToken)
    }

    ghost function Sync(): Syncer
      reads this
    {
      Syncer(lifecycleGeneration, resyncInFlight, lastResyncAt, tasks, deeds)
    }

    ghost function Numbers(): Track
      reads this
    {
      Track(lastSeq, announced)
    }

    /** The sequence state is the one the frames of this connection lead to. */
    ghost predicate TracksFrames()
      reads this
    {
      Numbers() == Tracked(frames)
    }

    /** Every other socket is on its way out, the open one mirrors desire, one resync runs, every frame is tracked. */
    ghost predicate Valid()
      reads this
    {
      LinkInv(Wire()) && SyncInv(Sync()) && TracksFrames()
    }

    /** The current socket and timer are among those ever made. */
    ghost predicate InRange()
      reads this
    {
      (ws.Some? ==> ws.value < |sockets|) && (reconnectTimer.Some? ==> reconnectTimer.value < |timers|)
    }

    constructor (hasToken: bool)
      ensures Valid() && Fresh(Wire()) && Sync() == IDLE && Numbers() == Track(0, []) && frames == []
    {
      sockets, ws, lifecycleGeneration := [], None, 0;
      timers, reconnectTimer, reconnectDelay := [], None, INITIAL_RECONNECT_DELAY_MS;
      connected, intentionalClose, everConnected := false, false, false;
      desiredChannels, desiredRooms := [], [];
      this.hasToken := hasToken;
      lastSeq, announced, frames := 0, [], [];
      resyncInFlight, lastResyncAt, tasks, deeds := false, 0, [], [];
    }

    // -------------------------------------------------------------------------
    // Lifecycle
    // -------------------------------------------------------------------------

    method ClearReconnectTimer()
      requires InRange()
      modifies this`timers, this`reconnectTimer
      ensures Wire() == ClearTimer(old(Wire())) && Sync() == old(Sync())
    {
      if reconnectTimer.Some? {
        var t := reconnectTimer.value;
        timers := timers[t := timers[t].(state := Cleared)];
      }
      reconnectTimer := None;
    }

    /** connect(): afterwards every socket but the current one is closing or closed, and with a token there is one in use. */
    method Connect()
      requires Valid()
      modifies this`sockets, this`ws, this`timers, this`reconnectTimer, this`intentionalClose
      ensures Valid() && Wire() == DoConnect(old(Wire())) && Sync() == old(Sync())
      ensures forall k :: 0 <= k < |sockets| && ws != Some(k) ==> sockets[k].ready.Closing? || sockets[k].ready.Closed?
      ensures if hasToken then InUse(Wire()) else Wire() == old(Wire())
    {
      ConnectKeepsInv(Wire());
      OpenSocket();
    }

    method OpenSocket()
      requires InRange()
      modifies this`sockets, this`ws, this`timers, this`reconnectTimer, this`intentionalClose
      ensures Wire() == DoConnect(old(Wire()))
    {
      if !hasToken {
        return;
      }
      if ws.Some? && (sockets[ws.value].ready.Open? || sockets[ws.value].ready.Connecting?) {
        return;
      }
      intentionalClose := false;
      ClearReconnectTimer();
      ws := Some(|sockets|);
      sockets := sockets + [Socket(Connecting, lifecycleGeneration, true, [])];
    }

    method CloseCurrent()
      requires InRange()
      modifies this`sockets
      ensures Wire() == SocketLink.CloseCurrent(old(Wire())) && Sync() == old(Sync())
    {
      if ws.Some? && !sockets[ws.value].ready.Closed? {
        sockets := sockets[ws.value := sockets[ws.value].(ready := Closing)];
      }
    }

    /** disconnect(): no socket, no timer and no desire is left, and numbering starts over. */
    method Disconnect()
      requires Valid()
      modifies this
      ensures Valid() && Wire() == DoDisconnect(old(Wire())) && Sync() == old(Sync())
      ensures Quiet(Wire()) && desiredChannels == [] && desiredRooms == [] && lastSeq == 0
    {
      DisconnectKeepsInv(Wire());
      TearDown();
    }

    method TearDown()
      requires InRange()
      modifies this`intentionalClose, this`timers, this`reconnectTimer, this`sockets, this`ws, this`desiredChannels
      modifies this`desiredRooms, this`everConnected, this`reconnectDelay, this`connected, this`lastSeq, this`announced
      modifies this`frames
      ensures Wire() == DoDisconnect(old(Wire())) && Sync() == old(Sync())
      ensures Numbers() == Track(0, []) && frames == []
    {
      intentionalClose := true;
      ClearReconnectTimer();
      CloseCurrent();
      ForgetDesires();
      RestartNumbers();
    }

    method ForgetDesires()
      modifies this`ws, this`desiredChannels, this`desiredRooms, this`everConnected, this`reconnectDelay, this`connected
      ensures Wire() == Forget(old(Wire()))
    {
      ws := None;
      desiredChannels, desiredRooms := [], [];
      everConnected := false;
      reconnectDelay := INITIAL_RECONNECT_DELAY_MS;
      connected := false;
    }

    /** A connection's numbering starts over. */
    method RestartNumbers()
      modifies this`lastSeq, this`announced, this`frames
      ensures Numbers() == Track(0, []) && frames == []
      ensures Wire() == old(Wire()) && Sync() == old(Sync())
    {
      lastSeq, announced, frames := 0, [], [];
    }

    /** reset(): a new lifecycle generation without a resync of its own, detached handlers, then disconnect(). */
    method Reset()
      requires Valid()
      modifies this
      ensures Valid() && Wire() == DoReset(old(Wire())) && Sync() == DoTeardown(old(Sync()))
      ensures Quiet(Wire()) && desiredChannels == [] && desiredRooms == [] && lastSeq == 0
      ensures !resyncInFlight && lastResyncAt == 0 && lifecycleGeneration == old(lifecycleGeneration) + 1
    {
      ResetKeepsInv(Wire());
      TeardownKeepsInv(Sync());
      BeginGeneration();
      TearDown();
    }

    method BeginGeneration()
      requires InRange()
      modifies this`lifecycleGeneration, this`resyncInFlight, this`lastResyncAt, this`sockets
      ensures InRange() && Wire() == Detach(old(Wire())) && Sync() == DoTeardown(old(Sync()))
    {
      lifecycleGeneration := lifecycleGeneration + 1;
      resyncInFlight := false;
      lastResyncAt := 0;
      if ws.Some? {
        sockets := sockets[ws.value := sockets[ws.value].(attached := false)];
      }
    }

    ghost function Whole(): RealtimeRuns.Manager
      reads this
    {
      RealtimeRuns.Manager(Wire(), Sync())
    }

    /**
     * onopen: re-assert every desired channel and room; a reconnection also resyncs. If the socket is still open
     * afterwards, its peer has been told exactly what is desired.
     */
    method SocketOpened(k: nat, budget: nat, now: int, workspace: bool, loaded: nat)
      requires Valid() && LinkEnabled(Wire(), SocketOpens(k, budget))
      modifies this
      ensures Valid() && Wire() == DoOpen(old(Wire()), k, budget)
      ensures Whole() == RealtimeRuns.Step(old(Whole()), RealtimeRuns.OnLink(SocketOpens(k, budget), now, workspace, loaded))
      ensures old(ws) == Some(k) ==> everConnected && connected && reconnectDelay == 1000 && lastSeq == 0
      ensures IsOpen(Wire()) ==> Replay(Carried(Wire()), Channel) == Members(desiredChannels)
      ensures IsOpen(Wire()) ==> Replay(Carried(Wire()), Room) == Members(desiredRooms)
    {
      OpenKeepsInv(Wire(), k, budget);
      RequestKeepsInv(Sync(), now, workspace, loaded);
      RealtimeRuns.DelayAfter(Wire(), SocketOpens(k, budget));
      HandleOpen(k, budget, now, workspace, loaded);
    }

    method HandleOpen(k: nat, budget: nat, now: int, workspace: bool, loaded: nat)
      requires InRange() && k < |sockets|
      modifies this
      ensures Wire() == DoOpen(old(Wire()), k, budget)
      ensures Sync() == if old(Heeds(Wire(), k) && everConnected) then DoRequest(old(Sync()), now, workspace, loaded)
                        else old(Sync())
      ensures if old(Heeds(Wire(), k)) then Numbers() == Track(0, []) && frames == []
              else Numbers() == old(Numbers()) && frames == old(frames)
    {
      var heeded := sockets[k].attached && sockets[k].generation == lifecycleGeneration && ws == Some(k);
      sockets := sockets[k := sockets[k].(ready := Ready.Open)];
      if heeded {
        BeginConnection(budget, now, workspace, loaded);
      }
    }

    method BeginConnection(budget: nat, now: int, workspace: bool, loaded: nat)
      requires InRange()
      modifies this
      ensures Wire() == Reassert(old(Wire()), budget).(everConnected := true)
      ensures Sync() == if old(everConnected) then DoRequest(old(Sync()), now, workspace, loaded) else old(Sync())
      ensures Numbers() == Track(0, []) && frames == []
    {
      RestartNumbers();
      ReassertDesires(budget);
      if everConnected {
        RequestResync(now, workspace, loaded);
      }
      everConnected := true;
    }

    /** Subscriptions and rooms are per connection: every one of them is sent again. */
    method ReassertDesires(budget: nat)
      requires InRange()
      modifies this`reconnectDelay, this`connected, this`sockets
      ensures Wire() == Reassert(old(Wire()), budget) && Sync() == old(Sync())
    {
      reconnectDelay := INITIAL_RECONNECT_DELAY_MS;
      connected := true;
      SendDesires(budget);
    }

    method SendDesires(budget: nat)
      requires InRange()
      modifies this`sockets
      ensures Wire() == SendAll(old(Wire()), Adds(Channel, desiredChannels) + Adds(Room, desiredRooms), budget).0
      ensures Sync() == old(Sync())
    {
      SendAllConcat(Wire(), Adds(Channel, desiredChannels), Adds(Room, desiredRooms), budget);
      var left := Announce(Channel, desiredChannels, budget);
      left := Announce(Room, desiredRooms, left);
    }

    /** send, on the current socket. */
    method SendCommand(c: Command, budget: nat) returns (left: nat)
      requires InRange()
      modifies this`sockets
      ensures InRange() && (Wire(), left) == Send(old(Wire()), c, budget)
    {
      if ws.None? || !sockets[ws.value].ready.Open? {
        return budget;
      }
      if budget == 0 {
        CloseCurrent();
        return 0;
      }
      sockets := sockets[ws.value := sockets[ws.value].(history := sockets[ws.value].history + [c])];
      return budget - 1;
    }

    method Announce(topic: Topic, ids: seq<string>, budget: nat) returns (left: nat)
      requires InRange()
      modifies this`sockets
      ensures InRange() && (Wire(), left) == SendAll(old(Wire()), Adds(topic, ids), budget)
    {
      ghost var before := Wire();
      left := budget;
      var i := 0;
      while i < |ids|
        invariant i <= |ids| && InRange()
        invariant SendAll(before, Adds(topic, ids), budget) == SendAll(Wire(), Adds(topic, ids[i..]), left)
      {
        AddsStep(topic, ids, i);
        left := SendCommand(Add(topic, ids[i]), left);
        i := i + 1;
      }
    }

    method SocketErred(k: nat)
      requires Valid() && LinkEnabled(Wire(), SocketErrs(k))
      modifies this`sockets
      ensures Valid() && Wire() == LinkStep(old(Wire()), SocketErrs(k))
      ensures old(ws) == Some(k) ==> k < |sockets| && sockets[k] == old(sockets[k]).(ready := Closing)
    {
      LinkStepKeepsInv(Wire(), SocketErrs(k));
      if ws == Some(k) {
        ErrOutcome(Wire(), k);
      }
      if sockets[k].attached && sockets[k].generation == lifecycleGeneration && ws == Some(k) {
        CloseCurrent();
      }
    }

    /** onclose: a close nobody asked for leaves a pending timer as long as there is a token. */
    method SocketClosed(k: nat)
      requires Valid() && LinkEnabled(Wire(), SocketCloses(k))
      modifies this`sockets, this`ws, this`connected, this`timers, this`reconnectTimer
      ensures Valid() && Wire() == DoClose(old(Wire()), k)
      ensures old(ws) == Some(k) ==> !connected && (reconnectTimer.Some? || !hasToken)
      ensures old(ws) == Some(k) && hasToken && old(reconnectTimer).None? ==>
                timers == old(timers) + [Timer(lifecycleGeneration, Pending, reconnectDelay)]
      ensures old(ws) != Some(k) ==> Wire() == SetReady(old(Wire()), k, Closed)
    {
      CloseKeepsInv(Wire(), k);
      CloseOutcome(Wire(), k);
      HandleClose(k);
    }

    method HandleClose(k: nat)
      requires k < |sockets|
      modifies this`sockets, this`ws, this`connected, this`timers, this`reconnectTimer
      ensures Wire() == DoClose(old(Wire()), k)
    {
      sockets := sockets[k := sockets[k].(ready := Closed)];
      if sockets[k].attached && sockets[k].generation == lifecycleGeneration && ws == Some(k) {
        connected := false;
        if intentionalClose {
          ws := None;
          return;
        }
        if reconnectTimer.Some? || !hasToken {
          return;
        }
        reconnectTimer := Some(|timers|);
        timers := timers + [Timer(lifecycleGeneration, Pending, reconnectDelay)];
      }
    }

    method TimerFired(t: nat)
      requires Valid() && LinkEnabled(Wire(), TimerFires(t))
      modifies this`sockets, this`ws, this`timers, this`reconnectTimer, this`reconnectDelay, this`intentionalClose
      ensures Valid() && Wire() == DoFire(old(Wire()), t)
      ensures reconnectDelay == if old(reconnectDelay) * 2 < 30_000 then old(reconnectDelay) * 2 else 30_000
      ensures hasToken ==> InUse(Wire())
    {
      FireKeepsInv(Wire(), t);
      RealtimeRuns.DelayAfter(Wire(), TimerFires(t));
      HandleTimer(t);
    }

    method HandleTimer(t: nat)
      requires InRange() && t < |timers|
      modifies this`sockets, this`ws, this`timers, this`reconnectTimer, this`reconnectDelay, this`intentionalClose
      ensures Wire() == DoFire(old(Wire()), t)
    {
      var generation := timers[t].generation;
      timers := timers[t := timers[t].(state := Fired)];
      if generation != lifecycleGeneration {
        return;
      }
      reconnectTimer := None;
      reconnectDelay := if reconnectDelay * 2 < MAX_RECONNECT_DELAY_MS then reconnectDelay * 2 else MAX_RECONNECT_DELAY_MS;
      OpenSocket();
    }

    // -------------------------------------------------------------------------
    // Membership
    // -------------------------------------------------------------------------

    method EnlistTopic(topic: Topic, id: string, budget: nat) returns (left: nat)
      requires InRange()
      modifies this`sockets, this`desiredChannels, this`desiredRooms
      ensures InRange() && (Wire(), left) == Enlist(old(Wire()), topic, id, budget)
    {
      if topic.Channel? {
        if id in desiredChannels { return budget; }
        desiredChannels := desiredChannels + [id];
      } else {
        if id in desiredRooms { return budget; }
        desiredRooms := desiredRooms + [id];
      }
      left := SendCommand(Add(topic, id), budget);
    }

    method DelistTopic(topic: Topic, id: string, budget: nat) returns (left: nat)
      requires InRange()
      modifies this`sockets, this`desiredChannels, this`desiredRooms
      ensures InRange() && (Wire(), left) == Delist(old(Wire()), topic, id, budget)
    {
      if topic.Channel? {
        if id !in desiredChannels { return budget; }
        desiredChannels := Without(desiredChannels, id);
      } else {
        if id !in desiredRooms { return budget; }
        desiredRooms := Without(desiredRooms, id);
      }
      left := SendCommand(Remove(topic, id), budget);
    }

    /** subscribe, and joinRoom. */
    method Subscribe(topic: Topic, id: string, budget: nat)
      requires Valid()
      modifies this`sockets, this`desiredChannels, this`desiredRooms
      ensures Valid() && Wire() == Enlist(old(Wire()), topic, id, budget).0
      ensures id in old(Desired(Wire(), topic)) ==> Wire() == old(Wire())
      ensures id !in old(Desired(Wire(), topic)) ==> Desired(Wire(), topic) == old(Desired(Wire(), topic)) + [id]
    {
      EnlistOutcome(Wire(), topic, id, budget);
      EnlistKeepsInv(Wire(), topic, id, budget);
      var _ := EnlistTopic(topic, id, budget);
    }

    /** unsubscribe, and leaveRoom. */
    method Unsubscribe(topic: Topic, id: string, budget: nat)
      requires Valid()
      modifies this`sockets, this`desiredChannels, this`desiredRooms
      ensures Valid() && Wire() == Delist(old(Wire()), topic, id, budget).0
      ensures id !in old(Desired(Wire(), topic)) ==> Wire() == old(Wire())
      ensures forall x :: x in Desired(Wire(), topic) <==> x in old(Desired(Wire(), topic)) && x != id
    {
      DelistOutcome(Wire(), topic, id, budget);
      DelistKeepsInv(Wire(), topic, id, budget);
      var _ := DelistTopic(topic, id, budget);
    }

    /** setSubscriptions: with a socket that takes the commands, exactly the difference is sent and the list is desired. */
    method SetSubscriptions(ids: seq<string>, budget: nat)
      requires Valid()
      modifies this`sockets, this`desiredChannels, this`desiredRooms
      ensures Valid() && Wire() == Subscriptions(old(Wire()), ids, budget).0
      ensures forall x :: x in desiredChannels <==> x in ids
    {
      SubscriptionsAreDesired(Wire(), ids, budget);
      SetSubscriptionsKeepsInv(Wire(), ids, budget);
      Resubscribe(ids, budget);
    }

    /** Drop what is no longer listed, then add what is new. */
    method Resubscribe(ids: seq<string>, budget: nat)
      requires InRange()
      modifies this`sockets, this`desiredChannels, this`desiredRooms
      ensures Wire() == Subscriptions(old(Wire()), ids, budget).0
    {
      ghost var before := Wire();
      var current := desiredChannels;
      var left := budget;
      var i := 0;
      while i < |current|
        invariant i <= |current| && InRange()
        invariant DelistMissing(before, current, ids, budget) == DelistMissing(Wire(), current[i..], ids, left)
        invariant lifecycleGeneration == before.generation
      {
        assert current[i..][1..] == current[i + 1..];
        if current[i] !in ids {
          left := DelistTopic(Channel, current[i], left);
        }
        i := i + 1;
      }
      ghost var kept, afterwards := Wire(), left;
      i := 0;
      while i < |ids|
        invariant i <= |ids| && InRange()
        invariant EnlistAll(kept, ids, afterwards) == EnlistAll(Wire(), ids[i..], left)
        invariant lifecycleGeneration == before.generation
      {
        assert ids[i..][1..] == ids[i + 1..];
        left := EnlistTopic(Channel, ids[i], left);
        i := i + 1;
      }
    }

    /** The revocation arms of dispatch: drop the desire, so that no reconnect re-asserts it; a channel's also resyncs. */
    method MembershipWithdrawn(k: nat, topic: Topic, id: string, now: int, workspace: bool, loaded: nat)
      requires Valid() && LinkEnabled(Wire(), Withdrawn(k, topic, id))
      modifies this`sockets, this`desiredChannels, this`desiredRooms, this`resyncInFlight, this`lastResyncAt, this`tasks
      ensures Valid() && Wire() == DoWithdraw(old(Wire()), k, topic, id)
      ensures old(ws) == Some(k) ==> id !in Desired(Wire(), topic)
      ensures Sync() == if topic.Channel? && old(Heeds(Wire(), k)) then DoRequest(old(Sync()), now, workspace, loaded)
                        else old(Sync())
    {
      WithdrawKeepsInv(Wire(), k, topic, id);
      RequestKeepsInv(Sync(), now, workspace, loaded);
      WithdrawnIsGone(Wire(), k, topic, id);
      HandleWithdrawal(k, topic, id, now, workspace, loaded);
    }

    method HandleWithdrawal(k: nat, topic: Topic, id: string, now: int, workspace: bool, loaded: nat)
      requires k < |sockets|
      modifies this`sockets, this`desiredChannels, this`desiredRooms, this`resyncInFlight, this`lastResyncAt, this`tasks
      ensures Wire() == DoWithdraw(old(Wire()), k, topic, id)
      ensures Sync() == if topic.Channel? && old(Heeds(Wire(), k)) then DoRequest(old(Sync()), now, workspace, loaded)
                        else old(Sync())
    {
      var heeded := DropDesire(k, topic, id);
      if heeded && topic.Channel? {
        RequestResync(now, workspace, loaded);
      }
    }

    method DropDesire(k: nat, topic: Topic, id: string) returns (heeded: bool)
      requires k < |sockets|
      modifies this`sockets, this`desiredChannels, this`desiredRooms
      ensures Wire() == DoWithdraw(old(Wire()), k, topic, id) && Sync() == old(Sync())
      ensures heeded == old(Heeds(Wire(), k))
    {
      heeded := sockets[k].attached && sockets[k].generation == lifecycleGeneration && ws == Some(k);
      if !heeded {
        return;
      }
      if topic.Channel? {
        desiredChannels := Without(desiredChannels, id);
      } else {
        desiredRooms := Without(desiredRooms, id);
      }
      sockets := sockets[k := sockets[k].(history := sockets[k].history + [Revoked(topic, id)])];
    }

    // -------------------------------------------------------------------------
    // Sequence numbers and resync
    // -------------------------------------------------------------------------

    /** trackSeq for one heeded frame: a jump is announced to every desired room and answered with a resync. */
    method FrameArrived(number: Option<int>, now: int, workspace: bool, loaded: nat)
      requires Valid()
      modifies this`lastSeq, this`announced, this`frames, this`resyncInFlight, this`lastResyncAt, this`tasks
      ensures Valid() && Wire() == old(Wire()) && frames == old(frames) + [Frame(number, desiredRooms)]
      ensures forall n :: Received(frames, n) ==> n <= lastSeq
      ensures Sync() == if |announced| > old(|announced|) then DoRequest(old(Sync()), now, workspace, loaded)
                        else old(Sync())
    {
      RequestKeepsInv(Sync(), now, workspace, loaded);
      var jumped := TrackNumber(number);
      LastSeqIsTheMaximum(frames);
      if jumped {
        RequestResync(now, workspace, loaded);
      }
    }

    method TrackNumber(number: Option<int>) returns (jumped: bool)
      requires TracksFrames()
      modifies this`lastSeq, this`announced, this`frames
      ensures TracksFrames() && frames == old(frames) + [Frame(number, desiredRooms)]
      ensures jumped <==> |announced| > old(|announced|)
    {
      ghost var frame := Frame(number, desiredRooms);
      assert (frames + [frame])[..|frames|] == frames;
      frames := frames + [frame];
      if number.None? || number.value <= 0 {
        return false;
      }
      if lastSeq != 0 && number.value > lastSeq + 1 {
        announced := announced + [Gap(lastSeq, number.value, desiredRooms)];
        lastSeq := number.value;
        return true;
      }
      if number.value > lastSeq {
        lastSeq := number.value;
      }
      return false;
    }

    /** resync up to its first await. */
    method RequestResync(now: int, workspace: bool, loaded: nat)
      modifies this`resyncInFlight, this`lastResyncAt, this`tasks
      ensures Sync() == DoRequest(old(Sync()), now, workspace, loaded) && Wire() == old(Wire())
    {
      if resyncInFlight || now - lastResyncAt < RESYNC_COOLDOWN_MS {
        return;
      }
      resyncInFlight := true;
      lastResyncAt := now;
      tasks := tasks + [Task(lifecycleGeneration, now, if workspace then ListingChannels else LoadingMessages(loaded))];
    }

    /** A reply of a resync: whatever it is, a resync of an earlier generation does nothing with it. */
    method ReplyArrived(e: SyncEvent)
      requires Valid() && SyncEnabled(Sync(), e) && !e.Request? && !e.Teardown?
      modifies this`tasks, this`deeds, this`resyncInFlight
      ensures Valid() && Wire() == old(Wire()) && Sync() == SyncStep(old(Sync()), e)
      ensures old(tasks[e.task].generation) != lifecycleGeneration ==> deeds == old(deeds) && resyncInFlight == old(resyncInFlight)
    {
      SyncStepKeepsInv(Sync(), e);
      if tasks[e.task].generation != lifecycleGeneration {
        StaleReplyDoesNothing(Sync(), e);
      }
      HandleReply(e);
    }

    method HandleReply(e: SyncEvent)
      requires SyncEnabled(Sync(), e) && !e.Request? && !e.Teardown?
      modifies this`tasks, this`deeds, this`resyncInFlight
      ensures Sync() == SyncStep(old(Sync()), e)
    {
      match e {
        case ChannelsListed(t, ok, loaded) => ChannelListArrived(t, ok, loaded);
        case MessagesListed(t, ok) => MessagePageArrived(t, ok);
        case MessagesDone(t) => MessagesLoaded(t);
        case UnreadCounted(t, ok) => UnreadCountArrived(t, ok);
      }
    }

    method ChannelListArrived(t: nat, ok: bool, loaded: nat)
      requires SyncEnabled(Sync(), ChannelsListed(t, ok, loaded))
      modifies this`tasks, this`deeds
      ensures Sync() == SyncStep(old(Sync()), ChannelsListed(t, ok, loaded))
    {
      if tasks[t].generation != lifecycleGeneration {
        tasks := tasks[t := tasks[t].(phase := Over)];
        return;
      }
      if ok {
        deeds := deeds + [WroteStore(t, tasks[t].generation, lifecycleGeneration)];
      }
      tasks := tasks[t := tasks[t].(phase := LoadingMessages(loaded))];
    }

    method MessagePageArrived(t: nat, ok: bool)
      requires SyncEnabled(Sync(), MessagesListed(t, ok))
      modifies this`tasks, this`deeds
      ensures Sync() == SyncStep(old(Sync()), MessagesListed(t, ok))
    {
      if ok && tasks[t].generation == lifecycleGeneration {
        deeds := deeds + [WroteStore(t, tasks[t].generation, lifecycleGeneration)];
      }
      tasks := tasks[t := tasks[t].(phase := LoadingMessages(tasks[t].phase.outstanding - 1))];
    }

    method MessagesLoaded(t: nat)
      requires SyncEnabled(Sync(), MessagesDone(t))
      modifies this`tasks
      ensures Sync() == SyncStep(old(Sync()), MessagesDone(t))
    {
      var next := if tasks[t].generation != lifecycleGeneration then Over else CountingUnread;
      tasks := tasks[t := tasks[t].(phase := next)];
    }

    /** The last reply; the `finally` block clears the flag only in the generation that set it. */
    method UnreadCountArrived(t: nat, ok: bool)
      requires SyncEnabled(Sync(), UnreadCounted(t, ok))
      modifies this`tasks, this`deeds, this`resyncInFlight
      ensures Sync() == SyncStep(old(Sync()), UnreadCounted(t, ok))
    {
      var generation := tasks[t].generation;
      tasks := tasks[t := tasks[t].(phase := Over)];
      if generation != lifecycleGeneration {
        return;
      }
      if ok {
        deeds := deeds + [WroteStore(t, generation, lifecycleGeneration)];
      }
      deeds := deeds + [ClearedFlag(t, generation, lifecycleGeneration)];
      resyncInFlight := false;
      deeds := deeds + [Notified(t, generation, lifecycleGeneration)];
    }
  }
}
