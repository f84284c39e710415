/**
 * The connection half of the realtime manager: sockets, the reconnect timer,
 * and the channels and rooms the application wants. Socket callbacks, timer
 * callbacks and application calls are the atomic steps.
 */
module SocketLink {
  import opened Prelude

  const INITIAL_RECONNECT_DELAY_MS := 1000
  const MAX_RECONNECT_DELAY_MS := 30_000

  datatype Ready = Connecting | Open | Closing | Closed

  /** Channel subscriptions and collaboration rooms are kept the same way. */
  datatype Topic = Channel | Room

  /** What a socket carried about membership: commands sent, withdrawals received. */
  datatype Command = Add(topic: Topic, id: string) | Remove(topic: Topic, id: string) | Revoked(topic: Topic, id: string)

  datatype Socket = Socket(
    ready: Ready,
    generation: nat,         // lifecycle generation captured by its handlers
    attached: bool,          // handlers not nulled by reset
    history: seq<Command>)   // history

  datatype TimerState = Pending | Cleared | Fired
  datatype Timer = Timer(generation: nat, state: TimerState, delay: nat)

  datatype Link = Link(
    sockets: seq<Socket>,    // every socket ever opened
    ws: Option<nat>,
    generation: nat,
    timers: seq<Timer>,      // every reconnect timer ever set
    reconnectTimer: Option<nat>,
    reconnectDelay: nat,
    connected: bool,
    intentionalClose: bool,
    everConnected: bool,
    channels: seq<string>,   // desiredChannels, in insertion order
    rooms: seq<string>,      // desiredRooms, in insertion order
    token: bool)             // whether the auth store holds an access token

  /** Sends carry a budget: how many more `socket.send` calls of this step succeed before one throws. */
  datatype LinkEvent =
    | Connect
    | Disconnect
    | ResetAll
    | SocketOpens(socket: nat, budget: nat)
    | SocketErrs(socket: nat)
    | SocketCloses(socket: nat)
    | TimerFires(timer: nat)
    | TokenChanges(token: bool)
    | Want(topic: Topic, id: string, budget: nat)     // subscribe, joinRoom
    | Unwant(topic: Topic, id: string, budget: nat)   // unsubscribe, leaveRoom
    | SetSubscriptions(ids: seq<string>, budget: nat)
    | Withdrawn(socket: nat, topic: Topic, id: string)  // an `unsubscribed` or `collab.left` frame, reason revoked

  // ---------------------------------------------------------------------------
  // Sending
  // ---------------------------------------------------------------------------

  predicate IsOpen(l: Link) {
    l.ws.Some? && l.ws.value < |l.sockets| && l.sockets[l.ws.value].ready.Open?
  }

  function SetReady(l: Link, k: nat, ready: Ready): Link
    requires k < |l.sockets|
  {
    l.(sockets := l.sockets[k := l.sockets[k].(ready := ready)])
  }

  function Record(l: Link, k: nat, c: Command): Link
    requires k < |l.sockets|
  {
    l.(sockets := l.sockets[k := l.sockets[k].(history := l.sockets[k].history + [c])])
  }

  /** `close()` takes effect on the ready state at once. */
  function CloseSocket(l: Link, k: nat): Link
    requires k < |l.sockets|
  {
    if l.sockets[k].ready.Closed? then l else SetReady(l, k, Closing)
  }

  /** send: nothing unless the current socket is open; a throwing send closes it. */
  function Send(l: Link, c: Command, budget: nat): (Link, nat) {
    if !IsOpen(l) then (l, budget)
    else if budget == 0 then (CloseSocket(l, l.ws.value), 0)
    else (Record(l, l.ws.value, c), budget - 1)
  }

  function SendAll(l: Link, cs: seq<Command>, budget: nat): (Link, nat)
    decreases |cs|
  {
    if cs == [] then (l, budget)
    else var (next, left) := Send(l, cs[0], budget); SendAll(next, cs[1..], left)
  }

  function Desired(l: Link, topic: Topic): seq<string> {
    if topic.Channel? then l.channels else l.rooms
  }

  function WithDesired(l: Link, topic: Topic, ids: seq<string>): Link {
    if topic.Channel? then l.(channels := ids) else l.(rooms := ids)
  }

  function Without(ids: seq<string>, id: string): seq<string> {
    if ids == [] then []
    else if ids[0] == id then Without(ids[1..], id)
    else [ids[0]] + Without(ids[1..], id)
  }

  /** subscribe and joinRoom. */
  function Enlist(l: Link, topic: Topic, id: string, budget: nat): (Link, nat) {
    if id in Desired(l, topic) then (l, budget)
    else Send(WithDesired(l, topic, Desired(l, topic) + [id]), Add(topic, id), budget)
  }

  /** unsubscribe and leaveRoom. */
  function Delist(l: Link, topic: Topic, id: string, budget: nat): (Link, nat) {
    if id !in Desired(l, topic) then (l, budget)
    else Send(WithDesired(l, topic, Without(Desired(l, topic), id)), Remove(topic, id), budget)
  }

  function DelistMissing(l: Link, ids: seq<string>, next: seq<string>, budget: nat): (Link, nat)
    decreases |ids|
  {
    if ids == [] then (l, budget)
    else if ids[0] in next then DelistMissing(l, ids[1..], next, budget)
    else var (l', left) := Delist(l, Channel, ids[0], budget); DelistMissing(l', ids[1..], next, left)
  }

  function EnlistAll(l: Link, ids: seq<string>, budget: nat): (Link, nat)
    decreases |ids|
  {
    if ids == [] then (l, budget)
    else var (l', left) := Enlist(l, Channel, ids[0], budget); EnlistAll(l', ids[1..], left)
  }

  /** setSubscriptions: only the difference is sent. */
  function Subscriptions(l: Link, ids: seq<string>, budget: nat): (Link, nat) {
    var (l', left) := DelistMissing(l, l.channels, ids, budget);
    EnlistAll(l', ids, left)
  }

  // ---------------------------------------------------------------------------
  // Lifecycle
  // ---------------------------------------------------------------------------

  function ClearTimer(l: Link): Link {
    if l.reconnectTimer.Some? && l.reconnectTimer.value < |l.timers| then
      var t := l.reconnectTimer.value;
      l.(timers := l.timers[t := l.timers[t].(state := Cleared)], reconnectTimer := None)
    else l.(reconnectTimer := None)
  }

  predicate InUse(l: Link) {
    && l.ws.Some? && l.ws.value < |l.sockets|
    && (l.sockets[l.ws.value].ready.Open? || l.sockets[l.ws.value].ready.Connecting?)
  }

  function DoConnect(l: Link): Link {
    if !l.token || InUse(l) then l
    else
      var cleared := ClearTimer(l.(intentionalClose := false));
      cleared.(sockets := l.sockets + [Socket(Connecting, l.generation, true, [])], ws := Some(|l.sockets|))
  }

  function CloseCurrent(l: Link): Link {
    if l.ws.Some? && l.ws.value < |l.sockets| then CloseSocket(l, l.ws.value) else l
  }

  /** The clean slate a deliberate teardown leaves. */
  function Forget(l: Link): Link {
    l.(ws := None, channels := [], rooms := [], everConnected := false,
       reconnectDelay := INITIAL_RECONNECT_DELAY_MS, connected := false)
  }

  function DoDisconnect(l: Link): Link {
    Forget(CloseCurrent(ClearTimer(l.(intentionalClose := true))))
  }

  /** reset() nulls the current socket's handlers before it closes it. */
  function Detach(l: Link): Link {
    var next := l.(generation := l.generation + 1);
    if l.ws.Some? && l.ws.value < |l.sockets|
    then next.(sockets := l.sockets[l.ws.value := l.sockets[l.ws.value].(attached := false)]) else next
  }

  function DoReset(l: Link): Link {
    DoDisconnect(Detach(l))
  }

  function ScheduleReconnect(l: Link): Link {
    if l.reconnectTimer.Some? || l.intentionalClose || !l.token then l
    else l.(timers := l.timers + [Timer(l.generation, Pending, l.reconnectDelay)], reconnectTimer := Some(|l.timers|))
  }

  function Double(delay: nat): nat {
    if delay * 2 < MAX_RECONNECT_DELAY_MS then delay * 2 else MAX_RECONNECT_DELAY_MS
  }

  function DoFire(l: Link, t: nat): Link
    requires t < |l.timers|
  {
    var fired := l.(timers := l.timers[t := l.timers[t].(state := Fired)]);
    if l.timers[t].generation != l.generation then fired
    else DoConnect(fired.(reconnectTimer := None, reconnectDelay := Double(l.reconnectDelay)))
  }

  /** The guard at the head of every socket handler. */
  predicate Heeds(l: Link, k: nat) {
    k < |l.sockets| && l.sockets[k].attached && l.sockets[k].generation == l.generation && l.ws == Some(k)
  }

  function Adds(topic: Topic, ids: seq<string>): seq<Command> {
    if ids == [] then [] else [Add(topic, ids[0])] + Adds(topic, ids[1..])
  }

  /** Subscriptions and rooms are per connection: every one of them is sent again. */
  function Reassert(l: Link, budget: nat): Link {
    var ready := l.(reconnectDelay := INITIAL_RECONNECT_DELAY_MS, connected := true);
    SendAll(ready, Adds(Channel, l.channels) + Adds(Room, l.rooms), budget).0
  }

  function DoOpen(l: Link, k: nat, budget: nat): Link
    requires k < |l.sockets|
  {
    if !Heeds(l, k) then SetReady(l, k, Open)
    else Reassert(SetReady(l, k, Open), budget).(everConnected := true)
  }

  function DoClose(l: Link, k: nat): Link
    requires k < |l.sockets|
  {
    var closed := SetReady(l, k, Closed);
    if !Heeds(l, k) then closed
    else if l.intentionalClose then closed.(connected := false, ws := None)
    else ScheduleReconnect(closed.(connected := false))
  }

  function DoWithdraw(l: Link, k: nat, topic: Topic, id: string): Link
    requires k < |l.sockets|
  {
    if !Heeds(l, k) then l
    else Record(WithDesired(l, topic, Without(Desired(l, topic), id)), k, Revoked(topic, id))
  }

  predicate LinkEnabled(l: Link, e: LinkEvent) {
    match e
    case SocketOpens(k, _) => k < |l.sockets| && l.sockets[k].ready.Connecting?
    case SocketErrs(k) => k < |l.sockets| && !l.sockets[k].ready.Closed?
    case SocketCloses(k) => k < |l.sockets| && !l.sockets[k].ready.Closed?
    case TimerFires(t) => t < |l.timers| && l.timers[t].state.Pending?
    case Withdrawn(k, _, _) => k < |l.sockets| && (l.sockets[k].ready.Open? || l.sockets[k].ready.Closing?)
    case _ => true
  }

  function LinkStep(l: Link, e: LinkEvent): Link
    requires LinkEnabled(l, e)
  {
    match e
    case Connect => DoConnect(l)
    case Disconnect => DoDisconnect(l)
    case ResetAll => DoReset(l)
    case SocketOpens(k, budget) => DoOpen(l, k, budget)
    case SocketErrs(k) => if Heeds(l, k) then CloseSocket(l, k) else l
    case SocketCloses(k) => DoClose(l, k)
    case TimerFires(t) => DoFire(l, t)
    case TokenChanges(token) => l.(token := token)
    case Want(topic, id, budget) => Enlist(l, topic, id, budget).0
    case Unwant(topic, id, budget) => Delist(l, topic, id, budget).0
    case SetSubscriptions(ids, budget) => Subscriptions(l, ids, budget).0
    case Withdrawn(k, topic, id) => DoWithdraw(l, k, topic, id)
  }

  // ---------------------------------------------------------------------------
  // What the server should believe
  // ---------------------------------------------------------------------------

  /** The membership a peer holds after replaying one connection's commands and withdrawals. */
  function Replay(history: seq<Command>, topic: Topic): set<string>
    decreases |history|
  {
    if history == [] then {}
    else
      var before := Replay(history[..|history| - 1], topic);
      var c := history[|history| - 1];
      if c.topic != topic then before else if c.Add? then before + {c.id} else before - {c.id}
  }

  function Members(ids: seq<string>): set<string> {
    set i | 0 <= i < |ids| :: ids[i]
  }

  predicate InStep(l: Link) {
    IsOpen(l) ==>
      && Replay(l.sockets[l.ws.value].history, Channel) == Members(l.channels)
      && Replay(l.sockets[l.ws.value].history, Room) == Members(l.rooms)
  }

  predicate SocketsInv(l: Link) {
    && (l.ws.Some? ==>
          && l.ws.value < |l.sockets|
          && l.sockets[l.ws.value].generation == l.generation
          && l.sockets[l.ws.value].attached
          && (l.sockets[l.ws.value].ready.Connecting? ==> l.sockets[l.ws.value].history == []))
    && (forall k :: 0 <= k < |l.sockets| && l.ws != Some(k) ==>
          l.sockets[k].ready.Closing? || l.sockets[k].ready.Closed?)
    && (l.intentionalClose ==> l.ws.None?)
  }

  predicate TimersInv(l: Link) {
    && (l.reconnectTimer.Some? ==>
          && l.reconnectTimer.value < |l.timers|
          && l.timers[l.reconnectTimer.value].generation == l.generation && l.timers[l.reconnectTimer.value].state.Pending?
          && !l.intentionalClose)
    && (forall t :: 0 <= t < |l.timers| && l.timers[t].state.Pending? ==> l.reconnectTimer == Some(t))
    && INITIAL_RECONNECT_DELAY_MS <= l.reconnectDelay <= MAX_RECONNECT_DELAY_MS
  }

  predicate LinkInv(l: Link) {
    SocketsInv(l) && TimersInv(l) && InStep(l)
  }

  // ---------------------------------------------------------------------------
  // Membership
  // ---------------------------------------------------------------------------

  lemma MembersSnoc(ids: seq<string>, id: string)
    ensures Members(ids + [id]) == Members(ids) + {id}
  {
    var longer := ids + [id];
    forall x | x in Members(ids) + {id} ensures x in Members(longer) {
      if x == id {
        assert longer[|ids|] == x;
      } else {
        var i :| 0 <= i < |ids| && ids[i] == x;
        assert longer[i] == x;
      }
    }
  }

  lemma {:induction false} MembersWithout(ids: seq<string>, id: string)
    ensures Members(Without(ids, id)) == Members(ids) - {id}
  {
    if ids != [] {
      MembersWithout(ids[1..], id);
      MembersCons(ids);
      if ids[0] != id {
        MembersCons(Without(ids, id));
        assert Without(ids, id)[1..] == Without(ids[1..], id);
      }
    }
  }

  lemma MembersCons(ids: seq<string>)
    requires ids != []
    ensures Members(ids) == {ids[0]} + Members(ids[1..])
  {
    forall x | x in Members(ids) ensures x in {ids[0]} + Members(ids[1..]) {
      var i :| 0 <= i < |ids| && ids[i] == x;
      assert i > 0 ==> ids[1..][i - 1] == x;
    }
    forall x | x in Members(ids[1..]) ensures x in Members(ids) {
      var i :| 0 <= i < |ids[1..]| && ids[1..][i] == x;
      assert ids[i + 1] == x;
    }
  }

  lemma ReplaySnoc(history: seq<Command>, c: Command, topic: Topic)
    ensures Replay(history + [c], topic) ==
            if c.topic != topic then Replay(history, topic)
            else if c.Add? then Replay(history, topic) + {c.id}
            else Replay(history, topic) - {c.id}
  {
    assert (history + [c])[..|history|] == history;
  }

  lemma {:induction false} ReplayAdds(history: seq<Command>, topic: Topic, ids: seq<string>, of: Topic)
    ensures Replay(history + Adds(topic, ids), of) ==
            if of == topic then Replay(history, of) + Members(ids) else Replay(history, of)
    decreases |ids|
  {
    if ids == [] {
      assert history + Adds(topic, ids) == history;
    } else {
      var c := Add(topic, ids[0]);
      assert history + Adds(topic, ids) == (history + [c]) + Adds(topic, ids[1..]);
      ReplayAdds(history + [c], topic, ids[1..], of);
      ReplaySnoc(history, c, of);
      MembersCons(ids);
    }
  }

  /** Opening a connection replays the whole desire. */
  lemma ReplayOfAnOpening(channels: seq<string>, rooms: seq<string>)
    ensures Replay(Adds(Channel, channels) + Adds(Room, rooms), Channel) == Members(channels)
    ensures Replay(Adds(Channel, channels) + Adds(Room, rooms), Room) == Members(rooms)
  {
    ReplayAdds([], Channel, channels, Channel);
    ReplayAdds([], Channel, channels, Room);
    ReplayAdds([] + Adds(Channel, channels), Room, rooms, Channel);
    ReplayAdds([] + Adds(Channel, channels), Room, rooms, Room);
    assert [] + Adds(Channel, channels) == Adds(Channel, channels);
  }

  // ---------------------------------------------------------------------------
  // Preservation
  // ---------------------------------------------------------------------------

  /** A send touches nothing but the current socket, and while that stays open the command is on record. */
  predicate Sent(l: Link, next: Link, cs: seq<Command>) {
    && next == l.(sockets := next.sockets)
    && |next.sockets| == |l.sockets|
    && (forall k :: 0 <= k < |l.sockets| && l.ws != Some(k) ==> next.sockets[k] == l.sockets[k])
    && (l.ws.Some? && l.ws.value < |l.sockets| ==>
          var was, now := l.sockets[l.ws.value], next.sockets[l.ws.value];
          && now.generation == was.generation && now.attached == was.attached
          && (now.ready == was.ready || (was.ready.Open? && now.ready.Closing?))
          && (now.ready.Open? ==> now.history == was.history + cs)
          && (!was.ready.Open? ==> now == was))
  }

  lemma SendSends(l: Link, c: Command, budget: nat)
    ensures Sent(l, Send(l, c, budget).0, [c])
  {
  }

  lemma {:induction false} SendAllSends(l: Link, cs: seq<Command>, budget: nat)
    ensures Sent(l, SendAll(l, cs, budget).0, cs)
    decreases |cs|
  {
    if cs != [] {
      var (next, left) := Send(l, cs[0], budget);
      SendSends(l, cs[0], budget);
      SendAllSends(next, cs[1..], left);
      if l.ws.Some? && l.ws.value < |l.sockets| {
        var was := l.sockets[l.ws.value];
        assert (was.history + [cs[0]]) + cs[1..] == was.history + cs;
      }
    }
  }

  lemma SentKeepsSockets(l: Link, next: Link, cs: seq<Command>)
    requires Sent(l, next, cs) && SocketsInv(l) && TimersInv(l)
    ensures SocketsInv(next) && TimersInv(next)
  {
  }

  /** Changing one desired set and sending the matching command keeps the peer in step. */
  lemma EnlistKeepsInv(l: Link, topic: Topic, id: string, budget: nat)
    requires LinkInv(l)
    ensures LinkInv(Enlist(l, topic, id, budget).0)
    ensures Enlist(l, topic, id, budget).0.generation == l.generation
  {
    if id !in Desired(l, topic) {
      var wanting := WithDesired(l, topic, Desired(l, topic) + [id]);
      var next := Send(wanting, Add(topic, id), budget).0;
      SendSends(wanting, Add(topic, id), budget);
      SentKeepsSockets(wanting, next, [Add(topic, id)]);
      MembersSnoc(Desired(l, topic), id);
      if IsOpen(next) {
        ReplaySnoc(l.sockets[l.ws.value].history, Add(topic, id), Channel);
        ReplaySnoc(l.sockets[l.ws.value].history, Add(topic, id), Room);
      }
    }
  }

  lemma DelistKeepsInv(l: Link, topic: Topic, id: string, budget: nat)
    requires LinkInv(l)
    ensures LinkInv(Delist(l, topic, id, budget).0)
  {
    if id in Desired(l, topic) {
      var fewer := WithDesired(l, topic, Without(Desired(l, topic), id));
      var next := Send(fewer, Remove(topic, id), budget).0;
      SendSends(fewer, Remove(topic, id), budget);
      SentKeepsSockets(fewer, next, [Remove(topic, id)]);
      MembersWithout(Desired(l, topic), id);
      if IsOpen(next) {
        ReplaySnoc(l.sockets[l.ws.value].history, Remove(topic, id), Channel);
        ReplaySnoc(l.sockets[l.ws.value].history, Remove(topic, id), Room);
      }
    }
  }

  lemma {:induction false} DelistMissingKeepsInv(l: Link, ids: seq<string>, next: seq<string>, budget: nat)
    requires LinkInv(l)
    ensures LinkInv(DelistMissing(l, ids, next, budget).0)
    decreases |ids|
  {
    if ids != [] {
      if ids[0] in next {
        DelistMissingKeepsInv(l, ids[1..], next, budget);
      } else {
        DelistKeepsInv(l, Channel, ids[0], budget);
        var (l', left) := Delist(l, Channel, ids[0], budget);
        DelistMissingKeepsInv(l', ids[1..], next, left);
      }
    }
  }

  lemma {:induction false} EnlistAllKeepsInv(l: Link, ids: seq<string>, budget: nat)
    requires LinkInv(l)
    ensures LinkInv(EnlistAll(l, ids, budget).0)
    decreases |ids|
  {
    if ids != [] {
      EnlistKeepsInv(l, Channel, ids[0], budget);
      var (l', left) := Enlist(l, Channel, ids[0], budget);
      EnlistAllKeepsInv(l', ids[1..], left);
    }
  }

  lemma OpenKeepsInv(l: Link, k: nat, budget: nat)
    requires LinkInv(l) && LinkEnabled(l, SocketOpens(k, budget))
    ensures LinkInv(DoOpen(l, k, budget))
  {
    assert l.ws == Some(k);
    var ready := SetReady(l, k, Open).(reconnectDelay := INITIAL_RECONNECT_DELAY_MS, connected := true);
    var cs := Adds(Channel, l.channels) + Adds(Room, l.rooms);
    SendAllSends(ready, cs, budget);
    SentKeepsSockets(ready, SendAll(ready, cs, budget).0, cs);
    ReplayOfAnOpening(l.channels, l.rooms);
    assert [] + cs == cs;
  }

  lemma WithdrawKeepsInv(l: Link, k: nat, topic: Topic, id: string)
    requires LinkInv(l) && LinkEnabled(l, Withdrawn(k, topic, id))
    ensures LinkInv(DoWithdraw(l, k, topic, id))
  {
    MembersWithout(Desired(l, topic), id);
    ReplaySnoc(l.sockets[k].history, Revoked(topic, id), Channel);
    ReplaySnoc(l.sockets[k].history, Revoked(topic, id), Room);
  }

  lemma ConnectKeepsInv(l: Link)
    requires LinkInv(l)
    ensures LinkInv(DoConnect(l))
  {
  }

  /** What a teardown relies on; the handlers may already have been detached. */
  predicate Manageable(l: Link) {
    && (l.ws.Some? ==> l.ws.value < |l.sockets|)
    && (forall k :: 0 <= k < |l.sockets| && l.ws != Some(k) ==>
          l.sockets[k].ready.Closing? || l.sockets[k].ready.Closed?)
    && (forall t :: 0 <= t < |l.timers| && l.timers[t].state.Pending? ==> l.reconnectTimer == Some(t))
  }

  lemma ClearTimerClears(l: Link)
    requires forall t :: 0 <= t < |l.timers| && l.timers[t].state.Pending? ==> l.reconnectTimer == Some(t)
    ensures ClearTimer(l) == l.(timers := ClearTimer(l).timers, reconnectTimer := None)
    ensures forall t :: 0 <= t < |ClearTimer(l).timers| ==> !ClearTimer(l).timers[t].state.Pending?
  {
  }

  lemma TeardownIsQuiet(l: Link)
    requires Manageable(l)
    ensures LinkInv(DoDisconnect(l)) && Quiet(DoDisconnect(l)) && |DoDisconnect(l).sockets| == |l.sockets|
  {
    ClearTimerClears(l.(intentionalClose := true));
    var torn := DoDisconnect(l);
    assert forall k :: 0 <= k < |torn.sockets| ==> torn.sockets[k].ready.Closing? || torn.sockets[k].ready.Closed?;
  }

  lemma DisconnectKeepsInv(l: Link)
    requires LinkInv(l)
    ensures LinkInv(DoDisconnect(l)) && Quiet(DoDisconnect(l)) && |DoDisconnect(l).sockets| == |l.sockets|
  {
    TeardownIsQuiet(l);
  }

  lemma DetachedIsManageable(l: Link)
    requires LinkInv(l)
    ensures Manageable(Detach(l)) && |Detach(l).sockets| == |l.sockets|
  {
  }

  lemma ResetKeepsInv(l: Link)
    requires LinkInv(l)
    ensures LinkInv(DoReset(l)) && Quiet(DoReset(l)) && |DoReset(l).sockets| == |l.sockets|
  {
    DetachedIsManageable(l);
    TeardownIsQuiet(Detach(l));
  }

  lemma FireKeepsInv(l: Link, t: nat)
    requires LinkInv(l) && LinkEnabled(l, TimerFires(t))
    ensures LinkInv(DoFire(l, t))
  {
    var fired := l.(timers := l.timers[t := l.timers[t].(state := Fired)]);
    ConnectKeepsInv(fired.(reconnectTimer := None, reconnectDelay := Double(l.reconnectDelay)));
  }

  lemma CloseKeepsInv(l: Link, k: nat)
    requires LinkInv(l) && k < |l.sockets|
    ensures LinkInv(DoClose(l, k))
  {
  }

  /**
   * A close nobody asked for leaves a timer as long as there is a token, set to the current delay if it is new, and
   * none without a token; any other socket's close is its own affair.
   */
  lemma CloseOutcome(l: Link, k: nat)
    requires LinkInv(l) && k < |l.sockets|
    ensures var m := DoClose(l, k);
            && (l.ws == Some(k) ==> !m.connected && m.ws == Some(k) && m.sockets[k].ready.Closed?)
            && (l.ws == Some(k) && l.token ==> m.reconnectTimer.Some?)
            && (l.ws == Some(k) && l.token && l.reconnectTimer.None? ==>
                  m.timers == l.timers + [Timer(l.generation, Pending, l.reconnectDelay)])
            && (l.ws == Some(k) && !l.token ==> m.timers == l.timers && m.reconnectTimer == l.reconnectTimer)
            && (l.ws != Some(k) ==> m == SetReady(l, k, Closed))
  {
  }

  /** An error on the current socket closes it, whatever it was doing. */
  lemma ErrOutcome(l: Link, k: nat)
    requires LinkInv(l) && LinkEnabled(l, SocketErrs(k)) && l.ws == Some(k)
    ensures var m := LinkStep(l, SocketErrs(k));
            m == l.(sockets := m.sockets) && k < |m.sockets| && m.sockets[k] == l.sockets[k].(ready := Closing)
  {
  }

  lemma WithdrawnIsGone(l: Link, k: nat, topic: Topic, id: string)
    requires LinkInv(l) && k < |l.sockets|
    ensures l.ws == Some(k) ==> id !in Desired(DoWithdraw(l, k, topic, id), topic)
  {
    InWithout(Desired(l, topic), id);
  }

  lemma SetSubscriptionsKeepsInv(l: Link, ids: seq<string>, budget: nat)
    requires LinkInv(l)
    ensures LinkInv(Subscriptions(l, ids, budget).0)
  {
    DelistMissingKeepsInv(l, l.channels, ids, budget);
    var (l', left) := DelistMissing(l, l.channels, ids, budget);
    EnlistAllKeepsInv(l', ids, left);
  }

  lemma LinkStepKeepsInv(l: Link, e: LinkEvent)
    requires LinkInv(l) && LinkEnabled(l, e)
    ensures LinkInv(LinkStep(l, e))
  {
    match e
    case Connect => ConnectKeepsInv(l);
    case Disconnect => DisconnectKeepsInv(l);
    case ResetAll => ResetKeepsInv(l);
    case SocketOpens(k, budget) => OpenKeepsInv(l, k, budget);
    case SocketErrs(_) => ErrKeepsInv(l);
    case SocketCloses(k) => CloseKeepsInv(l, k);
    case TimerFires(t) => FireKeepsInv(l, t);
    case TokenChanges(token) => TokenKeepsInv(l, token);
    case Want(topic, id, budget) => EnlistKeepsInv(l, topic, id, budget);
    case Unwant(topic, id, budget) => DelistKeepsInv(l, topic, id, budget);
    case SetSubscriptions(ids, budget) => SetSubscriptionsKeepsInv(l, ids, budget);
    case Withdrawn(k, topic, id) => WithdrawKeepsInv(l, k, topic, id);
  }

  lemma ErrKeepsInv(l: Link)
    requires LinkInv(l)
    ensures l.ws.Some? ==> LinkInv(CloseSocket(l, l.ws.value))
  {
  }

  lemma TokenKeepsInv(l: Link, token: bool)
    requires LinkInv(l)
    ensures LinkInv(l.(token := token))
  {
  }

  // ---------------------------------------------------------------------------
  // Every run
  // ---------------------------------------------------------------------------

  predicate Fresh(l: Link) {
    l == Link([], None, 0, [], None, INITIAL_RECONNECT_DELAY_MS, false, false, false, [], [], l.token)
  }

  predicate LinkRuns(l: Link, events: seq<LinkEvent>, m: Link)
    decreases |events|
  {
    if events == [] then l == m
    else LinkEnabled(l, events[0]) && LinkRuns(LinkStep(l, events[0]), events[1..], m)
  }

  ghost predicate LinkReachable(m: Link) {
    exists l, events :: Fresh(l) && LinkRuns(l, events, m)
  }

  lemma {:induction false} LinkRunKeepsInv(l: Link, events: seq<LinkEvent>, m: Link)
    requires LinkInv(l) && LinkRuns(l, events, m)
    ensures LinkInv(m)
    decreases |events|
  {
    if events != [] {
      LinkStepKeepsInv(l, events[0]);
      LinkRunKeepsInv(LinkStep(l, events[0]), events[1..], m);
    }
  }

  lemma LinkReachableInv(m: Link)
    requires LinkReachable(m)
    ensures LinkInv(m)
  {
    var l, events :| Fresh(l) && LinkRuns(l, events, m);
    LinkRunKeepsInv(l, events, m);
  }

  /** While the current socket is open, its peer has been told exactly what the application desires. */
  lemma OpenSocketMirrorsDesire(l: Link)
    requires LinkReachable(l) && IsOpen(l)
    ensures Replay(l.sockets[l.ws.value].history, Channel) == Members(l.channels)
    ensures Replay(l.sockets[l.ws.value].history, Room) == Members(l.rooms)
  {
    LinkReachableInv(l);
  }

  /** Every socket but the current one is on its way out, and nothing it still reports has any effect. */
  lemma StaleSocketsAreInert(l: Link, e: LinkEvent, k: nat)
    requires LinkReachable(l) && LinkEnabled(l, e) && k < |l.sockets| && l.ws != Some(k)
    requires e.SocketOpens? || e.SocketErrs? || e.SocketCloses? || e.Withdrawn?
    requires e.socket == k
    ensures l.sockets[k].ready.Closing? || l.sockets[k].ready.Closed?
    ensures LinkStep(l, e) == if e.SocketCloses? then SetReady(l, k, Closed) else l
  {
    LinkReachableInv(l);
  }

  /** At most one reconnect is ever pending, and only after a close nobody asked for. */
  lemma PendingTimerMeansUnintentional(l: Link, t: nat)
    requires LinkReachable(l) && t < |l.timers| && l.timers[t].state.Pending?
    ensures l.reconnectTimer == Some(t) && !l.intentionalClose && l.timers[t].generation == l.generation
    ensures INITIAL_RECONNECT_DELAY_MS <= l.reconnectDelay <= MAX_RECONNECT_DELAY_MS
  {
    LinkReachableInv(l);
  }

  /** No current socket and no way for one to appear by itself. */
  predicate Quiet(l: Link) {
    l.ws.None? && l.reconnectTimer.None?
  }

  lemma SendNeedsASocket(l: Link, e: LinkEvent)
    requires l.ws.None? && (e.Want? || e.Unwant? || e.SetSubscriptions?)
    ensures LinkStep(l, e).sockets == l.sockets && LinkStep(l, e).ws == None
    ensures LinkStep(l, e).reconnectTimer == l.reconnectTimer
  {
    if e.SetSubscriptions? {
      DelistMissingNeedsASocket(l, l.channels, e.ids, e.budget);
      var (l', left) := DelistMissing(l, l.channels, e.ids, e.budget);
      EnlistAllNeedsASocket(l', e.ids, left);
    }
  }

  lemma {:induction false} DelistMissingNeedsASocket(l: Link, ids: seq<string>, next: seq<string>, budget: nat)
    requires l.ws.None?
    ensures var l' := DelistMissing(l, ids, next, budget).0; l' == l.(channels := l'.channels)
    decreases |ids|
  {
    if ids != [] {
      var (l', left) := if ids[0] in next then (l, budget) else Delist(l, Channel, ids[0], budget);
      DelistMissingNeedsASocket(l', ids[1..], next, left);
    }
  }

  lemma {:induction false} EnlistAllNeedsASocket(l: Link, ids: seq<string>, budget: nat)
    requires l.ws.None?
    ensures var l' := EnlistAll(l, ids, budget).0; l' == l.(channels := l'.channels)
    decreases |ids|
  {
    if ids != [] {
      var (l', left) := Enlist(l, Channel, ids[0], budget);
      EnlistAllNeedsASocket(l', ids[1..], left);
    }
  }

  lemma QuietStepStaysQuiet(l: Link, e: LinkEvent)
    requires LinkInv(l) && Quiet(l) && LinkEnabled(l, e) && !e.Connect?
    ensures Quiet(LinkStep(l, e)) && |LinkStep(l, e).sockets| == |l.sockets|
  {
    if e.Want? || e.Unwant? || e.SetSubscriptions? {
      SendNeedsASocket(l, e);
    }
  }

  lemma {:induction false} QuietUntilConnect(l: Link, events: seq<LinkEvent>, m: Link)
    requires LinkInv(l) && Quiet(l) && LinkRuns(l, events, m)
    requires forall i :: 0 <= i < |events| ==> !events[i].Connect?
    ensures Quiet(m) && |m.sockets| == |l.sockets|
    decreases |events|
  {
    if events != [] {
      QuietStepStaysQuiet(l, events[0]);
      LinkStepKeepsInv(l, events[0]);
      QuietUntilConnect(LinkStep(l, events[0]), events[1..], m);
    }
  }

  /** After disconnect() or reset() no socket is opened until the application calls connect(). */
  lemma NoZombieSockets(l: Link, teardown: LinkEvent, events: seq<LinkEvent>, m: Link)
    requires LinkReachable(l) && (teardown.Disconnect? || teardown.ResetAll?)
    requires LinkRuns(LinkStep(l, teardown), events, m)
    requires forall i :: 0 <= i < |events| ==> !events[i].Connect?
    ensures m.ws.None? && |m.sockets| == |l.sockets|
  {
    LinkReachableInv(l);
    if teardown.Disconnect? {
      DisconnectKeepsInv(l);
    } else {
      ResetKeepsInv(l);
    }
    QuietUntilConnect(LinkStep(l, teardown), events, m);
  }

  // ---------------------------------------------------------------------------
  // A lost connection comes back
  // ---------------------------------------------------------------------------

  /** What is left to send fits the budget: every command goes out and the socket stays open. */
  lemma {:induction false} EnoughBudgetKeepsOpen(l: Link, cs: seq<Command>, budget: nat)
    requires IsOpen(l) && |cs| <= budget
    ensures var m := SendAll(l, cs, budget).0;
            IsOpen(m) && m == l.(sockets := m.sockets) && |m.sockets| == |l.sockets|
    decreases |cs|
  {
    if cs != [] {
      EnoughBudgetKeepsOpen(Send(l, cs[0], budget).0, cs[1..], budget - 1);
    }
  }

  lemma {:induction false} AddsLength(topic: Topic, ids: seq<string>)
    ensures |Adds(topic, ids)| == |ids|
  {
    if ids != [] {
      AddsLength(topic, ids[1..]);
    }
  }

  lemma OpeningHolds(l: Link, k: nat, budget: nat)
    requires Heeds(l, k) && |l.channels| + |l.rooms| <= budget
    ensures var m := DoOpen(l, k, budget);
            IsOpen(m) && m.ws == Some(k) && m.channels == l.channels && m.rooms == l.rooms && m.connected
  {
    var ready := SetReady(l, k, Open).(reconnectDelay := INITIAL_RECONNECT_DELAY_MS, connected := true);
    AddsLength(Channel, l.channels);
    AddsLength(Room, l.rooms);
    EnoughBudgetKeepsOpen(ready, Adds(Channel, l.channels) + Adds(Room, l.rooms), budget);
  }

  /** An unasked-for close leaves a pending timer, and that timer a new socket. */
  lemma CloseLeadsToANewSocket(l: Link, k: nat) returns (t: nat)
    requires LinkInv(l) && k < |l.sockets| && l.ws == Some(k) && l.token
    ensures LinkEnabled(DoClose(l, k), TimerFires(t)) && LinkInv(DoFire(DoClose(l, k), t))
    ensures var m := DoFire(DoClose(l, k), t);
            && m.ws == Some(|l.sockets|) && |m.sockets| == |l.sockets| + 1 && m.sockets[|l.sockets|].ready.Connecting?
            && m.channels == l.channels && m.rooms == l.rooms
  {
    CloseKeepsInv(l, k);
    var closed := DoClose(l, k);
    assert closed.reconnectTimer.Some? && closed.ws == Some(k) && closed.sockets[k].ready.Closed?;
    t := closed.reconnectTimer.value;
    FireKeepsInv(closed, t);
  }

  lemma ThreeSteps(l: Link, a: LinkEvent, b: LinkEvent, c: LinkEvent)
    requires LinkEnabled(l, a) && LinkEnabled(LinkStep(l, a), b) && LinkEnabled(LinkStep(LinkStep(l, a), b), c)
    ensures LinkRuns(l, [a, b, c], LinkStep(LinkStep(LinkStep(l, a), b), c))
  {
    var m := LinkStep(LinkStep(l, a), b);
    assert [c][1..] == [] && [b, c][1..] == [c] && [a, b, c][1..] == [b, c];
    assert LinkRuns(m, [c], LinkStep(m, c));
    assert LinkRuns(LinkStep(l, a), [b, c], LinkStep(m, c));
  }

  /**
   * When the current socket closes by itself and a token is still there, the reconnect timer brings up a
   * new socket, and once that opens its peer has been told everything still desired.
   */
  lemma LostConnectionComesBack(l: Link, k: nat, budget: nat) returns (t: nat, m: Link)
    requires LinkReachable(l) && k < |l.sockets| && l.ws == Some(k) && !l.sockets[k].ready.Closed? && l.token
    requires |l.channels| + |l.rooms| <= budget
    ensures LinkRuns(l, [SocketCloses(k), TimerFires(t), SocketOpens(|l.sockets|, budget)], m)
    ensures m.ws == Some(|l.sockets|) && IsOpen(m) && m.connected && m.channels == l.channels && m.rooms == l.rooms
    ensures Replay(m.sockets[|l.sockets|].history, Channel) == Members(l.channels)
    ensures Replay(m.sockets[|l.sockets|].history, Room) == Members(l.rooms)
  {
    LinkReachableInv(l);
    t := CloseLeadsToANewSocket(l, k);
    var n, fired := |l.sockets|, DoFire(DoClose(l, k), t);
    OpenKeepsInv(fired, n, budget);
    OpeningHolds(fired, n, budget);
    m := DoOpen(fired, n, budget);
    ThreeSteps(l, SocketCloses(k), TimerFires(t), SocketOpens(n, budget));
  }

  // ---------------------------------------------------------------------------
  // setSubscriptions
  // ---------------------------------------------------------------------------

  /** Elements of xs outside ys, each once, in first-occurrence order. */
  function Excess(xs: seq<string>, ys: seq<string>): seq<string> {
    if xs == [] then []
    else if xs[0] in ys then Excess(xs[1..], ys)
    else [xs[0]] + Excess(xs[1..], ys + [xs[0]])
  }

  function Removes(ids: seq<string>): seq<Command> {
    if ids == [] then [] else [Remove(Channel, ids[0])] + Removes(ids[1..])
  }

  predicate Distinct(ids: seq<string>) {
    forall i, j :: 0 <= i < j < |ids| ==> ids[i] != ids[j]
  }

  /** The elements Excess lists are exactly those of xs that ys lacks. */
  lemma {:induction false} ExcessIsTheDifference(xs: seq<string>, ys: seq<string>)
    ensures Members(Excess(xs, ys)) == Members(xs) - Members(ys) && Distinct(Excess(xs, ys))
    ensures forall i :: 0 <= i < |Excess(xs, ys)| ==> Excess(xs, ys)[i] !in ys
    decreases |xs|
  {
    if xs != [] {
      MembersCons(xs);
      if xs[0] in ys {
        ExcessIsTheDifference(xs[1..], ys);
        var i :| 0 <= i < |ys| && ys[i] == xs[0];
        assert xs[0] in Members(ys);
      } else {
        var longer := ys + [xs[0]];
        ExcessIsTheDifference(xs[1..], longer);
        MembersSnoc(ys, xs[0]);
        MembersCons(Excess(xs, ys));
        assert Excess(xs, ys)[1..] == Excess(xs[1..], longer);
        assert longer[|ys|] == xs[0];
        assert forall y :: y in ys ==> y in longer;
      }
    }
  }

  lemma {:induction false} ExcessDependsOnMembership(xs: seq<string>, ys: seq<string>, zs: seq<string>)
    requires forall x :: x in xs ==> (x in ys <==> x in zs)
    ensures Excess(xs, ys) == Excess(xs, zs)
    decreases |xs|
  {
    if xs != [] {
      if xs[0] in ys {
        ExcessDependsOnMembership(xs[1..], ys, zs);
      } else {
        ExcessDependsOnMembership(xs[1..], ys + [xs[0]], zs + [xs[0]]);
      }
    }
  }

  /** What the current socket has carried. */
  function Carried(l: Link): seq<Command>
    requires IsOpen(l)
  {
    l.sockets[l.ws.value].history
  }

  lemma {:induction false} InWithout(ids: seq<string>, id: string)
    ensures forall x :: x in Without(ids, id) <==> x in ids && x != id
  {
    if ids != [] {
      InWithout(ids[1..], id);
    }
  }

  /** Asking for what is already desired does nothing; asking for something new desires it and, if it can, says so once. */
  lemma EnlistOutcome(l: Link, topic: Topic, id: string, budget: nat)
    ensures var m := Enlist(l, topic, id, budget).0;
            && (id in Desired(l, topic) ==> m == l)
            && (id !in Desired(l, topic) ==> Desired(m, topic) == Desired(l, topic) + [id])
            && (id !in Desired(l, topic) && IsOpen(l) && budget > 0 ==>
                  IsOpen(m) && Carried(m) == Carried(l) + [Add(topic, id)])
  {
  }

  /** Giving up what is not desired does nothing; giving up what is drops it and, if it can, says so once. */
  lemma DelistOutcome(l: Link, topic: Topic, id: string, budget: nat)
    ensures var m := Delist(l, topic, id, budget).0;
            && (id !in Desired(l, topic) ==> m == l)
            && (forall x :: x in Desired(m, topic) <==> x in Desired(l, topic) && x != id)
            && (id in Desired(l, topic) && IsOpen(l) && budget > 0 ==>
                  IsOpen(m) && Carried(m) == Carried(l) + [Remove(topic, id)])
  {
    InWithout(Desired(l, topic), id);
  }

  lemma {:induction false} EnlistAllDesires(l: Link, ids: seq<string>, budget: nat)
    ensures var m := EnlistAll(l, ids, budget).0;
            (forall x :: x in m.channels <==> x in l.channels || x in ids) && m.rooms == l.rooms
    decreases |ids|
  {
    if ids != [] {
      var (m, left) := Enlist(l, Channel, ids[0], budget);
      assert m.rooms == l.rooms && forall x :: x in m.channels <==> x in l.channels || x == ids[0];
      EnlistAllDesires(m, ids[1..], left);
      assert forall x :: x in ids <==> x == ids[0] || x in ids[1..];
    }
  }


  lemma CommandsOfOneMore(before: seq<Command>, id: string, rest: seq<string>)
    ensures before + [Add(Channel, id)] + Adds(Channel, rest) == before + Adds(Channel, [id] + rest)
    ensures before + [Remove(Channel, id)] + Removes(rest) == before + Removes([id] + rest)
  {
    assert ([id] + rest)[1..] == rest;
  }

  lemma DelistSends(l: Link, id: string, budget: nat)
    requires IsOpen(l) && id in l.channels && budget > 0
    ensures var (m, left) := Delist(l, Channel, id, budget);
            && IsOpen(m) && left == budget - 1 && Carried(m) == Carried(l) + [Remove(Channel, id)]
            && forall x :: x in m.channels <==> x in l.channels && x != id
  {
    InWithout(l.channels, id);
  }

  lemma EnlistSends(l: Link, id: string, budget: nat)
    requires IsOpen(l) && id !in l.channels && budget > 0
    ensures var (m, left) := Enlist(l, Channel, id, budget);
            && IsOpen(m) && left == budget - 1 && Carried(m) == Carried(l) + [Add(Channel, id)]
            && m.channels == l.channels + [id]
  {
  }

  lemma {:induction false} DelistMissingDrops(l: Link, ids: seq<string>, next: seq<string>, budget: nat)
    ensures var m := DelistMissing(l, ids, next, budget).0;
            forall x :: x in m.channels <==> x in l.channels && (x in ids ==> x in next)
    decreases |ids|
  {
    if ids != [] {
      var (m, left) := if ids[0] in next then (l, budget) else Delist(l, Channel, ids[0], budget);
      InWithout(l.channels, ids[0]);
      DelistMissingDrops(m, ids[1..], next, left);
    }
  }

  lemma {:induction false} DelistMissingSends(l: Link, ids: seq<string>, next: seq<string>, gone: seq<string>, budget: nat)
    requires IsOpen(l) && |Excess(ids, next + gone)| <= budget
    requires forall x :: x in ids ==> x in next || x in gone || x in l.channels
    requires forall x :: x in gone ==> x !in l.channels
    ensures var (m, left) := DelistMissing(l, ids, next, budget);
            && IsOpen(m) && left == budget - |Excess(ids, next + gone)|
            && Carried(m) == Carried(l) + Removes(Excess(ids, next + gone))
    decreases |ids|
  {
    if ids == [] {
      assert Carried(l) + [] == Carried(l);
    } else if ids[0] in next || ids[0] in gone {
      DelistMissingSends(l, ids[1..], next, gone, budget);
    } else {
      assert (next + gone) + [ids[0]] == next + (gone + [ids[0]]);
      DelistSends(l, ids[0], budget);
      var (m, left) := Delist(l, Channel, ids[0], budget);
      var rest := Excess(ids[1..], next + (gone + [ids[0]]));
      DelistMissingSends(m, ids[1..], next, gone + [ids[0]], left);
      CommandsOfOneMore(Carried(l), ids[0], rest);
    }
  }

  /** From l to m, subscribe commands for these channels have gone out, in order. */
  predicate Subscribed(l: Link, m: Link, ids: seq<string>) {
    IsOpen(l) && IsOpen(m) && Carried(m) == Carried(l) + Adds(Channel, ids) && m.channels == l.channels + ids
  }

  lemma SubscribedOneMore(l: Link, m: Link, n: Link, id: string, rest: seq<string>)
    requires IsOpen(l) && IsOpen(m) && Carried(m) == Carried(l) + [Add(Channel, id)] && m.channels == l.channels + [id]
    requires Subscribed(m, n, rest)
    ensures Subscribed(l, n, [id] + rest)
  {
    CommandsOfOneMore(Carried(l), id, rest);
  }

  lemma {:induction false} EnlistAllSends(l: Link, ids: seq<string>, budget: nat)
    requires IsOpen(l) && |Excess(ids, l.channels)| <= budget
    ensures Subscribed(l, EnlistAll(l, ids, budget).0, Excess(ids, l.channels))
    decreases |ids|
  {
    if ids == [] {
      assert Carried(l) + [] == Carried(l);
    } else if ids[0] in l.channels {
      EnlistAllSends(l, ids[1..], budget);
    } else {
      EnlistSends(l, ids[0], budget);
      var (m, left) := Enlist(l, Channel, ids[0], budget);
      var rest := Excess(ids[1..], m.channels);
      assert Excess(ids, l.channels) == [ids[0]] + rest;
      EnlistAllSends(m, ids[1..], left);
      SubscribedOneMore(l, m, EnlistAll(m, ids[1..], left).0, ids[0], rest);
    }
  }

  /** Whether or not anything can be sent, the given channels are the desired ones afterwards. */
  lemma SubscriptionsAreDesired(l: Link, ids: seq<string>, budget: nat)
    ensures forall x :: x in Subscriptions(l, ids, budget).0.channels <==> x in ids
  {
    DelistMissingDrops(l, l.channels, ids, budget);
    var (m, left) := DelistMissing(l, l.channels, ids, budget);
    EnlistAllDesires(m, ids, left);
  }

  /**
   * setSubscriptions on an open socket sends exactly the symmetric difference: one unsubscribe per
   * channel no longer wanted, one subscribe per channel newly wanted, and nothing else.
   */
  lemma OnlyTheDifferenceIsSent(l: Link, ids: seq<string>, budget: nat)
    requires IsOpen(l) && |Excess(l.channels, ids)| + |Excess(ids, l.channels)| <= budget
    ensures var m := LinkStep(l, SetSubscriptions(ids, budget));
            var dropped, added := Excess(l.channels, ids), Excess(ids, l.channels);
            && IsOpen(m)
            && Carried(m) == Carried(l) + Removes(dropped) + Adds(Channel, added)
            && Members(dropped) == Members(l.channels) - Members(ids) && Distinct(dropped)
            && Members(added) == Members(ids) - Members(l.channels) && Distinct(added)
            && Members(m.channels) == Members(ids)
  {
    assert ids + [] == ids;
    DelistMissingSends(l, l.channels, ids, [], budget);
    DelistMissingDrops(l, l.channels, ids, budget);
    var (m, left) := DelistMissing(l, l.channels, ids, budget);
    ExcessDependsOnMembership(ids, l.channels, m.channels);
    EnlistAllSends(m, ids, left);
    ExcessIsTheDifference(l.channels, ids);
    ExcessIsTheDifference(ids, l.channels);
    AfterTheDifference(l.channels, m.channels, ids);
  }

  lemma AfterTheDifference(before: seq<string>, kept: seq<string>, ids: seq<string>)
    requires forall x :: x in kept <==> x in before && x in ids
    ensures Members(kept + Excess(ids, before)) == Members(ids)
  {
    ExcessIsTheDifference(ids, before);
    MembersAreElements(kept);
    MembersAreElements(ids);
    MembersAreElements(before);
    MembersConcat(kept, Excess(ids, before));
  }

  lemma MembersAreElements(ids: seq<string>)
    ensures forall x :: x in Members(ids) <==> x in ids
  {
  }

  lemma MembersConcat(a: seq<string>, b: seq<string>)
    ensures Members(a + b) == Members(a) + Members(b)
  {
    MembersAreElements(a);
    MembersAreElements(b);
    MembersAreElements(a + b);
  }
}
