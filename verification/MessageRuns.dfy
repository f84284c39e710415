/**
 * Every run of the message store against the server's logs, with requests in
 * flight: pages, send responses and edit responses are read at one moment and
 * applied at a later one, and frames arrive in between.
 */
module MessageRuns {
  import opened Prelude
  import opened MessageWindow
  import opened MessageReplies
  import opened MessagePages

  // ---------------------------------------------------------------------------
  // The world
  // ---------------------------------------------------------------------------

  /**
   * A request whose reply has not been applied. `rows` is the reply and `window` the window it was asked from,
   * both with every frame since applied to them: what the client could know.
   */
  datatype Pending =
    | Asked(ch: string, at: Cursor, limit: nat, window: seq<Message>)
    | Answered(ch: string, at: Cursor, page: Page, rows: seq<Message>, window: seq<Message>)
    | Sent(ch: string, m: Message, rows: seq<Message>)
    | Patched(ch: string, m: Message)
    | Over(ch: string)

  datatype World = World(store: Store, logs: map<string, Log>, pending: seq<Pending>)

  const EMPTY_STORE := Store(map[], map[], map[])
  const EMPTY_WORLD := World(EMPTY_STORE, map[], [])

  function LogOf(w: World, ch: string): Log {
    if ch in w.logs then w.logs[ch] else Log([], 0)
  }

  datatype Happening =
    | Framed(f: Frame)                  // the log changes and the frame that says so is applied
    | Created(m: Message)               // this client's own message; its frame and its response: one now, one later
    | Edited(m: Message)                // this client's own edit, likewise
    | Queued(m: Message)                // an optimistic local message
    | Unqueued(id: string)              // ... replaced or discarded
    | Asks(older: bool, limit: nat)     // a first page (opening, resync), or a further one at the stored cursor
    | Reads(request: nat)               // the server reads its log to answer
    | Delivers(request: nat)            // the reply is applied
    | Trimmed(keep: nat)
    | Cleared

  function FrameOf(h: Happening): Option<Frame> {
    match h
    case Framed(f) => Some(f)
    case Created(m) => Some(New(m))
    case Edited(m) => Some(Changed(m))
    case _ => None
  }

  /** Frames name messages the server has, or a new one nobody has yet. */
  predicate PossibleFrame(list: seq<Message>, log: Log, f: Frame) {
    && Fine(log, f)
    && match f
       case New(m) => !Has(list, m.id)
       case Changed(m) => Has(log.entries, m.id)
       case Reacted(id, _, _) => Has(log.entries, id)
       case Gone(id) => Has(log.entries, id)
  }

  predicate Carries(p: Pending, id: string) {
    (p.Sent? || p.Patched?) && p.m.id == id
  }

  /** What the client would have to check before it applies a reply. */
  predicate Fits(s: Store, p: Pending) {
    var list := List(s, p.ch);
    match p
    case Answered(_, at, page, rows, window) => Shown(page) == rows && (at.Before? ==> Persisted(list) == window)
    case Sent(ch, m, rows) =>
      if Has(list, m.id) then m in list
      else rows == [m] && RoomForOne(list, Entry(s.cursors, ch), Entry(s.hasMore, ch))
    case Patched(_, m) => Has(list, m.id) ==> m in list
    case _ => true
  }

  predicate HasReply(p: Pending) {
    p.Answered? || p.Sent? || p.Patched?
  }

  function Apply(s: Store, p: Pending): Store {
    match p
    case Answered(ch, at, page, _, _) =>
      if at.Empty? then SetMessages(s, ch, page.rows, page.cursor, page.more)
      else PrependMessages(s, ch, page.rows, page.cursor, page.more)
    case Sent(ch, m, _) => AddMessage(s, ch, m)
    case Patched(ch, m) => UpdateMessage(s, ch, m)
    case _ => s
  }

  predicate Possible(w: World, ch: string, h: Happening) {
    var log, list := LogOf(w, ch), List(w.store, ch);
    match h
    case Framed(f) => PossibleFrame(list, log, f)
    case Created(m) => PossibleFrame(list, log, New(m))
    case Edited(m) => PossibleFrame(list, log, Changed(m))
    case Queued(m) =>
      && m.local && !Has(list, m.id) && !Has(log.entries, m.id)
      && forall k :: 0 <= k < |w.pending| ==> !Carries(w.pending[k], m.id)
    case Unqueued(id) => !Has(log.entries, id)
    case Asks(older, limit) => limit > 0 && (older ==> ch in w.store.cursors && w.store.cursors[ch].Before?)
    case Reads(k) => k < |w.pending| && w.pending[k].ch == ch && w.pending[k].Asked?
    case Delivers(k) =>
      k < |w.pending| && w.pending[k].ch == ch && HasReply(w.pending[k]) && Fits(w.store, w.pending[k])
    case Trimmed(_) => true
    case Cleared => true
  }

  function FrameStore(s: Store, ch: string, f: Frame): Store {
    match f
    case New(m) => AddMessage(s, ch, m)
    case Changed(m) => UpdateMessage(s, ch, m)
    case Reacted(id, r, added) => ApplyReaction(s, ch, id, r, added)
    case Gone(id) => RemoveMessage(s, ch, id)
  }

  function NextStore(w: World, ch: string, h: Happening): Store
    requires Possible(w, ch, h)
  {
    match h
    case Framed(f) => FrameStore(w.store, ch, f)
    case Created(m) => AddMessage(w.store, ch, m)
    case Edited(m) => UpdateMessage(w.store, ch, m)
    case Queued(m) => AddMessage(w.store, ch, m)
    case Unqueued(id) => RemoveMessage(w.store, ch, id)
    case Asks(_, _) => w.store
    case Reads(_) => w.store
    case Delivers(k) => Apply(w.store, w.pending[k])
    case Trimmed(keep) => TrimChannel(w.store, ch, keep)
    case Cleared => ClearChannel(w.store, ch)
  }

  function NextLog(w: World, ch: string, h: Happening): Log {
    if FrameOf(h).Some? then LogAfter(LogOf(w, ch), FrameOf(h).value) else LogOf(w, ch)
  }

  /** A frame reaches what is in flight for its channel. */
  function Follow(p: Pending, ch: string, f: Frame): Pending {
    if p.ch != ch then p
    else match p
      case Asked(_, at, limit, window) => Asked(ch, at, limit, Grow(window, f))
      case Answered(_, at, page, rows, window) => Answered(ch, at, page, Followed(at, rows, f), Grow(window, f))
      case Sent(_, m, rows) => Sent(ch, m, Grow(rows, f))
      case _ => p
  }

  function FollowAll(ps: seq<Pending>, ch: string, f: Frame): seq<Pending> {
    seq(|ps|, i requires 0 <= i < |ps| => Follow(ps[i], ch, f))
  }

  /** A request as it is sent: a further page remembers the window it is for. */
  function Request(s: Store, ch: string, older: bool, limit: nat): Pending
    requires older ==> ch in s.cursors
  {
    if older then Asked(ch, s.cursors[ch], limit, Persisted(List(s, ch))) else Asked(ch, Empty, limit, [])
  }

  function Answer(p: Pending, log: Log): Pending
    requires p.Asked?
  {
    var page := ReadPage(log.entries, p.at, p.limit);
    Answered(p.ch, p.at, page, Shown(page), p.window)
  }

  function NextPending(w: World, ch: string, h: Happening): seq<Pending>
    requires Possible(w, ch, h)
  {
    match h
    case Framed(f) => FollowAll(w.pending, ch, f)
    case Created(m) => FollowAll(w.pending, ch, New(m)) + [Sent(ch, m, [m])]
    case Edited(m) => FollowAll(w.pending, ch, Changed(m)) + [Patched(ch, m)]
    case Asks(older, limit) => w.pending + [Request(w.store, ch, older, limit)]
    case Reads(k) => w.pending[k := Answer(w.pending[k], LogOf(w, ch))]
    case Delivers(k) => w.pending[k := Over(ch)]
    case _ => w.pending
  }

  function NextWorld(w: World, ch: string, h: Happening): World
    requires Possible(w, ch, h)
  {
    World(NextStore(w, ch, h), w.logs[ch := NextLog(w, ch, h)], NextPending(w, ch, h))
  }

  // ---------------------------------------------------------------------------
  // The invariant
  // ---------------------------------------------------------------------------

  /** Local messages and the server's never share an id. */
  predicate LocalsApart(list: seq<Message>, log: Log) {
    forall m, n :: m in list && m.local && n in log.entries ==> m.id != n.id
  }

  predicate ChannelOk(s: Store, ch: string, log: Log) {
    WindowInv(s, ch, log) && LocalsApart(List(s, ch), log)
  }

  predicate ChannelInv(w: World, ch: string) {
    ChannelOk(w.store, ch, LogOf(w, ch))
  }

  predicate PendingOk(list: seq<Message>, log: Log, p: Pending) {
    match p
    case Asked(_, at, limit, window) =>
      limit > 0 && (at.Before? ==> at.key <= log.newest && window == From(log.entries, at.key))
    case Answered(_, at, page, rows, window) =>
      InFlight(log, at, page, rows) && (at.Before? ==> window == From(log.entries, at.key))
    case Sent(_, m, rows) =>
      !m.local && m.key <= log.newest && NoLocal(list, m.id) && rows == From(log.entries, m.key)
    case Patched(_, m) => !m.local && NoLocal(list, m.id)
    case Over(_) => true
  }

  predicate PendingInv(w: World, k: nat)
    requires k < |w.pending|
  {
    PendingOk(List(w.store, w.pending[k].ch), LogOf(w, w.pending[k].ch), w.pending[k])
  }

  ghost predicate WorldInv(w: World) {
    (forall ch :: ChannelInv(w, ch)) && (forall k :: 0 <= k < |w.pending| ==> PendingInv(w, k))
  }

  // ---------------------------------------------------------------------------
  // Frames and the window
  // ---------------------------------------------------------------------------

  lemma NotHas(list: seq<Message>, id: string)
    requires !Has(list, id)
    ensures forall m :: m in list ==> m.id != id
  {
  }

  /** A server message shown in the window is the one in the log. */
  lemma ShownIsLogged(s: Store, ch: string, log: Log, m: Message)
    requires WindowInv(s, ch, log) && m in List(s, ch) && !m.local
    ensures m in log.entries
  {
    PersistedIsDrawnFrom(List(s, ch));
    assert m in Persisted(List(s, ch));
  }

  lemma IdentityCarriesOver(s: Store, ch: string, log: Log, m: Message)
    requires ChannelOk(s, ch, log) && Has(log.entries, m.id) && SameIdentity(log.entries, m)
    ensures SameIdentity(List(s, ch), m) && NoLocal(List(s, ch), m.id)
  {
    var i :| 0 <= i < |log.entries| && log.entries[i].id == m.id;
    assert log.entries[i] in log.entries;
    forall n | n in List(s, ch) && n.id == m.id ensures n.key == m.key && !n.local {
      if !n.local {
        ShownIsLogged(s, ch, log, n);
      }
    }
  }

  lemma UniqueById(entries: seq<Message>, m: Message)
    requires DistinctIds(entries) && m in entries
    ensures forall n :: n in entries && n.id == m.id ==> n == m
  {
    var i :| 0 <= i < |entries| && entries[i] == m;
    forall n | n in entries && n.id == m.id ensures n == m {
      var j :| 0 <= j < |entries| && entries[j] == n;
      assert !(i < j) && !(j < i);
    }
  }

  /** Reacting is editing with the log's own message, in the store and in the log. */
  lemma ReactingIsEditing(s: Store, ch: string, log: Log, id: string, r: Reaction, added: bool) returns (m: Message)
    requires ChannelOk(s, ch, log) && Has(log.entries, id)
    ensures ApplyReaction(s, ch, id, r, added) == UpdateMessage(s, ch, m)
    ensures LogAfter(log, Reacted(id, r, added)) == Edit(log, m)
    ensures m.id == id && !m.local && SameIdentity(log.entries, m)
  {
    var list := List(s, ch);
    var i :| 0 <= i < |log.entries| && log.entries[i].id == id;
    var logged := log.entries[i];
    assert logged in log.entries;
    m := React(logged, r, added);
    UniqueById(log.entries, logged);
    TouchIsReact(log.entries, logged, r, added);
    FoundIsThere(list, id);
    ReplaceIsPut(list, m);
    if Find(list, id).Some? && !Find(list, id).value.local {
      ShownIsLogged(s, ch, log, Find(list, id).value);
    }
  }

  lemma ChangeKeepsWindow(s: Store, ch: string, log: Log, m: Message)
    requires ChannelOk(s, ch, log) && !m.local && Has(log.entries, m.id) && SameIdentity(log.entries, m)
    ensures WindowInv(UpdateMessage(s, ch, m), ch, Edit(log, m))
  {
    IdentityCarriesOver(s, ch, log, m);
    EditAgrees(s, ch, log, m);
  }

  lemma NewKeepsWindow(s: Store, ch: string, log: Log, m: Message)
    requires ChannelOk(s, ch, log) && PossibleFrame(List(s, ch), log, New(m))
    ensures WindowInv(AddMessage(s, ch, m), ch, Log(log.entries + [m], m.key))
  {
    NotHas(List(s, ch), m.id);
    NewMessageAgrees(s, ch, log, m);
  }

  lemma FrameKeepsWindow(s: Store, ch: string, log: Log, f: Frame)
    requires ChannelOk(s, ch, log) && PossibleFrame(List(s, ch), log, f)
    ensures WindowInv(FrameStore(s, ch, f), ch, LogAfter(log, f))
  {
    match f
    case New(m) =>
      LogAfterIs(log, m, m.id);
      NewKeepsWindow(s, ch, log, m);
    case Changed(m) =>
      LogAfterIs(log, m, m.id);
      ChangeKeepsWindow(s, ch, log, m);
    case Reacted(id, r, added) =>
      var m := ReactingIsEditing(s, ch, log, id, r, added);
      ChangeKeepsWindow(s, ch, log, m);
    case Gone(id) =>
      LogAfterIs(log, Message(id, 0, "", [], false), id);
      DeletionAgrees(s, ch, log, id);
  }

  // ---------------------------------------------------------------------------
  // Replies and the window
  // ---------------------------------------------------------------------------

  /** A reply leaves the window in agreement with the log if and only if it fits: no run, page or limit excepted. */
  lemma ReplyAgreesIff(w: World, k: nat)
    requires WorldInv(w) && k < |w.pending| && HasReply(w.pending[k])
    ensures var p := w.pending[k];
            WindowInv(Apply(w.store, p), p.ch, LogOf(w, p.ch)) <==> Fits(w.store, p)
  {
    var p := w.pending[k];
    assert ChannelInv(w, p.ch) && PendingInv(w, k);
    PendingAgreesIff(w.store, LogOf(w, p.ch), p);
  }

  lemma PendingAgreesIff(s: Store, log: Log, p: Pending)
    requires ChannelOk(s, p.ch, log) && PendingOk(List(s, p.ch), log, p) && HasReply(p)
    ensures WindowInv(Apply(s, p), p.ch, log) <==> Fits(s, p)
  {
    if p.Answered? {
      if p.at.Empty? {
        FirstPageIff(s, p.ch, log, p.page, p.rows);
      } else {
        OlderPageIff(s, p.ch, log, p.at.key, p.page, p.rows);
      }
    } else if p.Patched? {
      EditResponseIff(s, p.ch, log, p.m);
    } else if Has(List(s, p.ch), p.m.id) {
      OverwriteIff(s, p.ch, log, p.m);
    } else {
      UnshownResponseIff(s, p.ch, log, p.m);
    }
  }

  lemma WindowStep(w: World, ch: string, h: Happening)
    requires WorldInv(w) && Possible(w, ch, h)
    ensures WindowInv(NextStore(w, ch, h), ch, NextLog(w, ch, h))
  {
    var s, log, list := w.store, LogOf(w, ch), List(w.store, ch);
    assert ChannelInv(w, ch);
    if FrameOf(h).Some? {
      FrameKeepsWindow(s, ch, log, FrameOf(h).value);
    } else if h.Queued? {
      NotHas(list, h.m.id);
      LocalMessageAgrees(s, ch, log, h.m);
    } else if h.Unqueued? {
      NotHas(log.entries, h.id);
      LocalDeletionAgrees(s, ch, log, h.id);
    } else if h.Delivers? {
      ReplyAgreesIff(w, h.request);
    } else if h.Trimmed? {
      TrimAgrees(s, ch, log, h.keep);
    } else if h.Cleared? {
      ClearAgrees(s, ch, log);
    }
  }

  // ---------------------------------------------------------------------------
  // Local messages
  // ---------------------------------------------------------------------------

  /** No local message appears, except perhaps one. */
  predicate LocalsFrom(list: seq<Message>, after: seq<Message>, queued: Option<Message>) {
    forall m :: m in after && m.local ==> m in list || queued == Some(m)
  }

  lemma {:induction false} PutIsDrawnFrom(list: seq<Message>, m: Message)
    ensures forall n :: n in Put(list, m) ==> n in list || n == m
  {
    if list != [] {
      PutIsDrawnFrom(list[1..], m);
      assert forall p :: p in list[1..] ==> p in list;
      assert list[0] in list;
    }
  }

  lemma UpdatedFrom(s: Store, ch: string, m: Message)
    requires DistinctIds(List(s, ch))
    ensures forall n :: n in List(UpdateMessage(s, ch, m), ch) ==> n in List(s, ch) || n == m
  {
    ReplaceIsPut(List(s, ch), m);
    PutIsDrawnFrom(List(s, ch), m);
  }

  lemma TailFrom(list: seq<Message>, k: nat)
    requires k <= |list|
    ensures forall n :: n in list[k..] ==> n in list
  {
  }

  lemma AddedFrom(s: Store, ch: string, m: Message)
    requires DistinctIds(List(s, ch))
    ensures forall n :: n in List(AddMessage(s, ch, m), ch) ==> n in List(s, ch) || n == m
  {
    var list, after := List(s, ch), List(AddMessage(s, ch, m), ch);
    ReplaceIsPut(list, m);
    if Replace(list, m).Some? {
      PutIsDrawnFrom(list, m);
    } else {
      var appended := list + [m];
      assert after == appended[|appended| - |after|..];
      TailFrom(appended, |appended| - |after|);
    }
  }

  lemma FrameLocals(s: Store, ch: string, log: Log, f: Frame)
    requires ChannelOk(s, ch, log) && PossibleFrame(List(s, ch), log, f)
    ensures LocalsFrom(List(s, ch), List(FrameStore(s, ch, f), ch), None)
  {
    match f
    case New(m) => AddedFrom(s, ch, m);
    case Changed(m) => UpdatedFrom(s, ch, m);
    case Reacted(id, r, added) =>
      var m := ReactingIsEditing(s, ch, log, id, r, added);
      UpdatedFrom(s, ch, m);
    case Gone(id) => DiscardIsDrawnFrom(List(s, ch), id);
  }

  lemma PageLocals(list: seq<Message>, page: Page)
    requires forall i :: 0 <= i < |Shown(page)| ==> !Shown(page)[i].local
    ensures LocalsFrom(list, Shown(page), None) && LocalsFrom(list, Shown(page) + list, None)
  {
    forall m | m in Shown(page) ensures !m.local {
      var i :| 0 <= i < |Shown(page)| && Shown(page)[i] == m;
    }
    forall m | m in Shown(page) + list && m.local ensures m in list {
      assert m in Shown(page) || m in list;
    }
  }

  lemma ReplyLocals(s: Store, log: Log, p: Pending)
    requires ChannelOk(s, p.ch, log) && PendingOk(List(s, p.ch), log, p) && HasReply(p)
    ensures LocalsFrom(List(s, p.ch), List(Apply(s, p), p.ch), None)
  {
    if p.Answered? {
      PageLocals(List(s, p.ch), p.page);
    } else if p.Sent? {
      AddedFrom(s, p.ch, p.m);
    } else {
      UpdatedFrom(s, p.ch, p.m);
    }
  }

  lemma TrimLocals(s: Store, ch: string, keep: nat)
    ensures LocalsFrom(List(s, ch), List(TrimChannel(s, ch, keep), ch), None)
  {
    var list := List(s, ch);
    if |list| > keep {
      TailFrom(list, |list| - keep);
    }
  }

  /** Where the local messages of the next list come from. */
  lemma LocalsAreInherited(w: World, ch: string, h: Happening)
    requires WorldInv(w) && Possible(w, ch, h)
    ensures LocalsFrom(List(w.store, ch), List(NextStore(w, ch, h), ch), if h.Queued? then Some(h.m) else None)
  {
    var s, log := w.store, LogOf(w, ch);
    assert ChannelInv(w, ch);
    if FrameOf(h).Some? {
      FrameLocals(s, ch, log, FrameOf(h).value);
    } else if h.Queued? {
      AddedFrom(s, ch, h.m);
    } else if h.Unqueued? {
      DiscardIsDrawnFrom(List(s, ch), h.id);
    } else if h.Delivers? {
      assert PendingInv(w, h.request);
      ReplyLocals(s, log, w.pending[h.request]);
    } else if h.Trimmed? {
      TrimLocals(s, ch, h.keep);
    }
  }

  /** Which ids a log has after a frame. */
  lemma {:induction false} TouchKeepsIds(entries: seq<Message>, f: Frame)
    ensures forall n :: n in Touch(entries, f) ==> exists p :: p in entries && p.id == n.id
  {
    if entries != [] {
      TouchKeepsIds(entries[1..], f);
      assert entries[0] in entries && forall p :: p in entries[1..] ==> p in entries;
    }
  }

  lemma FrameKeepsApart(list: seq<Message>, after: seq<Message>, log: Log, f: Frame)
    requires LocalsApart(list, log) && LocalsFrom(list, after, None) && PossibleFrame(list, log, f)
    ensures LocalsApart(after, LogAfter(log, f))
  {
    TouchKeepsIds(log.entries, f);
    if f.New? {
      NotHas(list, f.m.id);
    }
    forall m, n | m in after && m.local && n in LogAfter(log, f).entries ensures m.id != n.id {
      if n in Touch(log.entries, f) {
        var p :| p in log.entries && p.id == n.id;
        assert m in list;
      }
    }
  }

  lemma LocalsStep(w: World, ch: string, h: Happening)
    requires WorldInv(w) && Possible(w, ch, h)
    ensures LocalsApart(List(NextStore(w, ch, h), ch), NextLog(w, ch, h))
  {
    var list, after, log := List(w.store, ch), List(NextStore(w, ch, h), ch), LogOf(w, ch);
    assert ChannelInv(w, ch);
    LocalsAreInherited(w, ch, h);
    if FrameOf(h).Some? {
      FrameKeepsApart(list, after, log, FrameOf(h).value);
    } else if h.Queued? {
      NotHas(log.entries, h.m.id);
    }
  }

  // ---------------------------------------------------------------------------
  // Requests in flight
  // ---------------------------------------------------------------------------

  lemma FromGrows(log: Log, key: int, f: Frame)
    requires Fine(log, f) && key <= log.newest
    ensures From(LogAfter(log, f).entries, key) == Grow(From(log.entries, key), f)
  {
    FineKeepsKeys(log, f);
    StretchGrow(log.entries, f, Some(key), None);
    StretchFrom(log.entries, key);
    StretchFrom(Grow(log.entries, f), key);
  }

  lemma FollowKeepsOk(list: seq<Message>, after: seq<Message>, log: Log, p: Pending, f: Frame)
    requires PendingOk(list, log, p) && Fine(log, f) && LocalsFrom(list, after, None)
    ensures PendingOk(after, LogAfter(log, f), Follow(p, p.ch, f))
  {
    match p
    case Asked(_, at, _, _) =>
      if at.Before? {
        FromGrows(log, at.key, f);
      }
    case Answered(_, at, page, rows, _) =>
      FrameKeepsInFlight(log, at, page, rows, f);
      if at.Before? {
        FromGrows(log, at.key, f);
      }
    case Sent(_, m, _) =>
      FromGrows(log, m.key, f);
      LocalsStayAway(list, after, m.id, None);
    case Patched(_, m) => LocalsStayAway(list, after, m.id, None);
    case Over(_) =>
  }

  lemma LocalsStayAway(list: seq<Message>, after: seq<Message>, id: string, queued: Option<Message>)
    requires NoLocal(list, id) && LocalsFrom(list, after, queued) && (queued.Some? ==> queued.value.id != id)
    ensures NoLocal(after, id)
  {
    forall i | 0 <= i < |after| && after[i].local ensures after[i].id != id {
      assert after[i] in after;
    }
  }

  /** A request that a happening does not touch stays as good as it was. */
  lemma WaitingStaysOk(list: seq<Message>, after: seq<Message>, log: Log, p: Pending, queued: Option<Message>)
    requires PendingOk(list, log, p) && LocalsFrom(list, after, queued)
    requires queued.Some? ==> !Carries(p, queued.value.id)
    ensures PendingOk(after, log, p)
  {
    if p.Sent? || p.Patched? {
      LocalsStayAway(list, after, p.m.id, queued);
    }
  }

  lemma EditedOk(s: Store, ch: string, log: Log, m: Message)
    requires ChannelOk(s, ch, log) && PossibleFrame(List(s, ch), log, Changed(m))
    ensures PendingOk(List(UpdateMessage(s, ch, m), ch), LogAfter(log, Changed(m)), Patched(ch, m))
  {
    IdentityCarriesOver(s, ch, log, m);
    FrameLocals(s, ch, log, Changed(m));
    LocalsStayAway(List(s, ch), List(UpdateMessage(s, ch, m), ch), m.id, None);
  }

  lemma RequestOk(s: Store, ch: string, log: Log, older: bool, limit: nat)
    requires ChannelOk(s, ch, log) && limit > 0 && (older ==> ch in s.cursors && s.cursors[ch].Before?)
    ensures PendingOk(List(s, ch), log, Request(s, ch, older, limit))
  {
  }

  lemma AnswerOk(list: seq<Message>, log: Log, p: Pending)
    requires LogOk(log) && p.Asked? && PendingOk(list, log, p)
    ensures PendingOk(list, log, Answer(p, log))
  {
    JustRead(log, p.at, p.limit);
  }

  predicate MakesAPending(h: Happening) {
    h.Created? || h.Edited? || h.Asks? || h.Reads?
  }

  /** A request just made, or just answered. */
  function FreshOf(w: World, ch: string, h: Happening): Pending
    requires Possible(w, ch, h) && MakesAPending(h)
  {
    match h
    case Created(m) => Sent(ch, m, [m])
    case Edited(m) => Patched(ch, m)
    case Asks(older, limit) => Request(w.store, ch, older, limit)
    case Reads(k) => Answer(w.pending[k], LogOf(w, ch))
  }

  lemma FreshIsThere(w: World, ch: string, h: Happening, k: nat)
    requires Possible(w, ch, h) && k < |NextPending(w, ch, h)|
    requires if h.Reads? then k == h.request else k >= |w.pending|
    ensures MakesAPending(h) && NextPending(w, ch, h)[k] == FreshOf(w, ch, h) && NextPending(w, ch, h)[k].ch == ch
  {
  }

  lemma FreshOk(w: World, ch: string, h: Happening)
    requires WorldInv(w) && Possible(w, ch, h) && MakesAPending(h)
    ensures PendingOk(List(NextStore(w, ch, h), ch), NextLog(w, ch, h), FreshOf(w, ch, h))
  {
    match h
    case Created(m) => FreshSendOk(w, ch, m);
    case Edited(m) => FreshEditOk(w, ch, m);
    case Asks(older, limit) => FreshRequestOk(w, ch, older, limit);
    case Reads(k) => ReadOk(w, ch, k);
  }

  lemma FreshSendOk(w: World, ch: string, m: Message)
    requires WorldInv(w) && PossibleFrame(List(w.store, ch), LogOf(w, ch), New(m))
    ensures PendingOk(List(AddMessage(w.store, ch, m), ch), LogAfter(LogOf(w, ch), New(m)), Sent(ch, m, [m]))
  {
    assert ChannelInv(w, ch);
    CreatedOk(w.store, ch, LogOf(w, ch), m);
  }

  lemma FreshEditOk(w: World, ch: string, m: Message)
    requires WorldInv(w) && PossibleFrame(List(w.store, ch), LogOf(w, ch), Changed(m))
    ensures PendingOk(List(UpdateMessage(w.store, ch, m), ch), LogAfter(LogOf(w, ch), Changed(m)), Patched(ch, m))
  {
    assert ChannelInv(w, ch);
    EditedOk(w.store, ch, LogOf(w, ch), m);
  }

  lemma FreshRequestOk(w: World, ch: string, older: bool, limit: nat)
    requires WorldInv(w) && limit > 0 && (older ==> ch in w.store.cursors && w.store.cursors[ch].Before?)
    ensures PendingOk(List(w.store, ch), LogOf(w, ch), Request(w.store, ch, older, limit))
  {
    assert ChannelInv(w, ch);
    RequestOk(w.store, ch, LogOf(w, ch), older, limit);
  }

  lemma ReadOk(w: World, ch: string, k: nat)
    requires WorldInv(w) && k < |w.pending| && w.pending[k].ch == ch && w.pending[k].Asked?
    ensures PendingOk(List(w.store, ch), LogOf(w, ch), Answer(w.pending[k], LogOf(w, ch)))
  {
    assert ChannelInv(w, ch) && PendingInv(w, k);
    AnswerOk(List(w.store, ch), LogOf(w, ch), w.pending[k]);
  }

  lemma CreatedOk(s: Store, ch: string, log: Log, m: Message)
    requires ChannelOk(s, ch, log) && PossibleFrame(List(s, ch), log, New(m))
    ensures PendingOk(List(AddMessage(s, ch, m), ch), LogAfter(log, New(m)), Sent(ch, m, [m]))
  {
    var entries := log.entries + [m];
    LogAfterIs(log, m, m.id);
    FrameLocals(s, ch, log, New(m));
    NotHas(List(s, ch), m.id);
    LocalsStayAway(List(s, ch), List(AddMessage(s, ch, m), ch), m.id, None);
    NewKeepsWindow(s, ch, log, m);
    FromIsATail(entries, |log.entries|);
    assert entries[|log.entries|..] == [m];
  }

  /** Everything in flight for the channel of a happening stays as good as it was. */
  lemma SamePendingStep(w: World, ch: string, h: Happening, k: nat)
    requires WorldInv(w) && Possible(w, ch, h) && k < |w.pending| && w.pending[k].ch == ch
    requires !(h.Reads? && h.request == k) && !(h.Delivers? && h.request == k)
    ensures k < |NextPending(w, ch, h)|
    ensures PendingOk(List(NextStore(w, ch, h), ch), NextLog(w, ch, h), NextPending(w, ch, h)[k])
  {
    var list, after, log, p := List(w.store, ch), List(NextStore(w, ch, h), ch), LogOf(w, ch), w.pending[k];
    assert PendingInv(w, k);
    LocalsAreInherited(w, ch, h);
    if FrameOf(h).Some? {
      FollowKeepsOk(list, after, log, p, FrameOf(h).value);
    } else {
      WaitingStaysOk(list, after, log, p, if h.Queued? then Some(h.m) else None);
    }
  }

  /** Two stores that agree on one channel. */
  predicate SameChannel(s: Store, t: Store, ch: string) {
    List(s, ch) == List(t, ch) && Entry(s.cursors, ch) == Entry(t.cursors, ch) && Entry(s.hasMore, ch) == Entry(t.hasMore, ch)
  }

  lemma FrameTouchesOneChannel(s: Store, ch: string, f: Frame, other: string)
    requires other != ch
    ensures SameChannel(FrameStore(s, ch, f), s, other)
  {
  }

  lemma ReplyTouchesOneChannel(s: Store, p: Pending, other: string)
    requires other != p.ch
    ensures SameChannel(Apply(s, p), s, other)
  {
  }

  lemma RestTouchesOneChannel(s: Store, ch: string, m: Message, id: string, keep: nat, other: string)
    requires other != ch
    ensures SameChannel(AddMessage(s, ch, m), s, other) && SameChannel(RemoveMessage(s, ch, id), s, other)
    ensures SameChannel(TrimChannel(s, ch, keep), s, other) && SameChannel(ClearChannel(s, ch), s, other)
  {
  }

  /** An action on one channel leaves every other channel's list, cursor, flag and log alone. */
  lemma OtherChannelsAreUntouched(w: World, ch: string, h: Happening, other: string)
    requires Possible(w, ch, h) && other != ch
    ensures SameChannel(NextStore(w, ch, h), w.store, other)
    ensures LogOf(NextWorld(w, ch, h), other) == LogOf(w, other)
  {
    if FrameOf(h).Some? {
      FrameTouchesOneChannel(w.store, ch, FrameOf(h).value, other);
    } else if h.Delivers? {
      ReplyTouchesOneChannel(w.store, w.pending[h.request], other);
    } else if h.Queued? {
      RestTouchesOneChannel(w.store, ch, h.m, "", 0, other);
    } else if h.Unqueued? {
      RestTouchesOneChannel(w.store, ch, Message("", 0, "", [], true), h.id, 0, other);
    } else if h.Trimmed? {
      RestTouchesOneChannel(w.store, ch, Message("", 0, "", [], true), "", h.keep, other);
    } else if h.Cleared? {
      RestTouchesOneChannel(w.store, ch, Message("", 0, "", [], true), "", 0, other);
    }
  }

  lemma OtherPendingIsUntouched(w: World, ch: string, h: Happening, k: nat)
    requires Possible(w, ch, h) && k < |w.pending| && w.pending[k].ch != ch
    ensures k < |NextPending(w, ch, h)| && NextPending(w, ch, h)[k] == w.pending[k]
  {
  }

  /** What a happening makes of one request. */
  lemma PendingStep(w: World, ch: string, h: Happening, k: nat)
    requires WorldInv(w) && Possible(w, ch, h) && k < |NextPending(w, ch, h)|
    ensures PendingInv(NextWorld(w, ch, h), k)
  {
    if if h.Reads? then h.request == k else k >= |w.pending| {
      FreshIsThere(w, ch, h, k);
      FreshOk(w, ch, h);
    } else if w.pending[k].ch != ch {
      assert PendingInv(w, k);
      OtherPendingIsUntouched(w, ch, h, k);
      OtherChannelsAreUntouched(w, ch, h, w.pending[k].ch);
    } else if !(h.Delivers? && h.request == k) {
      SamePendingStep(w, ch, h, k);
    }
  }

  lemma ChannelStep(w: World, ch: string, h: Happening, c: string)
    requires WorldInv(w) && Possible(w, ch, h)
    ensures ChannelInv(NextWorld(w, ch, h), c)
  {
    if c == ch {
      WindowStep(w, ch, h);
      LocalsStep(w, ch, h);
    } else {
      assert ChannelInv(w, c);
      OtherChannelsAreUntouched(w, ch, h, c);
    }
  }

  lemma WorldStep(w: World, ch: string, h: Happening)
    requires WorldInv(w) && Possible(w, ch, h)
    ensures WorldInv(NextWorld(w, ch, h))
  {
    forall c ensures ChannelInv(NextWorld(w, ch, h), c) {
      ChannelStep(w, ch, h, c);
    }
    forall k | 0 <= k < |NextPending(w, ch, h)| ensures PendingInv(NextWorld(w, ch, h), k) {
      PendingStep(w, ch, h, k);
    }
  }

  // ---------------------------------------------------------------------------
  // Every run
  // ---------------------------------------------------------------------------

  predicate WorldRuns(w: World, steps: seq<(string, Happening)>, v: World)
    decreases |steps|
  {
    if steps == [] then w == v
    else Possible(w, steps[0].0, steps[0].1) && WorldRuns(NextWorld(w, steps[0].0, steps[0].1), steps[1..], v)
  }

  lemma {:induction false} RunKeepsWorld(w: World, steps: seq<(string, Happening)>, v: World)
    requires WorldInv(w) && WorldRuns(w, steps, v)
    ensures WorldInv(v)
    decreases |steps|
  {
    if steps != [] {
      WorldStep(w, steps[0].0, steps[0].1);
      RunKeepsWorld(NextWorld(w, steps[0].0, steps[0].1), steps[1..], v);
    }
  }

  lemma EmptyWorldInv()
    ensures WorldInv(EMPTY_WORLD)
  {
    assert forall ch :: ChannelInv(EMPTY_WORLD, ch);
  }

  /**
   * In every run from an empty store in which replies are applied when they fit, each channel's loaded list (local
   * messages aside) is a contiguous suffix of its log, a non-empty cursor is its left edge, and hasMore = false
   * means all of it.
   */
  lemma WindowsMirrorTheLog(steps: seq<(string, Happening)>, w: World, ch: string)
    requires WorldRuns(EMPTY_WORLD, steps, w)
    ensures IsSuffix(Persisted(List(w.store, ch)), LogOf(w, ch).entries)
    ensures ch in w.store.cursors && w.store.cursors[ch].Before? ==>
              Persisted(List(w.store, ch)) == From(LogOf(w, ch).entries, w.store.cursors[ch].key)
    ensures ch in w.store.hasMore && !w.store.hasMore[ch] ==> Persisted(List(w.store, ch)) == LogOf(w, ch).entries
  {
    EmptyWorldInv();
    RunKeepsWorld(EMPTY_WORLD, steps, w);
    assert ChannelInv(w, ch);
  }

  /** ... and a reply that does not fit breaks the agreement the moment it is applied. */
  lemma RepliesMustFit(steps: seq<(string, Happening)>, w: World, k: nat)
    requires WorldRuns(EMPTY_WORLD, steps, w) && k < |w.pending| && HasReply(w.pending[k])
    ensures var p := w.pending[k];
            WindowInv(Apply(w.store, p), p.ch, LogOf(w, p.ch)) <==> Fits(w.store, p)
  {
    EmptyWorldInv();
    RunKeepsWorld(EMPTY_WORLD, steps, w);
    ReplyAgreesIff(w, k);
  }

  /** While the stored cursor is the one a further page was asked with, only frames that touch its rows can spoil it. */
  lemma FurtherPageUnderItsCursor(steps: seq<(string, Happening)>, w: World, k: nat)
    requires WorldRuns(EMPTY_WORLD, steps, w) && k < |w.pending| && w.pending[k].Answered? && w.pending[k].at.Before?
    requires w.pending[k].ch in w.store.cursors && w.store.cursors[w.pending[k].ch] == w.pending[k].at
    ensures Fits(w.store, w.pending[k]) <==> Shown(w.pending[k].page) == w.pending[k].rows
  {
    EmptyWorldInv();
    RunKeepsWorld(EMPTY_WORLD, steps, w);
    assert ChannelInv(w, w.pending[k].ch) && PendingInv(w, k);
  }
}
