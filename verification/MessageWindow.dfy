/**
 * The per-channel message cache and the server log it must agree with. The
 * store's actions are functions from one state to the next; the log, the pages
 * read from it and the frames that announce its changes are the environment.
 */
module MessageWindow {
  import opened Prelude

  const MAX_LIVE_MESSAGES := 500

  datatype Reaction = Reaction(user: string, emoji: string)

  /** `key` is the position of (created_at, id) in the channel's order; a local message has not reached the server. */
  datatype Message = Message(id: string, key: int, body: string, reactions: seq<Reaction>, local: bool)

  /** An opaque server token: empty, or the keyset position of the oldest row of a page. */
  datatype Cursor = Empty | Before(key: int)

  datatype Store = Store(
    messages: map<string, seq<Message>>,
    cursors: map<string, Cursor>,
    hasMore: map<string, bool>)

  // ---------------------------------------------------------------------------
  // The store's actions
  // ---------------------------------------------------------------------------

  function Reverse(ms: seq<Message>): seq<Message> {
    if ms == [] then [] else Reverse(ms[1..]) + [ms[0]]
  }

  function List(s: Store, ch: string): seq<Message> {
    if ch in s.messages then s.messages[ch] else []
  }

  /** The list with the first message of that id replaced, if there is one. */
  function Replace(list: seq<Message>, m: Message): Option<seq<Message>> {
    if list == [] then None
    else if list[0].id == m.id then Some([m] + list[1..])
    else match Replace(list[1..], m)
      case None => None
      case Some(rest) => Some([list[0]] + rest)
  }

  function Discard(list: seq<Message>, id: string): seq<Message> {
    if list == [] then []
    else if list[0].id == id then Discard(list[1..], id)
    else [list[0]] + Discard(list[1..], id)
  }

  function SetMessages(s: Store, ch: string, msgs: seq<Message>, cursor: Cursor, more: bool): Store {
    Store(s.messages[ch := Reverse(msgs)], s.cursors[ch := cursor], s.hasMore[ch := more])
  }

  function PrependMessages(s: Store, ch: string, older: seq<Message>, cursor: Cursor, more: bool): Store {
    Store(s.messages[ch := Reverse(older) + List(s, ch)], s.cursors[ch := cursor], s.hasMore[ch := more])
  }

  /** Keep the newest `keep`, and give up the cursor: it points past the messages just dropped. */
  function Shorten(s: Store, ch: string, list: seq<Message>, keep: nat): Store
    requires keep <= |list|
  {
    Store(s.messages[ch := list[|list| - keep..]], s.cursors[ch := Empty], s.hasMore[ch := true])
  }

  function AddMessage(s: Store, ch: string, m: Message): Store {
    var list := List(s, ch);
    match Replace(list, m)
    case Some(replaced) => s.(messages := s.messages[ch := replaced])
    case None =>
      var appended := list + [m];
      if |appended| <= MAX_LIVE_MESSAGES then s.(messages := s.messages[ch := appended])
      else Shorten(s, ch, appended, MAX_LIVE_MESSAGES)
  }

  function UpdateMessage(s: Store, ch: string, m: Message): Store {
    match Replace(List(s, ch), m)
    case Some(replaced) => s.(messages := s.messages[ch := replaced])
    case None => s
  }

  function RemoveMessage(s: Store, ch: string, id: string): Store {
    if ch !in s.messages || Discard(s.messages[ch], id) == s.messages[ch] then s
    else s.(messages := s.messages[ch := Discard(s.messages[ch], id)])
  }

  function Unreact(rs: seq<Reaction>, r: Reaction): seq<Reaction> {
    if rs == [] then [] else if rs[0] == r then Unreact(rs[1..], r) else [rs[0]] + Unreact(rs[1..], r)
  }

  function React(m: Message, r: Reaction, added: bool): Message {
    m.(reactions := Unreact(m.reactions, r) + (if added then [r] else []))
  }

  function Find(list: seq<Message>, id: string): Option<Message> {
    if list == [] then None else if list[0].id == id then Some(list[0]) else Find(list[1..], id)
  }

  function ApplyReaction(s: Store, ch: string, id: string, r: Reaction, added: bool): Store {
    match Find(List(s, ch), id)
    case None => s
    case Some(m) => UpdateMessage(s, ch, React(m, r, added))
  }

  function ClearChannel(s: Store, ch: string): Store {
    Store(s.messages - {ch}, s.cursors - {ch}, s.hasMore - {ch})
  }

  function TrimChannel(s: Store, ch: string, keep: nat): Store {
    if ch !in s.messages || |s.messages[ch]| <= keep then s else Shorten(s, ch, s.messages[ch], keep)
  }

  // ---------------------------------------------------------------------------
  // The server's log
  // ---------------------------------------------------------------------------

  /** One channel's live messages in key order; `newest` bounds every key ever given out. */
  datatype Log = Log(entries: seq<Message>, newest: int)

  predicate Ascending(entries: seq<Message>) {
    forall i, j :: 0 <= i < j < |entries| ==> entries[i].key < entries[j].key
  }

  predicate DistinctIds(list: seq<Message>) {
    forall i, j :: 0 <= i < j < |list| ==> list[i].id != list[j].id
  }

  predicate LogOk(log: Log) {
    && Ascending(log.entries)
    && DistinctIds(log.entries)
    && forall m :: m in log.entries ==> !m.local && m.key <= log.newest
  }

  /** Entries at or after a keyset position, and those before it. */
  function From(entries: seq<Message>, key: int): seq<Message> {
    if entries == [] then []
    else if entries[0].key >= key then [entries[0]] + From(entries[1..], key)
    else From(entries[1..], key)
  }

  function Below(entries: seq<Message>, key: int): seq<Message> {
    if entries == [] then []
    else if entries[0].key < key then [entries[0]] + Below(entries[1..], key)
    else Below(entries[1..], key)
  }

  /** Every entry with this message's id, replaced by it. */
  function Put(entries: seq<Message>, m: Message): seq<Message> {
    if entries == [] then [] else [if entries[0].id == m.id then m else entries[0]] + Put(entries[1..], m)
  }

  function Newest(entries: seq<Message>, limit: nat): seq<Message> {
    if |entries| <= limit then entries else entries[|entries| - limit..]
  }

  /** A page as the server answers it: newest first, with the keyset position of its last row. */
  datatype Page = Page(rows: seq<Message>, cursor: Cursor, more: bool)

  function ReadPage(entries: seq<Message>, at: Cursor, limit: nat): Page {
    var matching := if at.Empty? then entries else Below(entries, at.key);
    var rows := Newest(matching, limit);
    Page(Reverse(rows), EdgeOf(rows), |matching| > limit)
  }

  function EdgeOf(rows: seq<Message>): Cursor {
    if rows == [] then Empty else Before(rows[0].key)
  }

  // ---------------------------------------------------------------------------
  // Agreement
  // ---------------------------------------------------------------------------

  /** The part of a list the server knows about. */
  function Persisted(list: seq<Message>): seq<Message> {
    if list == [] then []
    else if list[0].local then Persisted(list[1..])
    else [list[0]] + Persisted(list[1..])
  }

  predicate IsSuffix(part: seq<Message>, whole: seq<Message>) {
    |part| <= |whole| && part == whole[|whole| - |part|..]
  }

  /** The list is a contiguous suffix of the log, a cursor denotes its left edge, and no more means all of it. */
  predicate Agrees(list: seq<Message>, cursor: Option<Cursor>, more: Option<bool>, log: Log) {
    && IsSuffix(Persisted(list), log.entries)
    && (cursor.Some? && cursor.value.Before? ==>
          Persisted(list) == From(log.entries, cursor.value.key) && cursor.value.key <= log.newest)
    && (more == Some(false) ==> Persisted(list) == log.entries)
  }

  function Entry<T>(m: map<string, T>, ch: string): Option<T> {
    if ch in m then Some(m[ch]) else None
  }

  predicate WindowInv(s: Store, ch: string, log: Log) {
    && LogOk(log)
    && DistinctIds(List(s, ch))
    && Agrees(List(s, ch), Entry(s.cursors, ch), Entry(s.hasMore, ch), log)
  }

  // ---------------------------------------------------------------------------
  // Lists
  // ---------------------------------------------------------------------------

  lemma {:induction false} ReverseConcat(a: seq<Message>, b: seq<Message>)
    ensures Reverse(a + b) == Reverse(b) + Reverse(a)
  {
    if a == [] {
      assert a + b == b;
    } else {
      assert (a + b)[1..] == a[1..] + b;
      ReverseConcat(a[1..], b);
    }
  }

  lemma {:induction false} ReverseTwice(ms: seq<Message>)
    ensures Reverse(Reverse(ms)) == ms
  {
    if ms != [] {
      ReverseConcat(Reverse(ms[1..]), [ms[0]]);
      ReverseTwice(ms[1..]);
      assert Reverse([ms[0]]) == [ms[0]];
    }
  }

  lemma {:induction false} PersistedConcat(a: seq<Message>, b: seq<Message>)
    ensures Persisted(a + b) == Persisted(a) + Persisted(b)
  {
    if a == [] {
      assert a + b == b;
    } else {
      assert (a + b)[1..] == a[1..] + b;
      PersistedConcat(a[1..], b);
    }
  }

  lemma {:induction false} PersistedIsIdentity(entries: seq<Message>)
    requires forall i :: 0 <= i < |entries| ==> !entries[i].local
    ensures Persisted(entries) == entries
  {
    if entries != [] {
      PersistedIsIdentity(entries[1..]);
    }
  }

  lemma PersistedOfATail(list: seq<Message>, k: nat)
    requires k <= |list|
    ensures IsSuffix(Persisted(list[k..]), Persisted(list))
  {
    assert list == list[..k] + list[k..];
    PersistedConcat(list[..k], list[k..]);
  }

  lemma SuffixOfSuffix(a: seq<Message>, b: seq<Message>, c: seq<Message>)
    requires IsSuffix(a, b) && IsSuffix(b, c)
    ensures IsSuffix(a, c)
  {
  }

  lemma {:induction false} PutConcat(a: seq<Message>, b: seq<Message>, m: Message)
    ensures Put(a + b, m) == Put(a, m) + Put(b, m) && |Put(a, m)| == |a|
  {
    if a == [] {
      assert a + b == b;
    } else {
      assert (a + b)[1..] == a[1..] + b;
      PutConcat(a[1..], b, m);
    }
  }

  lemma {:induction false} DiscardConcat(a: seq<Message>, b: seq<Message>, id: string)
    ensures Discard(a + b, id) == Discard(a, id) + Discard(b, id)
  {
    if a == [] {
      assert a + b == b;
    } else {
      assert (a + b)[1..] == a[1..] + b;
      DiscardConcat(a[1..], b, id);
    }
  }

  lemma PutKeepsSuffix(part: seq<Message>, whole: seq<Message>, m: Message)
    requires IsSuffix(part, whole)
    ensures IsSuffix(Put(part, m), Put(whole, m))
  {
    var head := whole[..|whole| - |part|];
    assert whole == head + part;
    PutConcat(head, part, m);
    PutConcat(part, [], m);
  }

  lemma DiscardKeepsSuffix(part: seq<Message>, whole: seq<Message>, id: string)
    requires IsSuffix(part, whole)
    ensures IsSuffix(Discard(part, id), Discard(whole, id))
  {
    var head := whole[..|whole| - |part|];
    assert whole == head + part;
    DiscardConcat(head, part, id);
  }

  /** In a list without duplicates, replacing the first match is replacing every match. */
  lemma {:induction false} ReplaceIsPut(list: seq<Message>, m: Message)
    requires DistinctIds(list)
    ensures Replace(list, m).None? ==> Put(list, m) == list && forall i :: 0 <= i < |list| ==> list[i].id != m.id
    ensures Replace(list, m).Some? ==> Replace(list, m).value == Put(list, m)
    ensures Find(list, m.id).None? <==> Replace(list, m).None?
  {
    if list != [] {
      assert forall i :: 0 <= i < |list[1..]| ==> list[1..][i] == list[i + 1];
      ReplaceIsPut(list[1..], m);
      if list[0].id == m.id {
        PutElsewhere(list[1..], m);
      }
    }
  }

  lemma {:induction false} PutElsewhere(list: seq<Message>, m: Message)
    requires forall i :: 0 <= i < |list| ==> list[i].id != m.id
    ensures Put(list, m) == list
  {
    if list != [] {
      PutElsewhere(list[1..], m);
    }
  }

  lemma {:induction false} PutAt(list: seq<Message>, m: Message)
    ensures |Put(list, m)| == |list|
    ensures forall i :: 0 <= i < |list| ==> Put(list, m)[i] == if list[i].id == m.id then m else list[i]
  {
    if list != [] {
      PutAt(list[1..], m);
    }
  }

  /** Editing commutes with dropping the local messages, as long as no local message has that id. */
  lemma {:induction false} PersistedPut(list: seq<Message>, m: Message)
    requires !m.local && forall i :: 0 <= i < |list| && list[i].local ==> list[i].id != m.id
    ensures Persisted(Put(list, m)) == Put(Persisted(list), m)
  {
    if list != [] {
      PersistedPut(list[1..], m);
      assert Put(list, m)[1..] == Put(list[1..], m);
      assert !list[0].local ==> Persisted(list)[1..] == Persisted(list[1..]);
    }
  }

  lemma {:induction false} PersistedDiscard(list: seq<Message>, id: string)
    ensures Persisted(Discard(list, id)) == Discard(Persisted(list), id)
  {
    if list != [] {
      PersistedDiscard(list[1..], id);
      assert !list[0].local ==> Persisted(list)[1..] == Persisted(list[1..]);
      if list[0].id != id {
        assert Discard(list, id)[1..] == Discard(list[1..], id);
      }
    }
  }

  lemma {:induction false} DiscardIsDrawnFrom(list: seq<Message>, id: string)
    ensures forall m :: m in Discard(list, id) <==> m in list && m.id != id
    ensures DistinctIds(list) ==> DistinctIds(Discard(list, id))
  {
    if list != [] {
      DiscardIsDrawnFrom(list[1..], id);
      assert forall i :: 0 <= i < |list[1..]| ==> list[1..][i] == list[i + 1];
      if DistinctIds(list) && list[0].id != id {
        forall j | 0 <= j < |Discard(list[1..], id)| ensures Discard(list[1..], id)[j].id != list[0].id {
          assert Discard(list[1..], id)[j] in list[1..];
        }
      }
    }
  }

  // ---------------------------------------------------------------------------
  // Keyset positions
  // ---------------------------------------------------------------------------

  lemma {:induction false} FromSnoc(entries: seq<Message>, m: Message, key: int)
    requires m.key >= key
    ensures From(entries + [m], key) == From(entries, key) + [m]
  {
    if entries == [] {
      assert entries + [m] == [m];
    } else {
      assert (entries + [m])[1..] == entries[1..] + [m];
      FromSnoc(entries[1..], m, key);
    }
  }

  lemma {:induction false} FromPut(entries: seq<Message>, m: Message, key: int)
    requires forall i :: 0 <= i < |entries| && entries[i].id == m.id ==> entries[i].key == m.key
    ensures From(Put(entries, m), key) == Put(From(entries, key), m)
  {
    if entries != [] {
      FromPut(entries[1..], m, key);
      assert entries[0].key >= key ==> From(entries, key)[1..] == From(entries[1..], key);
      assert Put(entries, m)[1..] == Put(entries[1..], m);
    }
  }

  lemma {:induction false} FromDiscard(entries: seq<Message>, id: string, key: int)
    ensures From(Discard(entries, id), key) == Discard(From(entries, key), id)
  {
    if entries != [] {
      FromDiscard(entries[1..], id, key);
      assert entries[0].key >= key ==> From(entries, key)[1..] == From(entries[1..], key);
      if entries[0].id != id {
        assert Discard(entries, id)[1..] == Discard(entries[1..], id);
      }
    }
  }

  /** A keyset position splits an ordered log in two. */
  lemma {:induction false} SplitAt(entries: seq<Message>, key: int)
    requires Ascending(entries)
    ensures entries == Below(entries, key) + From(entries, key)
  {
    if entries != [] {
      assert forall i :: 0 <= i < |entries[1..]| ==> entries[1..][i] == entries[i + 1];
      if entries[0].key >= key {
        NothingBelow(entries, key);
      } else {
        SplitAt(entries[1..], key);
        assert entries == [entries[0]] + entries[1..];
      }
    }
  }

  lemma {:induction false} NothingBelow(entries: seq<Message>, key: int)
    requires forall i :: 0 <= i < |entries| ==> entries[i].key >= key
    ensures Below(entries, key) == [] && From(entries, key) == entries
  {
    if entries != [] {
      NothingBelow(entries[1..], key);
    }
  }

  /** From the key at index i on, an ordered log is its tail. */
  lemma {:induction false} FromIsATail(entries: seq<Message>, i: nat)
    requires i < |entries| && Ascending(entries)
    ensures From(entries, entries[i].key) == entries[i..]
    decreases |entries|
  {
    assert forall k :: 0 <= k < |entries[1..]| ==> entries[1..][k] == entries[k + 1];
    if i == 0 {
      assert forall k :: 0 <= k < |entries| ==> entries[k].key >= entries[0].key;
      NothingBelow(entries, entries[0].key);
    } else {
      FromIsATail(entries[1..], i - 1);
      assert entries[1..][i - 1..] == entries[i..];
    }
  }

  // ---------------------------------------------------------------------------
  // Each event keeps the window in agreement
  // ---------------------------------------------------------------------------

  lemma TailAgrees(list: seq<Message>, log: Log, start: nat, rows: seq<Message>)
    requires LogOk(log) && start <= |log.entries| && Persisted(list) == log.entries[start..]
    requires |rows| <= |log.entries| - start && rows == log.entries[start..start + |rows|]
    ensures Agrees(list, Some(EdgeOf(rows)), Some(start > 0), log)
  {
    if rows != [] {
      FromIsATail(log.entries, start);
      assert log.entries[start] in log.entries;
    }
  }

  lemma TailOfLog(log: Log, start: nat)
    requires LogOk(log) && start <= |log.entries|
    ensures Persisted(log.entries[start..]) == log.entries[start..] && DistinctIds(log.entries[start..])
  {
    var rows := log.entries[start..];
    forall i | 0 <= i < |rows| ensures !rows[i].local {
      assert log.entries[start + i] in log.entries;
    }
    PersistedIsIdentity(rows);
  }

  /** The newest rows of the log, with the position of the oldest of them. */
  lemma NewestAgrees(log: Log, limit: nat)
    requires LogOk(log) && limit > 0
    ensures var rows := Newest(log.entries, limit);
            && DistinctIds(rows)
            && Agrees(rows, Some(EdgeOf(rows)), Some(|log.entries| > limit), log)
  {
    var start := if |log.entries| <= limit then 0 else |log.entries| - limit;
    var rows := log.entries[start..];
    assert rows == Newest(log.entries, limit);
    TailOfLog(log, start);
    TailAgrees(rows, log, start, rows);
  }

  /** Opening or refetching a channel from the top. */
  lemma FirstPageAgrees(s: Store, ch: string, log: Log, limit: nat)
    requires LogOk(log) && limit > 0
    ensures var page := ReadPage(log.entries, Empty, limit);
            WindowInv(SetMessages(s, ch, page.rows, page.cursor, page.more), ch, log)
  {
    NewestAgrees(log, limit);
    ReverseTwice(Newest(log.entries, limit));
  }

  /** Rows that end where the window begins extend it. */
  lemma ExtendedAgrees(list: seq<Message>, log: Log, at: nat, start: nat)
    requires LogOk(log) && DistinctIds(list) && start <= at <= |log.entries| && Persisted(list) == log.entries[at..]
    requires forall m, n :: m in list && m.local && n in log.entries ==> m.id != n.id
    ensures var rows := log.entries[start..at];
            && DistinctIds(rows + list)
            && Persisted(rows + list) == log.entries[start..]
  {
    var rows := log.entries[start..at];
    forall i | 0 <= i < |rows| ensures !rows[i].local {
      assert rows[i] == log.entries[start + i];
      assert log.entries[start + i] in log.entries;
    }
    PersistedIsIdentity(rows);
    PersistedConcat(rows, list);
    assert rows + log.entries[at..] == log.entries[start..];
    DistinctJoin(rows, list, log.entries, at);
  }

  /** The rows just below a window's left edge extend it. */
  lemma OlderRowsAgree(list: seq<Message>, key: int, log: Log, limit: nat)
    requires LogOk(log) && DistinctIds(list) && limit > 0 && Persisted(list) == From(log.entries, key)
    requires forall m, n :: m in list && m.local && n in log.entries ==> m.id != n.id
    ensures var older := Below(log.entries, key);
            var rows := Newest(older, limit);
            && DistinctIds(rows + list)
            && Agrees(rows + list, Some(EdgeOf(rows)), Some(|older| > limit), log)
  {
    var older := Below(log.entries, key);
    var rows := Newest(older, limit);
    var at, start := |older|, |older| - |rows|;
    SplitAt(log.entries, key);
    assert older == log.entries[..at] && rows == log.entries[start..at];
    assert From(log.entries, key) == log.entries[at..];
    ExtendedAgrees(list, log, at, start);
    TailAgrees(rows + list, log, start, rows);
  }

  /** One further page back, asked for with the stored cursor. */
  lemma OlderPageAgrees(s: Store, ch: string, log: Log, limit: nat)
    requires WindowInv(s, ch, log) && limit > 0 && ch in s.cursors && s.cursors[ch].Before?
    requires forall m, n :: m in List(s, ch) && m.local && n in log.entries ==> m.id != n.id
    ensures var page := ReadPage(log.entries, s.cursors[ch], limit);
            WindowInv(PrependMessages(s, ch, page.rows, page.cursor, page.more), ch, log)
  {
    var key := s.cursors[ch].key;
    OlderRowsAgree(List(s, ch), key, log, limit);
    ReverseTwice(Newest(Below(log.entries, key), limit));
  }

  lemma {:induction false} PersistedIsDrawnFrom(list: seq<Message>)
    ensures forall m :: m in Persisted(list) <==> m in list && !m.local
  {
    if list != [] {
      PersistedIsDrawnFrom(list[1..]);
    }
  }

  lemma DistinctJoin(rows: seq<Message>, list: seq<Message>, entries: seq<Message>, at: nat)
    requires at <= |entries| && |rows| <= at && rows == entries[at - |rows|..at]
    requires DistinctIds(entries) && DistinctIds(list) && Persisted(list) == entries[at..]
    requires forall m, n :: m in list && m.local && n in entries ==> m.id != n.id
    ensures DistinctIds(rows + list)
  {
    PersistedIsDrawnFrom(list);
    forall i, j | 0 <= i < |rows| && 0 <= j < |list| ensures rows[i].id != list[j].id {
      assert rows[i] == entries[at - |rows| + i];
      if !list[j].local {
        assert list[j] in entries[at..];
        var k :| 0 <= k < |entries[at..]| && entries[at..][k] == list[j];
        assert entries[at + k] == list[j];
      }
    }
  }

  lemma ShortenAgrees(s: Store, ch: string, list: seq<Message>, keep: nat, log: Log)
    requires keep <= |list| && LogOk(log) && DistinctIds(list) && IsSuffix(Persisted(list), log.entries)
    ensures WindowInv(Shorten(s, ch, list, keep), ch, log)
  {
    PersistedOfATail(list, |list| - keep);
    SuffixOfSuffix(Persisted(list[|list| - keep..]), Persisted(list), log.entries);
  }

  lemma AppendedAgrees(list: seq<Message>, cursor: Option<Cursor>, more: Option<bool>, log: Log, m: Message)
    requires LogOk(log) && Agrees(list, cursor, more, log) && !m.local && m.key > log.newest
    requires forall n :: n in log.entries ==> n.id != m.id
    ensures LogOk(Log(log.entries + [m], m.key))
    ensures Agrees(list + [m], cursor, more, Log(log.entries + [m], m.key))
  {
    PersistedConcat(list, [m]);
    assert Persisted([m]) == [m];
    if cursor.Some? && cursor.value.Before? {
      FromSnoc(log.entries, m, cursor.value.key);
    }
  }

  /** A new message reaches the log and its frame reaches the store. */
  lemma NewMessageAgrees(s: Store, ch: string, log: Log, m: Message)
    requires WindowInv(s, ch, log) && !m.local && m.key > log.newest
    requires forall n :: n in List(s, ch) || n in log.entries ==> n.id != m.id
    ensures WindowInv(AddMessage(s, ch, m), ch, Log(log.entries + [m], m.key))
  {
    var list := List(s, ch);
    var log' := Log(log.entries + [m], m.key);
    ReplaceIsPut(list, m);
    FoundIsThere(list, m.id);
    AppendedAgrees(list, Entry(s.cursors, ch), Entry(s.hasMore, ch), log, m);
    assert DistinctIds(list + [m]);
    if |list + [m]| > MAX_LIVE_MESSAGES {
      ShortenAgrees(s, ch, list + [m], MAX_LIVE_MESSAGES, log');
    }
  }

  lemma {:induction false} FoundIsThere(list: seq<Message>, id: string)
    ensures Find(list, id).Some? ==> Find(list, id).value in list && Find(list, id).value.id == id
    ensures Find(list, id).None? ==> forall m :: m in list ==> m.id != id
  {
    if list != [] {
      FoundIsThere(list[1..], id);
    }
  }

  /** An optimistic message, or any other the server has never seen, is appended without disturbing the rest. */
  lemma LocalMessageAgrees(s: Store, ch: string, log: Log, m: Message)
    requires WindowInv(s, ch, log) && m.local && forall n :: n in List(s, ch) ==> n.id != m.id
    ensures WindowInv(AddMessage(s, ch, m), ch, log)
  {
    var list := List(s, ch);
    ReplaceIsPut(list, m);
    FoundIsThere(list, m.id);
    PersistedConcat(list, [m]);
    assert Persisted([m]) == [];
    assert DistinctIds(list + [m]);
    if |list + [m]| > MAX_LIVE_MESSAGES {
      ShortenAgrees(s, ch, list + [m], MAX_LIVE_MESSAGES, log);
    }
  }

  /** The log with one message's contents replaced. */
  function Edit(log: Log, m: Message): Log {
    log.(entries := Put(log.entries, m))
  }

  predicate SameIdentity(list: seq<Message>, m: Message) {
    forall n :: n in list && n.id == m.id ==> n.key == m.key && !n.local
  }

  lemma PutKeepsLog(log: Log, m: Message)
    requires LogOk(log) && !m.local && SameIdentity(log.entries, m)
    ensures LogOk(Edit(log, m))
  {
    PutAt(log.entries, m);
    var es := Put(log.entries, m);
    forall n | n in es ensures !n.local && n.key <= log.newest {
      var i :| 0 <= i < |es| && es[i] == n;
      assert log.entries[i] in log.entries;
    }
    forall i | 0 <= i < |es| ensures es[i].key == log.entries[i].key && es[i].id == log.entries[i].id {
      assert log.entries[i] in log.entries;
    }
  }

  lemma PutKeepsDistinct(list: seq<Message>, m: Message)
    requires DistinctIds(list)
    ensures DistinctIds(Put(list, m))
  {
    PutAt(list, m);
  }

  lemma EditedListAgrees(list: seq<Message>, cursor: Option<Cursor>, more: Option<bool>, log: Log, m: Message)
    requires Agrees(list, cursor, more, log) && !m.local && SameIdentity(log.entries, m) && SameIdentity(list, m)
    ensures Agrees(Put(list, m), cursor, more, Edit(log, m))
  {
    PersistedPut(list, m);
    PutKeepsSuffix(Persisted(list), log.entries, m);
    if cursor.Some? && cursor.value.Before? {
      FromPut(log.entries, m, cursor.value.key);
    }
  }

  /** An edit changes the log, and the window if it is in it; a message outside is ignored. */
  lemma EditAgrees(s: Store, ch: string, log: Log, m: Message)
    requires WindowInv(s, ch, log) && !m.local && SameIdentity(log.entries, m) && SameIdentity(List(s, ch), m)
    ensures WindowInv(UpdateMessage(s, ch, m), ch, Edit(log, m))
    ensures List(UpdateMessage(s, ch, m), ch) == Put(List(s, ch), m)
  {
    var list := List(s, ch);
    ReplaceIsPut(list, m);
    assert List(UpdateMessage(s, ch, m), ch) == Put(list, m);
    PutKeepsDistinct(list, m);
    PutKeepsLog(log, m);
    EditedListAgrees(list, Entry(s.cursors, ch), Entry(s.hasMore, ch), log, m);
  }

  lemma {:induction false} ReplaceByItself(list: seq<Message>, m: Message)
    requires DistinctIds(list) && m in list
    ensures Replace(list, m) == Some(list)
  {
    assert list == [list[0]] + list[1..];
    assert forall i :: 0 <= i < |list[1..]| ==> list[1..][i] == list[i + 1];
    if list[0].id == m.id {
      var i :| 0 <= i < |list| && list[i] == m;
      assert i == 0;
    } else {
      ReplaceByItself(list[1..], m);
    }
  }

  /** A frame or response repeating a message already in the window changes nothing. */
  lemma EchoAgrees(s: Store, ch: string, log: Log, m: Message)
    requires WindowInv(s, ch, log) && m in List(s, ch)
    ensures AddMessage(s, ch, m) == s
  {
    ReplaceByItself(List(s, ch), m);
    assert s.messages[ch := s.messages[ch]] == s.messages;
  }

  lemma DeletionAgrees(s: Store, ch: string, log: Log, id: string)
    requires WindowInv(s, ch, log)
    ensures WindowInv(RemoveMessage(s, ch, id), ch, log.(entries := Discard(log.entries, id)))
  {
    var list := List(s, ch);
    DiscardIsDrawnFrom(list, id);
    DiscardKeepsOrder(log, id);
    PersistedDiscard(list, id);
    DiscardKeepsSuffix(Persisted(list), log.entries, id);
    assert List(RemoveMessage(s, ch, id), ch) == Discard(list, id);
    if ch in s.cursors && s.cursors[ch].Before? {
      FromDiscard(log.entries, id, s.cursors[ch].key);
    }
  }

  lemma DiscardKeepsOrder(log: Log, id: string)
    requires LogOk(log)
    ensures LogOk(log.(entries := Discard(log.entries, id)))
  {
    DiscardKeepsAscending(log.entries, id);
    DiscardIsDrawnFrom(log.entries, id);
  }

  lemma {:induction false} DiscardKeepsAscending(entries: seq<Message>, id: string)
    requires Ascending(entries)
    ensures Ascending(Discard(entries, id))
  {
    if entries != [] {
      var rest := Discard(entries[1..], id);
      assert forall i :: 0 <= i < |entries[1..]| ==> entries[1..][i] == entries[i + 1];
      DiscardKeepsAscending(entries[1..], id);
      DiscardIsDrawnFrom(entries[1..], id);
      forall j | 0 <= j < |rest| ensures entries[0].key < rest[j].key {
        assert rest[j] in entries[1..];
      }
    }
  }

  /** Discarding a local message never touches the log. */
  lemma LocalDeletionAgrees(s: Store, ch: string, log: Log, id: string)
    requires WindowInv(s, ch, log) && forall m :: m in log.entries ==> m.id != id
    ensures WindowInv(RemoveMessage(s, ch, id), ch, log)
  {
    DeletionAgrees(s, ch, log, id);
    DiscardElsewhere(log.entries, id);
  }

  lemma {:induction false} DiscardElsewhere(list: seq<Message>, id: string)
    requires forall m :: m in list ==> m.id != id
    ensures Discard(list, id) == list
  {
    if list != [] {
      DiscardElsewhere(list[1..], id);
    }
  }

  lemma TrimAgrees(s: Store, ch: string, log: Log, keep: nat)
    requires WindowInv(s, ch, log)
    ensures WindowInv(TrimChannel(s, ch, keep), ch, log)
  {
    if ch in s.messages && |s.messages[ch]| > keep {
      ShortenAgrees(s, ch, s.messages[ch], keep, log);
    }
  }

  lemma ClearAgrees(s: Store, ch: string, log: Log)
    requires LogOk(log)
    ensures WindowInv(ClearChannel(s, ch), ch, log)
  {
  }
}
