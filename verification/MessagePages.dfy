/** Exactly when a late page, a late send response and a late edit response leave the window in agreement with the log. */
module MessagePages {
  import opened Prelude
  import opened MessageWindow
  import opened MessageReplies

  /** What the server promises of a change: keys grow, ids are unique, an edit keeps the message's place. */
  predicate Fine(log: Log, f: Frame) {
    match f
    case New(m) => !m.local && m.key > log.newest && forall n :: n in log.entries ==> n.id != m.id
    case Changed(m) => !m.local && SameIdentity(log.entries, m)
    case Reacted(_, _, _) => true
    case Gone(_) => true
  }

  lemma FineKeepsKeys(log: Log, f: Frame)
    requires Fine(log, f)
    ensures KeepsKeys(log.entries, f)
  {
    if f.Changed? {
      forall i | 0 <= i < |log.entries| && log.entries[i].id == f.m.id ensures log.entries[i].key == f.m.key {
        assert log.entries[i] in log.entries;
      }
    }
  }

  // ---------------------------------------------------------------------------
  // A page between its reading and its application
  // ---------------------------------------------------------------------------

  function Upper(at: Cursor): Option<int> {
    if at.Before? then Some(at.key) else None
  }

  /** Where a page starts: at its oldest row, or at the beginning of the log if nothing is older. */
  function Lowest(read: seq<Message>, more: bool): Option<int> {
    if more && read != [] then Some(read[0].key) else None
  }

  /** A page as the list shows it, oldest first. */
  function Shown(page: Page): seq<Message> {
    Reverse(page.rows)
  }

  /**
   * A page read at some earlier moment at a position, and `rows`, the same page with every frame since applied to
   * it: the latter is now the stretch of the log that the page covers.
   */
  predicate InFlight(log: Log, at: Cursor, page: Page, rows: seq<Message>) {
    var read := Shown(page);
    && page.cursor == EdgeOf(read)
    && (page.more ==> read != [])
    && (forall i :: 0 <= i < |read| ==> !read[i].local)
    && (read != [] ==> read[0].key <= log.newest)
    && (at.Before? ==> at.key <= log.newest && |rows| <= |read| && forall i :: 0 <= i < |read| ==> read[i].key < at.key)
    && rows == Stretch(log.entries, Lowest(read, page.more), Upper(at))
  }

  /** A frame reaches a page in flight; what is new lies above a further page. */
  function Followed(at: Cursor, rows: seq<Message>, f: Frame): seq<Message> {
    if at.Before? then Touch(rows, f) else Grow(rows, f)
  }

  lemma {:induction false} StretchIsAscending(entries: seq<Message>, lo: Option<int>, hi: Option<int>)
    requires Ascending(entries)
    ensures Ascending(Stretch(entries, lo, hi))
    decreases |entries|
  {
    if entries != [] {
      var rest := entries[1..];
      assert forall i :: 0 <= i < |rest| ==> rest[i] == entries[i + 1];
      StretchIsAscending(rest, lo, hi);
      forall j | 0 <= j < |Stretch(rest, lo, hi)| ensures entries[0].key < Stretch(rest, lo, hi)[j].key {
        InStretch(rest, lo, hi, Stretch(rest, lo, hi)[j]);
      }
    }
  }

  lemma MatchingRows(log: Log, at: Cursor)
    ensures (if at.Empty? then log.entries else Below(log.entries, at.key)) == Stretch(log.entries, None, Upper(at))
  {
    if at.Before? {
      StretchBelow(log.entries, at.key);
    } else {
      StretchAll(log.entries);
    }
  }

  lemma NewestOfAStretch(log: Log, at: Cursor, limit: nat)
    requires LogOk(log) && limit > 0
    ensures var matching := Stretch(log.entries, None, Upper(at));
            var rows := Newest(matching, limit);
            && rows == Stretch(log.entries, Lowest(rows, |matching| > limit), Upper(at))
            && forall i :: 0 <= i < |rows| ==> rows[i] in log.entries && Within(rows[i].key, None, Upper(at))
  {
    var matching := Stretch(log.entries, None, Upper(at));
    var rows := Newest(matching, limit);
    StretchIsAscending(log.entries, None, Upper(at));
    if |matching| > limit {
      FromIsATail(matching, |matching| - limit);
      StretchOfStretch(log.entries, rows[0].key, Upper(at));
    }
    forall i | 0 <= i < |rows| ensures rows[i] in log.entries && Within(rows[i].key, None, Upper(at)) {
      assert rows[i] in matching;
      InStretch(log.entries, None, Upper(at), rows[i]);
    }
  }

  /** A page just read is in flight with itself. */
  lemma JustRead(log: Log, at: Cursor, limit: nat)
    requires LogOk(log) && limit > 0 && (at.Before? ==> at.key <= log.newest)
    ensures var page := ReadPage(log.entries, at, limit); InFlight(log, at, page, Shown(page))
  {
    var matching := Stretch(log.entries, None, Upper(at));
    MatchingRows(log, at);
    NewestOfAStretch(log, at, limit);
    ReverseTwice(Newest(matching, limit));
  }

  /** Frames keep it in flight. */
  lemma FrameKeepsInFlight(log: Log, at: Cursor, page: Page, rows: seq<Message>, f: Frame)
    requires Fine(log, f) && InFlight(log, at, page, rows)
    ensures InFlight(LogAfter(log, f), at, page, Followed(at, rows, f))
  {
    FineKeepsKeys(log, f);
    StretchGrow(log.entries, f, Lowest(Shown(page), page.more), Upper(at));
    TouchShrinks(rows, f);
  }

  lemma NoneAreLocal(read: seq<Message>)
    requires forall i :: 0 <= i < |read| ==> !read[i].local
    ensures Persisted(read) == read
  {
    PersistedIsIdentity(read);
  }

  // ---------------------------------------------------------------------------
  // First pages
  // ---------------------------------------------------------------------------

  /** A list whose server part is a tail of the log agrees, whatever is said to be older as long as it is. */
  lemma TailAgreesWith(list: seq<Message>, log: Log, start: nat, rows: seq<Message>, more: bool)
    requires LogOk(log) && start <= |log.entries| && Persisted(list) == log.entries[start..]
    requires |rows| <= |log.entries| - start && rows == log.entries[start..start + |rows|] && (!more ==> start == 0)
    ensures Agrees(list, Some(EdgeOf(rows)), Some(more), log)
  {
    TailAgrees(list, log, start, rows);
  }

  /** Where the page's stretch starts in the log. */
  lemma StartOf(log: Log, lo: Option<int>) returns (start: nat)
    requires LogOk(log)
    ensures start <= |log.entries| && Stretch(log.entries, lo, None) == log.entries[start..] && (lo.None? ==> start == 0)
  {
    StretchIsATail(log.entries, lo);
    if lo.None? {
      StretchAll(log.entries);
    }
    start := |log.entries| - |Stretch(log.entries, lo, None)|;
  }

  lemma GoodFirstPage(log: Log, page: Page, rows: seq<Message>)
    requires LogOk(log) && InFlight(log, Empty, page, rows) && Shown(page) == rows
    ensures DistinctIds(rows) && Agrees(rows, Some(page.cursor), Some(page.more), log)
  {
    var start := StartOf(log, Lowest(rows, page.more));
    assert rows == log.entries[start..] == log.entries[start..start + |rows|];
    TailOfLog(log, start);
    TailAgreesWith(rows, log, start, rows, page.more);
  }

  lemma BadFirstPage(log: Log, page: Page, rows: seq<Message>)
    requires LogOk(log) && InFlight(log, Empty, page, rows) && Shown(page) != rows
    ensures !Agrees(Shown(page), Some(page.cursor), Some(page.more), log)
  {
    NoneAreLocal(Shown(page));
    if page.more {
      StretchFrom(log.entries, Shown(page)[0].key);
    } else {
      StretchAll(log.entries);
    }
  }

  /** A first page agrees with the log if and only if the frames since it was read have changed nothing in it. */
  lemma FirstPageIff(s: Store, ch: string, log: Log, page: Page, rows: seq<Message>)
    requires LogOk(log) && InFlight(log, Empty, page, rows)
    ensures WindowInv(SetMessages(s, ch, page.rows, page.cursor, page.more), ch, log) <==> Shown(page) == rows
  {
    if Shown(page) == rows {
      GoodFirstPage(log, page, rows);
    } else {
      BadFirstPage(log, page, rows);
    }
  }

  // ---------------------------------------------------------------------------
  // Further pages
  // ---------------------------------------------------------------------------

  /** The page and the window above it, by their places in the log. */
  lemma PlacesOf(log: Log, lo: Option<int>, key: int) returns (start: nat, at: nat)
    requires LogOk(log) && (lo.Some? ==> lo.value <= key)
    ensures start <= at <= |log.entries| && (lo.None? ==> start == 0)
    ensures Stretch(log.entries, lo, Some(key)) == log.entries[start..at] && From(log.entries, key) == log.entries[at..]
  {
    start := StartOf(log, lo);
    StretchJoins(log.entries, lo, key);
    var rows := Stretch(log.entries, lo, Some(key));
    at := start + |rows|;
    assert rows == log.entries[start..][..|rows|] == log.entries[start..at];
    assert From(log.entries, key) == log.entries[start..][|rows|..] == log.entries[at..];
  }

  lemma GoodOlderPage(list: seq<Message>, log: Log, key: int, page: Page, rows: seq<Message>)
    requires LogOk(log) && DistinctIds(list) && InFlight(log, Before(key), page, rows)
    requires forall m, n :: m in list && m.local && n in log.entries ==> m.id != n.id
    requires Shown(page) == rows && Persisted(list) == From(log.entries, key)
    ensures DistinctIds(rows + list) && Agrees(rows + list, Some(page.cursor), Some(page.more), log)
  {
    var start, at := PlacesOf(log, Lowest(rows, page.more), key);
    ExtendedAgrees(list, log, at, start);
    TailAgreesWith(rows + list, log, start, rows, page.more);
  }

  lemma ElementAtACut(a: seq<Message>, b: seq<Message>, c: seq<Message>, d: seq<Message>)
    requires a + b == c + d && |c| < |a|
    ensures |d| > 0 && a[|c|] == d[0]
  {
    assert (a + b)[|c|] == (c + d)[|c|];
  }

  /** One list cut in two places: below and from a key. */
  lemma OneCut(read: seq<Message>, shown: seq<Message>, rows: seq<Message>, window: seq<Message>, key: int)
    requires read + shown == rows + window && |rows| <= |read|
    requires (forall i :: 0 <= i < |read| ==> read[i].key < key) && (forall i :: 0 <= i < |rows| ==> rows[i].key < key)
    requires forall i :: 0 <= i < |window| ==> window[i].key >= key
    ensures read == rows && shown == window
  {
    if |rows| < |read| {
      ElementAtACut(read, shown, rows, window);
    }
    assert read == (read + shown)[..|read|] && rows == (rows + window)[..|rows|];
    assert shown == (read + shown)[|read|..] && window == (rows + window)[|rows|..];
  }

  /** Which keys a page and the window above it may have. */
  lemma KeysOfTheStretch(log: Log, key: int, lo: Option<int>)
    ensures forall i :: 0 <= i < |From(log.entries, key)| ==> From(log.entries, key)[i].key >= key
    ensures forall i :: 0 <= i < |Stretch(log.entries, lo, Some(key))| ==> Stretch(log.entries, lo, Some(key))[i].key < key
  {
    var window, rows := From(log.entries, key), Stretch(log.entries, lo, Some(key));
    StretchFrom(log.entries, key);
    forall i | 0 <= i < |window| ensures window[i].key >= key {
      InStretch(log.entries, Some(key), None, window[i]);
    }
    forall i | 0 <= i < |rows| ensures rows[i].key < key {
      InStretch(log.entries, lo, Some(key), rows[i]);
    }
  }

  /** If the page fits in front of the list, it covers the stretch just below the list's left edge. */
  lemma FittingOlderPage(list: seq<Message>, log: Log, key: int, page: Page, rows: seq<Message>)
    requires LogOk(log) && InFlight(log, Before(key), page, rows)
    requires Agrees(Shown(page) + list, Some(page.cursor), Some(page.more), log)
    ensures Shown(page) == rows && Persisted(list) == From(log.entries, key)
  {
    var read, shown, window := Shown(page), Persisted(list), From(log.entries, key);
    var lo := Lowest(read, page.more);
    NoneAreLocal(read);
    PersistedConcat(read, list);
    CoversTheStretch(log, page, read + shown);
    StretchJoins(log.entries, lo, key);
    KeysOfTheStretch(log, key, lo);
    OneCut(read, shown, rows, window, key);
  }

  lemma CoversTheStretch(log: Log, page: Page, persisted: seq<Message>)
    requires page.cursor == EdgeOf(Shown(page)) && (page.more ==> Shown(page) != [])
    requires page.cursor.Before? ==> persisted == From(log.entries, page.cursor.key)
    requires !page.more ==> persisted == log.entries
    ensures persisted == Stretch(log.entries, Lowest(Shown(page), page.more), None)
  {
    if page.more {
      StretchFrom(log.entries, page.cursor.key);
    } else {
      StretchAll(log.entries);
    }
  }

  /**
   * A further page agrees with the log if and only if the frames since it was read have changed nothing in it and
   * the window still starts at the position it was asked for.
   */
  lemma OlderPageIff(s: Store, ch: string, log: Log, key: int, page: Page, rows: seq<Message>)
    requires WindowInv(s, ch, log) && InFlight(log, Before(key), page, rows)
    requires forall m, n :: m in List(s, ch) && m.local && n in log.entries ==> m.id != n.id
    ensures WindowInv(PrependMessages(s, ch, page.rows, page.cursor, page.more), ch, log)
            <==> Shown(page) == rows && Persisted(List(s, ch)) == From(log.entries, key)
  {
    var list := List(s, ch);
    if Shown(page) == rows && Persisted(list) == From(log.entries, key) {
      GoodOlderPage(list, log, key, page, rows);
    } else if Agrees(Shown(page) + list, Some(page.cursor), Some(page.more), log) {
      FittingOlderPage(list, log, key, page, rows);
    }
  }

  // ---------------------------------------------------------------------------
  // Responses that carry one message
  // ---------------------------------------------------------------------------

  predicate Has(list: seq<Message>, id: string) {
    exists i :: 0 <= i < |list| && list[i].id == id
  }

  predicate NoLocal(list: seq<Message>, id: string) {
    forall i :: 0 <= i < |list| && list[i].local ==> list[i].id != id
  }

  lemma {:induction false} FindIffHas(list: seq<Message>, id: string)
    ensures Find(list, id).Some? <==> Has(list, id)
  {
    if list != [] {
      var rest := list[1..];
      FindIffHas(rest, id);
      if Has(rest, id) {
        var i :| 0 <= i < |rest| && rest[i].id == id;
        assert list[i + 1] == rest[i];
      }
      if Has(list, id) && list[0].id != id {
        var i :| 0 <= i < |list| && list[i].id == id;
        assert rest[i - 1] == list[i];
      }
    }
  }

  /** Replacing a shown message by a different version is noticed. */
  lemma ReplacedIsNoticed(list: seq<Message>, log: Log, m: Message)
    requires DistinctIds(list) && !m.local && NoLocal(list, m.id) && Has(list, m.id) && m !in list
    requires IsSuffix(Persisted(list), log.entries)
    ensures !IsSuffix(Persisted(Put(list, m)), log.entries)
  {
    var shown := Persisted(list);
    var i :| 0 <= i < |list| && list[i].id == m.id;
    PersistedPut(list, m);
    PutAt(shown, m);
    PersistedIsDrawnFrom(list);
    assert list[i] in shown;
    var j :| 0 <= j < |shown| && shown[j] == list[i];
    assert Put(shown, m)[j] == m && shown[j] != m;
  }

  /** Overwriting the shown copy agrees if and only if it is the shown copy. */
  lemma OverwriteIff(s: Store, ch: string, log: Log, m: Message)
    requires WindowInv(s, ch, log) && !m.local && NoLocal(List(s, ch), m.id) && Has(List(s, ch), m.id)
    ensures AddMessage(s, ch, m) == UpdateMessage(s, ch, m)
    ensures WindowInv(AddMessage(s, ch, m), ch, log) <==> m in List(s, ch)
  {
    var list := List(s, ch);
    FindIffHas(list, m.id);
    ReplaceIsPut(list, m);
    if m in list {
      EchoAgrees(s, ch, log, m);
    } else {
      ReplacedIsNoticed(list, log, m);
    }
  }

  /** A late edit response agrees if and only if the message is not loaded, or is shown in that very version. */
  lemma EditResponseIff(s: Store, ch: string, log: Log, m: Message)
    requires WindowInv(s, ch, log) && !m.local && NoLocal(List(s, ch), m.id)
    ensures WindowInv(UpdateMessage(s, ch, m), ch, log) <==> (Has(List(s, ch), m.id) ==> m in List(s, ch))
  {
    FindIffHas(List(s, ch), m.id);
    ReplaceIsPut(List(s, ch), m);
    if Has(List(s, ch), m.id) {
      OverwriteIff(s, ch, log, m);
    }
  }

  /** What of a list stays when one message is appended. */
  function Kept(list: seq<Message>): seq<Message> {
    if |list| < MAX_LIVE_MESSAGES then list else list[|list| - (MAX_LIVE_MESSAGES - 1)..]
  }

  /** A message may become the only server message shown: none other stays, and nothing is claimed about what is older. */
  predicate RoomForOne(list: seq<Message>, cursor: Option<Cursor>, more: Option<bool>) {
    && Persisted(Kept(list)) == []
    && (|list| < MAX_LIVE_MESSAGES ==> !(cursor.Some? && cursor.value.Before?) && more != Some(false))
  }

  lemma Appended(s: Store, ch: string, m: Message)
    requires DistinctIds(List(s, ch)) && !Has(List(s, ch), m.id) && !m.local
    ensures var after, list := AddMessage(s, ch, m), List(s, ch);
            && List(after, ch) == Kept(list) + [m] && Persisted(List(after, ch)) == Persisted(Kept(list)) + [m]
            && (if |list| < MAX_LIVE_MESSAGES then after.cursors == s.cursors && after.hasMore == s.hasMore
                else Entry(after.cursors, ch) == Some(Empty) && Entry(after.hasMore, ch) == Some(true))
  {
    var list := List(s, ch);
    FindIffHas(list, m.id);
    ReplaceIsPut(list, m);
    PersistedConcat(Kept(list), [m]);
    assert Persisted([m]) == [m];
    if |list| >= MAX_LIVE_MESSAGES {
      var all := list + [m];
      assert all[|all| - MAX_LIVE_MESSAGES..] == Kept(list) + [m];
    }
  }

  lemma KeptIsDistinct(list: seq<Message>, m: Message)
    requires DistinctIds(list) && !Has(list, m.id)
    ensures DistinctIds(Kept(list) + [m])
  {
    var kept, cut := Kept(list), |list| - |Kept(list)|;
    var after := kept + [m];
    forall i, j | 0 <= i < j < |after| ensures after[i].id != after[j].id {
      assert after[i] == list[cut + i];
      if j < |kept| {
        assert after[j] == list[cut + j];
      }
    }
  }

  lemma LastIsThere(part: seq<Message>, whole: seq<Message>)
    requires part != [] && IsSuffix(part, whole)
    ensures whole != [] && part[|part| - 1] == whole[|whole| - 1] && part[|part| - 1] in whole
  {
  }

  lemma HasIsMembership(list: seq<Message>, m: Message)
    ensures m in list ==> Has(list, m.id)
  {
  }

  /** If a server message outside the window fits at its end, it is the newest, and no other is shown. */
  lemma FitsOnlyAlone(list: seq<Message>, log: Log, m: Message)
    requires LogOk(log) && !Has(list, m.id) && IsSuffix(Persisted(list), log.entries)
    requires IsSuffix(Persisted(Kept(list)) + [m], log.entries)
    ensures Persisted(Kept(list)) == [] && From(log.entries, m.key) == [m]
  {
    var n, kept := |log.entries|, Persisted(Kept(list));
    assert (kept + [m])[|kept|] == m == log.entries[n - 1];
    FromIsATail(log.entries, n - 1);
    assert log.entries[n - 1..] == [m];
    PersistedOfATail(list, |list| - |Kept(list)|);
    PersistedIsDrawnFrom(list);
    HasIsMembership(list, m);
    if kept != [] {
      LastIsThere(kept, Persisted(list));
      LastIsThere(Persisted(list), log.entries);
    }
  }

  lemma NewestIsASuffix(log: Log, m: Message)
    requires LogOk(log) && From(log.entries, m.key) == [m]
    ensures IsSuffix([m], log.entries)
  {
    SplitAt(log.entries, m.key);
  }

  /** A late send response for a message that is not shown agrees if and only if it is still the newest and alone. */
  lemma UnshownResponseIff(s: Store, ch: string, log: Log, m: Message)
    requires WindowInv(s, ch, log) && !m.local && !Has(List(s, ch), m.id)
    ensures WindowInv(AddMessage(s, ch, m), ch, log)
            <==> From(log.entries, m.key) == [m] && RoomForOne(List(s, ch), Entry(s.cursors, ch), Entry(s.hasMore, ch))
  {
    var list, after := List(s, ch), AddMessage(s, ch, m);
    Appended(s, ch, m);
    KeptIsDistinct(list, m);
    assert [] + [m] == [m];
    if IsSuffix(Persisted(Kept(list)) + [m], log.entries) {
      FitsOnlyAlone(list, log, m);
    }
    if From(log.entries, m.key) == [m] {
      NewestIsASuffix(log, m);
    }
  }
}
