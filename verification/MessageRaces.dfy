/** What the store's callers get done, and the races they leave open by applying replies unchecked. */
module MessageRaces {
  import opened Prelude
  import opened MessageWindow
  import opened MessageReplies
  import opened MessagePages
  import opened MessageRuns

  // ---------------------------------------------------------------------------
  // Nothing is withheld
  // ---------------------------------------------------------------------------

  /** A new message becomes the last of the list; past 500, the oldest go and the cursor with them, and only then. */
  lemma NewMessagesAreShown(s: Store, ch: string, m: Message)
    requires DistinctIds(List(s, ch)) && !Has(List(s, ch), m.id) && !m.local
    ensures var after := AddMessage(s, ch, m);
            && List(after, ch) == Newest(List(s, ch) + [m], 500)
            && List(after, ch)[|List(after, ch)| - 1] == m
            && (|List(s, ch)| < 500 ==> after.cursors == s.cursors && after.hasMore == s.hasMore)
            && (|List(s, ch)| >= 500 ==> Entry(after.cursors, ch) == Some(Empty) && Entry(after.hasMore, ch) == Some(true))
  {
    Appended(s, ch, m);
  }

  lemma WorldRunsCons(w: World, ch: string, h: Happening, rest: seq<(string, Happening)>, v: World)
    requires Possible(w, ch, h) && WorldRuns(NextWorld(w, ch, h), rest, v)
    ensures WorldRuns(w, [(ch, h)] + rest, v)
  {
    assert ([(ch, h)] + rest)[1..] == rest;
  }

  /** The three steps of one page back. */
  function PageSteps(ch: string, limit: nat, k: nat): seq<(string, Happening)> {
    [(ch, Asks(true, limit))] + ([(ch, Reads(k))] + [(ch, Delivers(k))])
  }

  /** One page back with nothing happening meanwhile: asked, read, applied. */
  lemma OnePageBack(w: World, ch: string, limit: nat) returns (v: World)
    requires WorldInv(w) && Possible(w, ch, Asks(true, limit))
    ensures WorldRuns(w, PageSteps(ch, limit, |w.pending|), v) && WorldInv(v) && LogOf(v, ch) == LogOf(w, ch)
    ensures var page := ReadPage(LogOf(w, ch).entries, w.store.cursors[ch], limit);
            v.store == PrependMessages(w.store, ch, page.rows, page.cursor, page.more)
  {
    var k := |w.pending|;
    var asked := NextWorld(w, ch, Asks(true, limit));
    WorldStep(w, ch, Asks(true, limit));
    var read := NextWorld(asked, ch, Reads(k));
    WorldStep(asked, ch, Reads(k));
    v := NextWorld(read, ch, Delivers(k));
    WorldStep(read, ch, Delivers(k));
    assert WorldRuns(v, [], v);
    WorldRunsCons(read, ch, Delivers(k), [], v);
    assert [(ch, Delivers(k))] + [] == [(ch, Delivers(k))];
    WorldRunsCons(asked, ch, Reads(k), [(ch, Delivers(k))], v);
    WorldRunsCons(w, ch, Asks(true, limit), [(ch, Reads(k))] + [(ch, Delivers(k))], v);
  }

  lemma PersistedLength(rows: seq<Message>, list: seq<Message>, log: Log)
    requires LogOk(log) && forall m :: m in rows ==> m in log.entries
    ensures |Persisted(rows + list)| == |rows| + |Persisted(list)|
  {
    PersistedConcat(rows, list);
    PersistedIsIdentity(rows);
  }

  /** How much a page adds. */
  lemma PageSize(log: Log, key: int, limit: nat)
    requires LogOk(log) && limit > 0
    ensures var rows := Newest(Below(log.entries, key), limit);
            var loaded, all := |From(log.entries, key)|, |log.entries|;
            && |rows| + loaded == (if loaded + limit < all then loaded + limit else all)
            && (loaded + limit < all ==> rows != [])
            && forall m :: m in rows ==> m in log.entries
  {
    SplitAt(log.entries, key);
    var older := Below(log.entries, key);
    var rows := Newest(older, limit);
    assert forall m :: m in rows ==> m in older;
    assert forall m :: m in older ==> m in log.entries;
  }

  /** One page back makes the window longer by that page, up to the whole log. */
  lemma PageGrowsTheWindow(w: World, ch: string, limit: nat) returns (v: World)
    requires WorldInv(w) && Possible(w, ch, Asks(true, limit))
    ensures WorldRuns(w, PageSteps(ch, limit, |w.pending|), v) && WorldInv(v) && LogOf(v, ch) == LogOf(w, ch)
    ensures var loaded, all := |Persisted(List(w.store, ch))|, |LogOf(w, ch).entries|;
            && |Persisted(List(v.store, ch))| == (if loaded + limit < all then loaded + limit else all)
            && (loaded + limit < all ==> Possible(v, ch, Asks(true, limit)))
  {
    assert ChannelInv(w, ch);
    v := OnePageBack(w, ch, limit);
    var log, list, key := LogOf(w, ch), List(w.store, ch), w.store.cursors[ch].key;
    var rows := Newest(Below(log.entries, key), limit);
    ReverseTwice(rows);
    PageSize(log, key, limit);
    PersistedLength(rows, list, log);
    assert List(v.store, ch) == rows + list;
  }

  lemma WholeLogLoaded(w: World, ch: string)
    requires ChannelInv(w, ch) && |Persisted(List(w.store, ch))| == |LogOf(w, ch).entries|
    ensures Persisted(List(w.store, ch)) == LogOf(w, ch).entries
  {
  }

  lemma {:induction false} WorldRunsConcat(w: World, a: seq<(string, Happening)>, m: World, b: seq<(string, Happening)>, v: World)
    requires WorldRuns(w, a, m) && WorldRuns(m, b, v)
    ensures WorldRuns(w, a + b, v)
    decreases |a|
  {
    if a == [] {
      assert a + b == b;
    } else {
      var next := NextWorld(w, a[0].0, a[0].1);
      WorldRunsConcat(next, a[1..], m, b, v);
      WorldRunsCons(w, a[0].0, a[0].1, a[1..] + b, v);
      assert a + b == [(a[0].0, a[0].1)] + (a[1..] + b);
    }
  }

  /** Paging back with the stored cursor ends with the whole log loaded. */
  lemma {:induction false} PagingLoadsEverything(w: World, ch: string, limit: nat)
    returns (steps: seq<(string, Happening)>, v: World)
    requires WorldInv(w) && Possible(w, ch, Asks(true, limit))
    ensures WorldRuns(w, steps, v) && LogOf(v, ch) == LogOf(w, ch)
    ensures Persisted(List(v.store, ch)) == LogOf(w, ch).entries
    decreases |LogOf(w, ch).entries| - |Persisted(List(w.store, ch))|
  {
    var next := PageGrowsTheWindow(w, ch, limit);
    steps, v := PageSteps(ch, limit, |w.pending|), next;
    assert ChannelInv(next, ch);
    if |Persisted(List(w.store, ch))| + limit < |LogOf(w, ch).entries| {
      var rest, end := PagingLoadsEverything(next, ch, limit);
      WorldRunsConcat(w, steps, next, rest, end);
      steps, v := steps + rest, end;
    } else {
      WholeLogLoaded(next, ch);
    }
  }

  // ---------------------------------------------------------------------------
  // Replies applied unchecked
  // ---------------------------------------------------------------------------

  /** A page in flight, good so far, for the channel. */
  predicate GoodPage(w: World, ch: string, k: nat) {
    k < |w.pending| && w.pending[k].Answered? && w.pending[k].ch == ch && Shown(w.pending[k].page) == w.pending[k].rows
  }

  /** A row deleted while its page is in flight is shown again when the page is applied. */
  lemma DeletedRowsComeBack(w: World, ch: string, k: nat, id: string)
    requires WorldInv(w) && GoodPage(w, ch, k) && Has(w.pending[k].rows, id) && Possible(w, ch, Framed(Gone(id)))
    ensures var v := NextWorld(w, ch, Framed(Gone(id)));
            !WindowInv(Apply(v.store, v.pending[k]), ch, LogOf(v, ch))
    ensures Has(Shown(w.pending[k].page), id)
  {
    var f, p := Gone(id), w.pending[k];
    var i :| 0 <= i < |p.rows| && p.rows[i].id == id;
    WorldStep(w, ch, Framed(f));
    var v := NextWorld(w, ch, Framed(f));
    PageStaysGoodIff(p.rows, f);
    assert Touched(p.rows[i], f) == None;
    ReplyAgreesIff(v, k);
  }

  /** A message that arrives while a first page is in flight is lost when the page is applied. */
  lemma ArrivalsAreLost(w: World, ch: string, k: nat, m: Message)
    requires WorldInv(w) && GoodPage(w, ch, k) && w.pending[k].at.Empty? && Possible(w, ch, Framed(New(m)))
    ensures var v := NextWorld(w, ch, Framed(New(m)));
            !WindowInv(Apply(v.store, v.pending[k]), ch, LogOf(v, ch))
  {
    WorldStep(w, ch, Framed(New(m)));
    PageStaysGoodIff(w.pending[k].rows, New(m));
    ReplyAgreesIff(NextWorld(w, ch, Framed(New(m))), k);
  }

  /** A send response applied after its message was deleted shows it again. */
  lemma DeletedSendComesBack(w: World, ch: string, k: nat)
    requires WorldInv(w) && k < |w.pending| && w.pending[k].Sent? && w.pending[k].ch == ch
    requires Possible(w, ch, Framed(Gone(w.pending[k].m.id)))
    ensures var v := NextWorld(w, ch, Framed(Gone(w.pending[k].m.id)));
            !WindowInv(Apply(v.store, v.pending[k]), ch, LogOf(v, ch))
  {
    var p := w.pending[k];
    var f, list := Gone(p.m.id), List(w.store, ch);
    var v := NextWorld(w, ch, Framed(f));
    WorldStep(w, ch, Framed(f));
    DiscardIsDrawnFrom(list, p.m.id);
    TouchIsDiscard(p.rows, p.m.id);
    DiscardIsDrawnFrom(p.rows, p.m.id);
    RemovedIsGone(w.store, ch, p.m.id);
    assert v.pending[k].rows == Discard(p.rows, p.m.id) + [];
    assert p.m in [p.m];
    ReplyAgreesIff(v, k);
  }

  lemma RemovedIsGone(s: Store, ch: string, id: string)
    ensures !Has(List(RemoveMessage(s, ch, id), ch), id)
  {
    var list, after := List(s, ch), List(RemoveMessage(s, ch, id), ch);
    DiscardIsDrawnFrom(list, id);
    assert after == Discard(list, id);
    forall i | 0 <= i < |after| ensures after[i].id != id {
      assert after[i] in after;
    }
  }

  /** A window at its cap loses its oldest message to a new one; a further page asked for before is then spliced in with a hole. */
  lemma CapWhilePagingSplicesAHole(w: World, ch: string, k: nat, m: Message)
    requires WorldInv(w) && k < |w.pending| && w.pending[k].Answered? && w.pending[k].ch == ch && w.pending[k].at.Before?
    requires Entry(w.store.cursors, ch) == Some(w.pending[k].at)
    requires |List(w.store, ch)| >= 500 && Persisted(List(w.store, ch)) == List(w.store, ch)
    requires Possible(w, ch, Framed(New(m)))
    ensures var v := NextWorld(w, ch, Framed(New(m)));
            !WindowInv(Apply(v.store, v.pending[k]), ch, LogOf(v, ch))
  {
    var v, p, list := NextWorld(w, ch, Framed(New(m))), w.pending[k], List(w.store, ch);
    assert ChannelInv(w, ch) && PendingInv(w, k);
    WorldStep(w, ch, Framed(New(m)));
    Appended(w.store, ch, m);
    TouchOfNew(p.window, m);
    assert |v.pending[k].window| == |list| + 1;
    PersistedIsShorter(List(v.store, ch));
    ReplyAgreesIff(v, k);
  }

  lemma {:induction false} PersistedIsShorter(list: seq<Message>)
    ensures |Persisted(list)| <= |list|
  {
    if list != [] {
      PersistedIsShorter(list[1..]);
    }
  }

  /** A refetch that does not reach back exactly as far as the window did leaves a hole under a further page asked for before. */
  lemma RefetchWhilePagingSplicesAHole(w: World, ch: string, j: nat, k: nat)
    requires WorldInv(w) && Possible(w, ch, Delivers(j)) && w.pending[j].Answered? && w.pending[j].at.Empty?
    requires j != k && k < |w.pending| && w.pending[k].Answered? && w.pending[k].ch == ch && w.pending[k].at.Before?
    requires |w.pending[j].rows| != |w.pending[k].window|
    ensures var v := NextWorld(w, ch, Delivers(j));
            WindowInv(v.store, ch, LogOf(v, ch)) && !WindowInv(Apply(v.store, v.pending[k]), ch, LogOf(v, ch))
  {
    var v := NextWorld(w, ch, Delivers(j));
    assert PendingInv(w, j);
    WorldStep(w, ch, Delivers(j));
    assert ChannelInv(v, ch);
    NoneAreLocal(Shown(w.pending[j].page));
    ReplyAgreesIff(v, k);
  }

  const M1 := Message("1", 1, "", [], false)
  const M2 := Message("2", 2, "", [], false)
  const M3 := Message("3", 3, "", [], false)
  const M4 := Message("4", 4, "", [], false)
  const THREE := Log([M1, M2, M3], 3)
  const FOUR := Log([M1, M2, M3, M4], 4)

  /** The page below M3, one row long, as read while M3 was the newest. */
  lemma PageBelowM3()
    ensures ReadPage(THREE.entries, Before(3), 1) == Page([M2], Before(2), true)
  {
    var three := THREE.entries;
    assert three[1..] == [M2, M3] && [M2, M3][1..] == [M3] && [M3][1..] == [];
    assert Below([M3], 3) == [] && Below([M2, M3], 3) == [M2] + [] && Below(three, 3) == [M1] + [M2];
    assert Newest([M1] + [M2], 1) == [M2];
    assert [M2][1..] == [] && Reverse([M2]) == [M2];
  }

  /** In small: M3 is shown, the page below it is asked for, M4 arrives, a refetch shows M4 alone, and the page lands. */
  lemma AHoleInSmall(ch: string)
    ensures var older := ReadPage(THREE.entries, Before(3), 1);
            var newest := ReadPage(FOUR.entries, Empty, 1);
            var refetched := SetMessages(EMPTY_STORE, ch, newest.rows, newest.cursor, newest.more);
            var spliced := PrependMessages(refetched, ch, older.rows, older.cursor, older.more);
            && WindowInv(refetched, ch, FOUR)
            && List(spliced, ch) == [M2, M4] && !WindowInv(spliced, ch, FOUR)
  {
    PageBelowM3();
    OneRow(M2);
    NewestOfFour(ch);
    var newest := ReadPage(FOUR.entries, Empty, 1);
    var refetched := SetMessages(EMPTY_STORE, ch, newest.rows, newest.cursor, newest.more);
    var spliced := PrependMessages(refetched, ch, [M2], Before(2), true);
    assert List(spliced, ch) == [M2] + [M4] == [M2, M4];
    WithoutM3(spliced, ch);
  }

  lemma NewestOfFour(ch: string)
    ensures var newest := ReadPage(FOUR.entries, Empty, 1);
            var refetched := SetMessages(EMPTY_STORE, ch, newest.rows, newest.cursor, newest.more);
            WindowInv(refetched, ch, FOUR) && List(refetched, ch) == [M4]
  {
    FirstPageAgrees(EMPTY_STORE, ch, FOUR, 1);
    assert Newest(FOUR.entries, 1) == [M4];
    ReverseTwice([M4]);
  }

  lemma OneRow(m: Message)
    ensures Reverse([m]) == [m]
  {
    assert [m][1..] == [] && Reverse([]) + [m] == [m];
  }

  lemma WithoutM3(s: Store, ch: string)
    requires List(s, ch) == [M2, M4]
    ensures !WindowInv(s, ch, FOUR)
  {
    PersistedIsIdentity([M2, M4]);
    assert FOUR.entries[2..][0] == M3;
  }
}
