/** The message store: three maps, each replaced by an updated copy on every action. */
module MessageCache {
  import opened MessageWindow
  import MessageReplies
  import MessagePages
  import MessageRuns
  import MessageReactions

  /** A message the server has just given a key, and nobody has shown. */
  ghost predicate IsNews(s: Store, ch: string, log: Log, m: Message) {
    !m.local && m.key > log.newest && forall n :: n in List(s, ch) || n in log.entries ==> n.id != m.id
  }

  /** A new version of a message, in its old place. */
  ghost predicate IsEdit(s: Store, ch: string, log: Log, m: Message) {
    !m.local && SameIdentity(log.entries, m) && SameIdentity(List(s, ch), m)
  }

  /** The further page at the stored cursor, just read, in front of a list whose local ids are its own. */
  ghost predicate IsNextPage(s: Store, ch: string, log: Log, page: Page, limit: nat) {
    && limit > 0 && ch in s.cursors && s.cursors[ch].Before?
    && page == ReadPage(log.entries, s.cursors[ch], limit)
    && MessageRuns.LocalsApart(List(s, ch), log)
  }

  /** A reaction to a message the server has. */
  ghost predicate IsReaction(s: Store, ch: string, log: Log, id: string) {
    MessagePages.Has(log.entries, id) && MessageRuns.LocalsApart(List(s, ch), log)
  }

  class MessageStore {
    var messages: map<string, seq<Message>>
    var cursors: map<string, Cursor>
    var hasMore: map<string, bool>

    ghost function State(): Store
      reads this
    {
      Store(messages, cursors, hasMore)
    }

    /** What is loaded of the channel agrees with this log. */
    ghost predicate Mirrors(ch: string, log: Log)
      reads this
    {
      WindowInv(State(), ch, log)
    }

    constructor ()
      ensures State() == Store(map[], map[], map[])
    {
      messages, cursors, hasMore := map[], map[], map[];
    }

    method Install(ch: string, list: seq<Message>, cursor: Cursor, more: bool)
      modifies this
      ensures State() == Store(old(messages)[ch := list], old(cursors)[ch := cursor], old(hasMore)[ch := more])
    {
      messages := messages[ch := list];
      cursors := cursors[ch := cursor];
      hasMore := hasMore[ch := more];
    }

    method SetMessages(ch: string, msgs: seq<Message>, cursor: Cursor, more: bool)
      modifies this
      ensures State() == MessageWindow.SetMessages(old(State()), ch, msgs, cursor, more)
      ensures forall log, limit :: LogOk(log) && limit > 0 && ReadPage(log.entries, Empty, limit) == Page(msgs, cursor, more) ==>
                Mirrors(ch, log)
      ensures ch in messages && |messages[ch]| == |msgs|
      ensures forall i :: 0 <= i < |msgs| ==> messages[ch][i] == msgs[|msgs| - 1 - i]
    {
      ReverseAt(msgs);
      forall log, limit | LogOk(log) && limit > 0 && ReadPage(log.entries, Empty, limit) == Page(msgs, cursor, more)
        ensures WindowInv(MessageWindow.SetMessages(State(), ch, msgs, cursor, more), ch, log)
      {
        FirstPageAgrees(State(), ch, log, limit);
      }
      Install(ch, Reverse(msgs), cursor, more);
    }

    method PrependMessages(ch: string, older: seq<Message>, cursor: Cursor, more: bool)
      modifies this
      ensures State() == MessageWindow.PrependMessages(old(State()), ch, older, cursor, more)
      ensures forall log, limit :: old(Mirrors(ch, log)) && IsNextPage(old(State()), ch, log, Page(older, cursor, more), limit) ==>
                Mirrors(ch, log)
      ensures ch in messages && |messages[ch]| == |older| + |List(old(State()), ch)|
      ensures forall i :: 0 <= i < |older| ==> messages[ch][i] == older[|older| - 1 - i]
      ensures messages[ch][|older|..] == List(old(State()), ch)
    {
      ReverseAt(older);
      forall log, limit | Mirrors(ch, log) && IsNextPage(State(), ch, log, Page(older, cursor, more), limit)
        ensures WindowInv(MessageWindow.PrependMessages(State(), ch, older, cursor, more), ch, log)
      {
        OlderPageAgrees(State(), ch, log, limit);
      }
      var loaded := if ch in messages then messages[ch] else [];
      Install(ch, Reverse(older) + loaded, cursor, more);
    }

    method AddMessage(ch: string, m: Message)
      modifies this
      ensures State() == MessageWindow.AddMessage(old(State()), ch, m)
      ensures forall log :: old(Mirrors(ch, log)) && IsNews(old(State()), ch, log, m) ==>
                Mirrors(ch, Log(log.entries + [m], m.key))
    {
      forall log | Mirrors(ch, log) && IsNews(State(), ch, log, m)
        ensures WindowInv(MessageWindow.AddMessage(State(), ch, m), ch, Log(log.entries + [m], m.key))
      {
        NewMessageAgrees(State(), ch, log, m);
      }
      var list := if ch in messages then messages[ch] else [];
      var replaced := Replace(list, m);
      if replaced.Some? {
        messages := messages[ch := replaced.value];
        return;
      }
      var appended := list + [m];
      if |appended| <= MAX_LIVE_MESSAGES {
        messages := messages[ch := appended];
        return;
      }
      Install(ch, appended[|appended| - MAX_LIVE_MESSAGES..], Empty, true);
    }

    method UpdateMessage(ch: string, m: Message)
      modifies this
      ensures State() == MessageWindow.UpdateMessage(old(State()), ch, m)
      ensures forall log :: old(Mirrors(ch, log)) && IsEdit(old(State()), ch, log, m) ==> Mirrors(ch, Edit(log, m))
    {
      forall log | Mirrors(ch, log) && IsEdit(State(), ch, log, m)
        ensures WindowInv(MessageWindow.UpdateMessage(State(), ch, m), ch, Edit(log, m))
      {
        EditAgrees(State(), ch, log, m);
      }
      var replaced := Replace(if ch in messages then messages[ch] else [], m);
      if replaced.Some? {
        messages := messages[ch := replaced.value];
      }
    }

    method RemoveMessage(ch: string, id: string)
      modifies this
      ensures State() == MessageWindow.RemoveMessage(old(State()), ch, id)
      ensures forall log :: old(Mirrors(ch, log)) ==> Mirrors(ch, log.(entries := Discard(log.entries, id)))
    {
      forall log | Mirrors(ch, log)
        ensures WindowInv(MessageWindow.RemoveMessage(State(), ch, id), ch, log.(entries := Discard(log.entries, id)))
      {
        DeletionAgrees(State(), ch, log, id);
      }
      if ch !in messages {
        return;
      }
      FoundIsThere(messages[ch], id);
      DiscardChangesWhatItFinds(messages[ch], id);
      if Find(messages[ch], id).None? {
        return;
      }
      messages := messages[ch := Discard(messages[ch], id)];
    }

    method ApplyReaction(ch: string, id: string, r: Reaction, added: bool)
      modifies this
      ensures State() == MessageWindow.ApplyReaction(old(State()), ch, id, r, added)
      ensures forall log :: old(Mirrors(ch, log)) && IsReaction(old(State()), ch, log, id) ==>
                Mirrors(ch, MessageReplies.LogAfter(log, MessageReplies.Reacted(id, r, added)))
      ensures MessageReactions.OnlyReacted(old(List(State(), ch)), List(State(), ch), id, r, added)
      ensures cursors == old(cursors) && hasMore == old(hasMore)
    {
      MessageReactions.ReactionsOnlyReact(State(), ch, id, r, added);
      forall log | Mirrors(ch, log) && IsReaction(State(), ch, log, id)
        ensures WindowInv(MessageWindow.ApplyReaction(State(), ch, id, r, added), ch,
                          MessageReplies.LogAfter(log, MessageReplies.Reacted(id, r, added)))
      {
        MessageRuns.FrameKeepsWindow(State(), ch, log, MessageReplies.Reacted(id, r, added));
      }
      var found := Find(if ch in messages then messages[ch] else [], id);
      if found.None? {
        return;
      }
      var reactions := Unreact(found.value.reactions, r);
      if added {
        reactions := reactions + [r];
      }
      assert reactions == React(found.value, r, added).reactions;
      UpdateMessage(ch, found.value.(reactions := reactions));
    }

    method ClearChannel(ch: string)
      modifies this
      ensures State() == MessageWindow.ClearChannel(old(State()), ch)
      ensures forall log :: LogOk(log) ==> Mirrors(ch, log)
      ensures ch !in messages && ch !in cursors && ch !in hasMore
    {
      messages := messages - {ch};
      cursors := cursors - {ch};
      hasMore := hasMore - {ch};
    }

    method TrimChannel(ch: string, keep: nat)
      modifies this
      ensures State() == MessageWindow.TrimChannel(old(State()), ch, keep)
      ensures forall log :: old(Mirrors(ch, log)) ==> Mirrors(ch, log)
      ensures List(State(), ch) == if |List(old(State()), ch)| <= keep then List(old(State()), ch)
                                   else List(old(State()), ch)[|List(old(State()), ch)| - keep..]
    {
      forall log | Mirrors(ch, log) ensures WindowInv(MessageWindow.TrimChannel(State(), ch, keep), ch, log) {
        TrimAgrees(State(), ch, log, keep);
      }
      if ch !in messages || |messages[ch]| <= keep {
        return;
      }
      var list := messages[ch];
      Install(ch, list[|list| - keep..], Empty, true);
    }

    method Clear()
      modifies this
      ensures State() == Store(map[], map[], map[])
    {
      messages, cursors, hasMore := map[], map[], map[];
    }
  }

  lemma {:induction false} ReverseAt(ms: seq<Message>)
    ensures |Reverse(ms)| == |ms| && forall i :: 0 <= i < |ms| ==> Reverse(ms)[i] == ms[|ms| - 1 - i]
  {
    if ms != [] {
      ReverseAt(ms[1..]);
    }
  }

  lemma {:induction false} DiscardChangesWhatItFinds(list: seq<Message>, id: string)
    ensures Find(list, id).None? <==> Discard(list, id) == list
    ensures |Discard(list, id)| <= |list|
  {
    if list != [] {
      DiscardChangesWhatItFinds(list[1..], id);
      if list[0].id != id {
        assert Discard(list, id)[1..] == Discard(list[1..], id);
        assert list == [list[0]] + list[1..];
      }
    }
  }
}
