/** What a reaction frame does to the message it names, and to nothing else. */
module MessageReactions {
  import opened Prelude
  import opened MessageWindow

  /** The reactions other than one, in their order, read from the end. */
  function Others(rs: seq<Reaction>, r: Reaction): seq<Reaction> {
    if rs == [] then []
    else Others(rs[..|rs| - 1], r) + (if rs[|rs| - 1] != r then [rs[|rs| - 1]] else [])
  }

  lemma {:induction false} OthersCons(x: Reaction, rs: seq<Reaction>, r: Reaction)
    ensures Others([x] + rs, r) == (if x != r then [x] else []) + Others(rs, r)
    decreases |rs|
  {
    var all := [x] + rs;
    if rs == [] {
      assert all == [x] && [x][..0] == [];
    } else {
      assert all[..|all| - 1] == [x] + rs[..|rs| - 1];
      OthersCons(x, rs[..|rs| - 1], r);
    }
  }

  lemma {:induction false} UnreactIsOthers(rs: seq<Reaction>, r: Reaction)
    ensures Unreact(rs, r) == Others(rs, r)
  {
    if rs != [] {
      UnreactIsOthers(rs[1..], r);
      OthersCons(rs[0], rs[1..], r);
      assert rs == [rs[0]] + rs[1..];
    }
  }

  lemma {:induction false} OthersLackIt(rs: seq<Reaction>, r: Reaction)
    ensures r !in Others(rs, r)
    ensures forall x :: x != r ==> multiset(Others(rs, r))[x] == multiset(rs)[x]
  {
    if rs != [] {
      assert rs == rs[..|rs| - 1] + [rs[|rs| - 1]];
      OthersLackIt(rs[..|rs| - 1], r);
    }
  }

  lemma {:induction false} OthersOfOthers(rs: seq<Reaction>, r: Reaction)
    requires r !in rs
    ensures Others(rs, r) == rs
    decreases |rs|
  {
    if rs != [] {
      assert rs == rs[..|rs| - 1] + [rs[|rs| - 1]];
      OthersOfOthers(rs[..|rs| - 1], r);
    }
  }

  /** After its addition a reaction is there exactly once, last; after its removal not at all. The others keep their order. */
  predicate Reacted(before: seq<Reaction>, after: seq<Reaction>, r: Reaction, added: bool) {
    && Others(after, r) == Others(before, r)
    && (added ==> after != [] && after[|after| - 1] == r && r !in after[..|after| - 1])
    && (!added ==> r !in after)
    && forall x :: x in before && x != r ==> multiset(after)[x] == multiset(before)[x]
  }

  lemma ReactIsReacted(m: Message, r: Reaction, added: bool)
    ensures var n := React(m, r, added);
            && Reacted(m.reactions, n.reactions, r, added)
            && n.id == m.id && n.key == m.key && n.body == m.body && n.local == m.local
  {
    var kept, after := Unreact(m.reactions, r), React(m, r, added).reactions;
    UnreactIsOthers(m.reactions, r);
    OthersLackIt(m.reactions, r);
    OthersOfOthers(kept, r);
    if added {
      assert after == kept + [r] && after[..|after| - 1] == kept;
    } else {
      assert after == kept;
    }
  }

  /** The first place of an id in a list. */
  predicate FirstAt(list: seq<Message>, id: string, i: nat) {
    i < |list| && list[i].id == id && forall j :: 0 <= j < i ==> list[j].id != id
  }

  lemma {:induction false} FindIsFirst(list: seq<Message>, id: string, i: nat)
    requires FirstAt(list, id, i)
    ensures Find(list, id) == Some(list[i])
    decreases |list|
  {
    if i > 0 {
      assert list[0].id != id;
      assert forall j :: 0 <= j < |list[1..]| ==> list[1..][j] == list[j + 1];
      FindIsFirst(list[1..], id, i - 1);
    }
  }

  lemma {:induction false} ReplaceAtFirst(list: seq<Message>, m: Message, i: nat)
    requires FirstAt(list, m.id, i)
    ensures Replace(list, m) == Some(list[i := m])
    decreases |list|
  {
    if i > 0 {
      assert list[0].id != m.id;
      assert forall j :: 0 <= j < |list[1..]| ==> list[1..][j] == list[j + 1];
      ReplaceAtFirst(list[1..], m, i - 1);
      assert [list[0]] + list[1..][i - 1 := m] == list[i := m];
    } else {
      assert [m] + list[1..] == list[0 := m];
    }
  }

  lemma {:induction false} FindNowhere(list: seq<Message>, id: string)
    requires forall j :: 0 <= j < |list| ==> list[j].id != id
    ensures Find(list, id) == None
  {
    if list != [] {
      FindNowhere(list[1..], id);
    }
  }

  /** A reaction to a message that is not loaded changes nothing. */
  lemma UnknownMessagesAreIgnored(s: Store, ch: string, id: string, r: Reaction, added: bool)
    requires forall j :: 0 <= j < |List(s, ch)| ==> List(s, ch)[j].id != id
    ensures ApplyReaction(s, ch, id, r, added) == s
  {
    FindNowhere(List(s, ch), id);
  }

  /** From one list to the next, the first message of an id got the reaction, and no other changed. */
  predicate OnlyReacted(list: seq<Message>, after: seq<Message>, id: string, r: Reaction, added: bool) {
    && |after| == |list|
    && forall i :: 0 <= i < |list| ==>
         if FirstAt(list, id, i) then
           && Reacted(list[i].reactions, after[i].reactions, r, added)
           && after[i].(reactions := list[i].reactions) == list[i]
         else after[i] == list[i]
  }

  /**
   * A reaction to a loaded message: that message holds the reaction exactly once, last, if it was added, and not at
   * all if it was removed; its other reactions, its contents, every other message and all cursors stay.
   */
  lemma ReactionOutcome(s: Store, ch: string, id: string, r: Reaction, added: bool, i: nat)
    requires FirstAt(List(s, ch), id, i)
    ensures var list, t := List(s, ch), ApplyReaction(s, ch, id, r, added);
            var after := List(t, ch);
            && |after| == |list| && (forall j :: 0 <= j < |list| && j != i ==> after[j] == list[j])
            && Reacted(list[i].reactions, after[i].reactions, r, added)
            && after[i].(reactions := list[i].reactions) == list[i]
            && t.cursors == s.cursors && t.hasMore == s.hasMore
            && forall other :: other != ch ==> List(t, other) == List(s, other)
  {
    var list := List(s, ch);
    FindIsFirst(list, id, i);
    var m := React(list[i], r, added);
    ReactIsReacted(list[i], r, added);
    assert FirstAt(list, m.id, i);
    ReplaceAtFirst(list, m, i);
  }

  lemma {:induction false} FirstOrNowhere(list: seq<Message>, id: string) returns (i: nat)
    ensures if i < |list| then FirstAt(list, id, i) else i == |list| && forall j :: 0 <= j < |list| ==> list[j].id != id
  {
    if list == [] || list[0].id == id {
      i := 0;
    } else {
      i := FirstOrNowhere(list[1..], id);
      i := i + 1;
      assert forall j :: 0 <= j < |list[1..]| ==> list[1..][j] == list[j + 1];
    }
  }

  /** Whatever is loaded, that is all a reaction does. */
  lemma ReactionsOnlyReact(s: Store, ch: string, id: string, r: Reaction, added: bool)
    ensures var t := ApplyReaction(s, ch, id, r, added);
            && OnlyReacted(List(s, ch), List(t, ch), id, r, added)
            && t.cursors == s.cursors && t.hasMore == s.hasMore
            && forall other :: other != ch ==> List(t, other) == List(s, other)
  {
    var list := List(s, ch);
    var i := FirstOrNowhere(list, id);
    if i < |list| {
      ReactionOutcome(s, ch, id, r, added, i);
    } else {
      UnknownMessagesAreIgnored(s, ch, id, r, added);
    }
  }
}
