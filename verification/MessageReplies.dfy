/**
 * Replies that arrive late. Between the moment the server reads its log and
 * the moment the client applies what was read, frames go on arriving. A client
 * that keeps applying them to a copy of the reply knows exactly whether the
 * reply is still good.
 */
module MessageReplies {
  import opened Prelude
  import opened MessageWindow

  // ---------------------------------------------------------------------------
  // Frames
  // ---------------------------------------------------------------------------

  /** A change of one channel's log, as its frame announces it. */
  datatype Frame =
    | New(m: Message)
    | Changed(m: Message)
    | Reacted(id: string, r: Reaction, added: bool)
    | Gone(id: string)

  /** What a frame makes of one message; nothing if it deletes it. */
  function Touched(e: Message, f: Frame): Option<Message> {
    match f
    case New(_) => Some(e)
    case Changed(m) => Some(if e.id == m.id then m else e)
    case Reacted(id, r, added) => Some(if e.id == id then React(e, r, added) else e)
    case Gone(id) => if e.id == id then None else Some(e)
  }

  /** A frame applied to messages that are there already. */
  function Touch(entries: seq<Message>, f: Frame): seq<Message> {
    if entries == [] then []
    else match Touched(entries[0], f)
      case None => Touch(entries[1..], f)
      case Some(e) => [e] + Touch(entries[1..], f)
  }

  /** ... and, if it announces a new message, that message after them. */
  function Grow(entries: seq<Message>, f: Frame): seq<Message> {
    Touch(entries, f) + (if f.New? then [f.m] else [])
  }

  function LogAfter(log: Log, f: Frame): Log {
    Log(Grow(log.entries, f), if f.New? then f.m.key else log.newest)
  }

  /** An edit keeps the message's place in the order. */
  predicate KeepsKeys(entries: seq<Message>, f: Frame) {
    f.Changed? ==> forall i :: 0 <= i < |entries| && entries[i].id == f.m.id ==> entries[i].key == f.m.key
  }

  lemma {:induction false} TouchIsPut(entries: seq<Message>, m: Message)
    ensures Touch(entries, Changed(m)) == Put(entries, m)
  {
    if entries != [] {
      TouchIsPut(entries[1..], m);
    }
  }

  lemma {:induction false} TouchIsDiscard(entries: seq<Message>, id: string)
    ensures Touch(entries, Gone(id)) == Discard(entries, id)
  {
    if entries != [] {
      TouchIsDiscard(entries[1..], id);
    }
  }

  lemma {:induction false} TouchOfNew(entries: seq<Message>, m: Message)
    ensures Touch(entries, New(m)) == entries
  {
    if entries != [] {
      TouchOfNew(entries[1..], m);
      assert entries == [entries[0]] + entries[1..];
    }
  }

  /** Where ids are unique, reacting is replacing the one message reacted to. */
  lemma {:induction false} TouchIsReact(entries: seq<Message>, logged: Message, r: Reaction, added: bool)
    requires forall i :: 0 <= i < |entries| && entries[i].id == logged.id ==> entries[i] == logged
    ensures Touch(entries, Reacted(logged.id, r, added)) == Put(entries, React(logged, r, added))
  {
    if entries != [] {
      TouchIsReact(entries[1..], logged, r, added);
    }
  }

  /** What the frames do to the log, in the store's own terms. */
  lemma LogAfterIs(log: Log, m: Message, id: string)
    ensures LogAfter(log, New(m)) == Log(log.entries + [m], m.key)
    ensures LogAfter(log, Changed(m)) == Edit(log, m)
    ensures LogAfter(log, Gone(id)) == log.(entries := Discard(log.entries, id))
  {
    TouchOfNew(log.entries, m);
    TouchIsPut(log.entries, m);
    TouchIsDiscard(log.entries, id);
    assert Touch(log.entries, Changed(m)) + [] == Put(log.entries, m);
    assert Touch(log.entries, Gone(id)) + [] == Discard(log.entries, id);
  }

  lemma {:induction false} TouchShrinks(entries: seq<Message>, f: Frame)
    ensures |Touch(entries, f)| <= |entries|
  {
    if entries != [] {
      TouchShrinks(entries[1..], f);
    }
  }

  /** A frame leaves messages as they are exactly when it leaves each of them as it is. */
  lemma {:induction false} TouchedNothingIff(entries: seq<Message>, f: Frame)
    ensures Touch(entries, f) == entries <==> forall i :: 0 <= i < |entries| ==> Touched(entries[i], f) == Some(entries[i])
  {
    if entries != [] {
      var rest := entries[1..];
      TouchedNothingIff(rest, f);
      TouchShrinks(rest, f);
      assert entries == [entries[0]] + rest;
      assert (forall i :: 0 <= i < |entries| ==> Touched(entries[i], f) == Some(entries[i]))
        <==> Touched(entries[0], f) == Some(entries[0])
             && forall i :: 0 <= i < |rest| ==> Touched(rest[i], f) == Some(rest[i]) by {
        assert forall i :: 0 <= i < |rest| ==> rest[i] == entries[i + 1];
        assert forall i :: 0 < i < |entries| ==> entries[i] == rest[i - 1];
      }
      if Touch(entries, f) == entries {
        assert Touch(entries, f)[1..] == rest;
      }
    }
  }

  /**
   * A frame leaves a first page good exactly when it announces no new message, deletes no row of the page and
   * changes none; a further page exactly when it deletes and changes none.
   */
  lemma PageStaysGoodIff(rows: seq<Message>, f: Frame)
    ensures Grow(rows, f) == rows <==> !f.New? && forall i :: 0 <= i < |rows| ==> Touched(rows[i], f) == Some(rows[i])
    ensures Touch(rows, f) == rows <==> forall i :: 0 <= i < |rows| ==> Touched(rows[i], f) == Some(rows[i])
  {
    TouchedNothingIff(rows, f);
    if f.New? {
      TouchOfNew(rows, f.m);
      assert |Grow(rows, f)| == |rows| + 1;
    }
  }

  // ---------------------------------------------------------------------------
  // Stretches of the log
  // ---------------------------------------------------------------------------

  predicate Within(key: int, lo: Option<int>, hi: Option<int>) {
    (lo.Some? ==> lo.value <= key) && (hi.Some? ==> key < hi.value)
  }

  function Stretch(entries: seq<Message>, lo: Option<int>, hi: Option<int>): seq<Message> {
    if entries == [] then []
    else if Within(entries[0].key, lo, hi) then [entries[0]] + Stretch(entries[1..], lo, hi)
    else Stretch(entries[1..], lo, hi)
  }

  /** A frame does to a stretch of the log what it does to the log. */
  lemma {:induction false} StretchTouch(entries: seq<Message>, f: Frame, lo: Option<int>, hi: Option<int>)
    requires KeepsKeys(entries, f)
    ensures Stretch(Touch(entries, f), lo, hi) == Touch(Stretch(entries, lo, hi), f)
  {
    if entries != [] {
      StretchTouch(entries[1..], f, lo, hi);
      var first, rest := entries[0], Touch(entries[1..], f);
      assert Within(first.key, lo, hi) ==> Stretch(entries, lo, hi)[1..] == Stretch(entries[1..], lo, hi);
      if Touched(first, f).Some? {
        assert Touch(entries, f)[1..] == rest;
      }
    }
  }

  lemma {:induction false} StretchSnoc(entries: seq<Message>, m: Message, lo: Option<int>, hi: Option<int>)
    ensures Stretch(entries + [m], lo, hi) == Stretch(entries, lo, hi) + (if Within(m.key, lo, hi) then [m] else [])
  {
    if entries == [] {
      assert entries + [m] == [m] && [m][1..] == [];
    } else {
      assert (entries + [m])[1..] == entries[1..] + [m];
      StretchSnoc(entries[1..], m, lo, hi);
    }
  }

  lemma StretchGrow(entries: seq<Message>, f: Frame, lo: Option<int>, hi: Option<int>)
    requires KeepsKeys(entries, f)
    requires f.New? ==> (hi.None? <==> Within(f.m.key, lo, hi))
    ensures Stretch(Grow(entries, f), lo, hi)
         == if hi.None? then Grow(Stretch(entries, lo, hi), f) else Touch(Stretch(entries, lo, hi), f)
  {
    StretchTouch(entries, f, lo, hi);
    if f.New? {
      StretchSnoc(Touch(entries, f), f.m, lo, hi);
    } else {
      assert Grow(entries, f) == Touch(entries, f);
    }
  }

  lemma {:induction false} StretchFrom(entries: seq<Message>, key: int)
    ensures Stretch(entries, Some(key), None) == From(entries, key)
  {
    if entries != [] {
      StretchFrom(entries[1..], key);
    }
  }

  lemma {:induction false} StretchBelow(entries: seq<Message>, key: int)
    ensures Stretch(entries, None, Some(key)) == Below(entries, key)
  {
    if entries != [] {
      StretchBelow(entries[1..], key);
    }
  }

  lemma {:induction false} StretchAll(entries: seq<Message>)
    ensures Stretch(entries, None, None) == entries
  {
    if entries != [] {
      StretchAll(entries[1..]);
    }
  }

  /** Cutting twice is cutting once. */
  lemma {:induction false} StretchOfStretch(entries: seq<Message>, lo: int, hi: Option<int>)
    ensures From(Stretch(entries, None, hi), lo) == Stretch(entries, Some(lo), hi)
  {
    if entries != [] {
      StretchOfStretch(entries[1..], lo, hi);
      assert Within(entries[0].key, None, hi) ==> Stretch(entries, None, hi)[1..] == Stretch(entries[1..], None, hi);
    }
  }

  /** The rows of a page and the window they go in front of are one stretch. */
  lemma {:induction false} StretchJoins(entries: seq<Message>, lo: Option<int>, key: int)
    requires Ascending(entries) && (lo.Some? ==> lo.value <= key)
    ensures Stretch(entries, lo, None) == Stretch(entries, lo, Some(key)) + From(entries, key)
  {
    if entries != [] {
      assert forall i :: 0 <= i < |entries[1..]| ==> entries[1..][i] == entries[i + 1];
      StretchJoins(entries[1..], lo, key);
      if entries[0].key >= key {
        NothingWithin(entries, lo, key);
      }
    }
  }

  lemma {:induction false} NothingWithin(entries: seq<Message>, lo: Option<int>, key: int)
    requires forall i :: 0 <= i < |entries| ==> entries[i].key >= key
    ensures Stretch(entries, lo, Some(key)) == []
  {
    if entries != [] {
      NothingWithin(entries[1..], lo, key);
    }
  }

  lemma {:induction false} InStretch(entries: seq<Message>, lo: Option<int>, hi: Option<int>, m: Message)
    ensures m in Stretch(entries, lo, hi) <==> m in entries && Within(m.key, lo, hi)
  {
    if entries != [] {
      InStretch(entries[1..], lo, hi, m);
      assert entries == [entries[0]] + entries[1..];
    }
  }

  /** A stretch without upper end is a tail of the log. */
  lemma StretchIsATail(entries: seq<Message>, lo: Option<int>)
    requires Ascending(entries)
    ensures IsSuffix(Stretch(entries, lo, None), entries)
  {
    if lo.Some? {
      StretchFrom(entries, lo.value);
      SplitAt(entries, lo.value);
    } else {
      StretchAll(entries);
    }
  }
}
