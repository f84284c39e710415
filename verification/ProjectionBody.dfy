/** The body text of a projection: joined lines, newlines collapsed, ends trimmed, clamped. */
module ProjectionBody {
  import opened Utf8Clamp
  import opened ProjectionTree

  const MAX_BODY_BYTES: nat := 0x10_0000

  function JoinFirst(lines: seq<Text>, k: nat): Text
    requires k <= |lines|
  {
    if k == 0 then [] else JoinFirst(lines, k - 1) + lines[k - 1]
  }

  function Join(lines: seq<Text>): Text {
    JoinFirst(lines, |lines|)
  }

  /** How many newlines a text starts with. */
  function LeadingNewlines(t: Text): (n: nat)
    ensures n <= |t|
    ensures forall i :: 0 <= i < n ==> t[i] == NEWLINE
    ensures n < |t| ==> t[n] != NEWLINE
  {
    if t == [] || t[0] != NEWLINE then 0 else 1 + LeadingNewlines(t[1..])
  }

  /** Every run of three or more newlines becomes two. */
  function Collapse(t: Text): Text
    decreases |t|
  {
    if t == [] then []
    else
      var n := LeadingNewlines(t);
      if n == 0 then [t[0]] + Collapse(t[1..])
      else (if n >= 3 then [NEWLINE, NEWLINE] else t[..n]) + Collapse(t[n..])
  }

  /** Whitespace as ECMAScript's trim counts it. */
  predicate IsSpace(u: Unit) {
    || 9 <= u <= 13 || u == 32 || u == 0xA0 || u == 0x1680 || 0x2000 <= u <= 0x200A
    || u == 0x2028 || u == 0x2029 || u == 0x202F || u == 0x205F || u == 0x3000 || u == 0xFEFF
  }

  function TrimStart(t: Text): Text {
    if t != [] && IsSpace(t[0]) then TrimStart(t[1..]) else t
  }

  function TrimEnd(t: Text): Text {
    if t != [] && IsSpace(t[|t| - 1]) then TrimEnd(t[..|t| - 1]) else t
  }

  function Trim(t: Text): Text {
    TrimEnd(TrimStart(t))
  }

  /** The body before it is clamped. */
  function WholeBody(doc: Node): Text {
    Trim(Collapse(Join(LinesOf(doc))))
  }

  function BodyText(doc: Node): Text {
    Clamp(WholeBody(doc), MAX_BODY_BYTES)
  }

  // ---------------------------------------------------------------------------
  // No run of three newlines
  // ---------------------------------------------------------------------------

  predicate NoTripleNewline(t: Text) {
    forall i :: 0 <= i && i + 2 < |t| ==> t[i] != NEWLINE || t[i + 1] != NEWLINE || t[i + 2] != NEWLINE
  }

  lemma {:induction false} CollapseLeavesNoTriple(t: Text)
    ensures NoTripleNewline(Collapse(t))
    ensures (t == [] <==> Collapse(t) == []) && (t != [] ==> (Collapse(t)[0] == NEWLINE <==> t[0] == NEWLINE))
    decreases |t|
  {
    if t != [] {
      var n := LeadingNewlines(t);
      if n == 0 {
        CollapseLeavesNoTriple(t[1..]);
      } else {
        CollapseLeavesNoTriple(t[n..]);
        var rest := Collapse(t[n..]);
        assert n < |t| ==> t[n..][0] == t[n];
        assert rest != [] ==> rest[0] != NEWLINE;
      }
    }
  }

  /** Newlines, k of them. */
  function Newlines(k: nat): Text {
    seq(k, _ => NEWLINE)
  }

  lemma {:induction false} LeadingRun(k: nat, rest: Text)
    requires rest == [] || rest[0] != NEWLINE
    ensures LeadingNewlines(Newlines(k) + rest) == k
  {
    var t := Newlines(k) + rest;
    if k > 0 {
      assert t[1..] == Newlines(k - 1) + rest;
      LeadingRun(k - 1, rest);
    } else {
      assert t == rest;
    }
  }

  lemma LongRunIsTriple(t: Text)
    requires LeadingNewlines(t) >= 3
    ensures !NoTripleNewline(t)
  {
    assert t[0] == NEWLINE && t[0 + 1] == NEWLINE && t[0 + 2] == NEWLINE;
  }

  /** Text without three newlines in a row is left as it is. */
  lemma {:induction false} CollapseKeepsShortRuns(t: Text)
    requires NoTripleNewline(t)
    ensures Collapse(t) == t
    decreases |t|
  {
    if t != [] {
      var n := LeadingNewlines(t);
      if n == 0 {
        CollapseKeepsShortRuns(t[1..]);
        assert t == [t[0]] + t[1..];
      } else {
        if n >= 3 {
          LongRunIsTriple(t);
        }
        CollapseKeepsShortRuns(t[n..]);
        assert t == t[..n] + t[n..];
      }
    }
  }

  lemma CollapseOfALeadingRun(k: nat, rest: Text)
    requires rest == [] || rest[0] != NEWLINE
    ensures Collapse(Newlines(k) + rest) == Newlines(if k >= 3 then 2 else k) + Collapse(rest)
  {
    var t := Newlines(k) + rest;
    LeadingRun(k, rest);
    assert t[..k] == Newlines(k) && t[k..] == rest;
    if k == 0 {
      assert t == rest && Newlines(0) + Collapse(rest) == Collapse(rest);
    }
    assert k >= 3 ==> [NEWLINE, NEWLINE] == Newlines(2);
  }

  /** The run of newlines, or the one other unit, that a text starts with, and what becomes of it. */
  function RunWidth(t: Text): nat
    requires t != []
  {
    if LeadingNewlines(t) == 0 then 1 else LeadingNewlines(t)
  }

  function RunKept(t: Text): Text
    requires t != []
  {
    var n := LeadingNewlines(t);
    if n == 0 then [t[0]] else if n >= 3 then [NEWLINE, NEWLINE] else t[..n]
  }

  lemma CollapseByRuns(t: Text)
    requires t != []
    ensures RunWidth(t) <= |t| && Collapse(t) == RunKept(t) + Collapse(t[RunWidth(t)..])
  {
  }

  lemma SameFirstRun(before: Text, rest: Text)
    requires before != [] && before[|before| - 1] != NEWLINE
    ensures var w := RunWidth(before);
            && w <= |before| && RunWidth(before + rest) == w && RunKept(before + rest) == RunKept(before)
            && (before + rest)[w..] == before[w..] + rest
            && (w < |before| ==> before[w..][|before[w..]| - 1] != NEWLINE)
  {
    SameLeadingRun(before, rest);
    var n := LeadingNewlines(before);
    assert (before + rest)[..n] == before[..n];
  }

  lemma JoinsInAnyOrder(a: Text, b: Text, c: Text)
    ensures a + (b + c) == (a + b) + c
  {
  }

  /** Text that does not end in a newline collapses independently of what follows. */
  lemma {:induction false} CollapseConcat(before: Text, rest: Text)
    requires before == [] || before[|before| - 1] != NEWLINE
    ensures Collapse(before + rest) == Collapse(before) + Collapse(rest)
    decreases |before|
  {
    if before == [] {
      assert before + rest == rest;
    } else {
      var tail := before[RunWidth(before)..];
      SameFirstRun(before, rest);
      CollapseByRuns(before);
      CollapseByRuns(before + rest);
      CollapseConcat(tail, rest);
      JoinsInAnyOrder(RunKept(before), Collapse(tail), Collapse(rest));
    }
  }

  /** A whole run of newlines inside a text becomes two of them if it has three or more, and stays otherwise. */
  lemma CollapseShortensRuns(before: Text, k: nat, rest: Text)
    requires (before == [] || before[|before| - 1] != NEWLINE) && (rest == [] || rest[0] != NEWLINE)
    ensures Collapse(before + (Newlines(k) + rest))
         == Collapse(before) + (Newlines(if k >= 3 then 2 else k) + Collapse(rest))
  {
    CollapseConcat(before, Newlines(k) + rest);
    CollapseOfALeadingRun(k, rest);
  }

  lemma {:induction false} SameLeadingRun(before: Text, rest: Text)
    requires LeadingNewlines(before) < |before|
    ensures LeadingNewlines(before + rest) == LeadingNewlines(before)
  {
    if before[0] == NEWLINE {
      assert (before + rest)[1..] == before[1..] + rest;
      SameLeadingRun(before[1..], rest);
    }
  }

  lemma {:induction false} TrimStartIsASuffix(t: Text) returns (k: nat)
    ensures k <= |t| && TrimStart(t) == t[k..] && (k < |t| ==> !IsSpace(t[k]))
    ensures forall i :: 0 <= i < k ==> IsSpace(t[i])
  {
    k := 0;
    if t != [] && IsSpace(t[0]) {
      var j := TrimStartIsASuffix(t[1..]);
      k := j + 1;
      assert t[1..][j..] == t[k..];
      forall i | 0 <= i < k ensures IsSpace(t[i]) {
        assert i > 0 ==> t[i] == t[1..][i - 1];
      }
    }
  }

  lemma {:induction false} TrimEndIsAPrefix(t: Text) returns (k: nat)
    ensures k <= |t| && TrimEnd(t) == t[..k] && (k > 0 ==> !IsSpace(t[k - 1]))
    ensures forall i :: k <= i < |t| ==> IsSpace(t[i])
    decreases |t|
  {
    k := |t|;
    if t != [] && IsSpace(t[|t| - 1]) {
      var s := t[..|t| - 1];
      k := TrimEndIsAPrefix(s);
      assert s[..k] == t[..k];
      forall i | k <= i < |t| ensures IsSpace(t[i]) {
        assert i < |s| ==> t[i] == s[i];
      }
    }
  }

  /** Trimming cuts whitespace off both ends and nothing else. */
  lemma TrimIsASlice(t: Text) returns (i: nat, j: nat)
    ensures i <= j <= |t| && Trim(t) == t[i..j]
    ensures forall k :: 0 <= k < |t| && !(i <= k < j) ==> IsSpace(t[k])
    ensures i < j ==> !IsSpace(t[i]) && !IsSpace(t[j - 1])
  {
    i := TrimStartIsASuffix(t);
    var n := TrimEndIsAPrefix(t[i..]);
    j := i + n;
    assert t[i..][..n] == t[i..j];
    forall k | 0 <= k < |t| && !(i <= k < j) ensures IsSpace(t[k]) {
      assert k >= i ==> t[k] == t[i..][k - i];
    }
    if i < j {
      assert t[i..][n - 1] == t[j - 1];
      assert TrimStart(t)[0] == t[i];
    }
  }

  /** The white space and line terminators of ECMA-262, one by one. */
  lemma WhitespaceIff(u: Unit)
    ensures IsSpace(u) <==> u in {9, 10, 11, 12, 13, 32, 160, 5760, 8192, 8193, 8194, 8195, 8196, 8197, 8198, 8199, 8200,
                                  8201, 8202, 8232, 8233, 8239, 8287, 12288, 65279}
  {
  }

  /** A body neither starts nor ends with whitespace before it is cut to its budget. */
  lemma BodyIsTrimmed(doc: Node)
    ensures WholeBody(doc) != [] ==> !IsSpace(WholeBody(doc)[0]) && !IsSpace(WholeBody(doc)[|WholeBody(doc)| - 1])
  {
    var i, j := TrimIsASlice(Collapse(Join(LinesOf(doc))));
  }

  lemma TrimKeepsTrimmed(t: Text)
    requires t != [] ==> !IsSpace(t[0]) && !IsSpace(t[|t| - 1])
    ensures Trim(t) == t
  {
  }

  /** Lines without three newlines in a row or whitespace at either end, and within the budget, are the body as they are. */
  lemma TidyLinesAreTheBody(doc: Node)
    requires var t := Join(LinesOf(doc));
             NoTripleNewline(t) && (t != [] ==> !IsSpace(t[0]) && !IsSpace(t[|t| - 1])) && Utf8Len(t) <= 0x10_0000
    ensures BodyText(doc) == Join(LinesOf(doc))
  {
    var t := Join(LinesOf(doc));
    CollapseKeepsShortRuns(t);
    TrimKeepsTrimmed(t);
    ClampIsIdempotent(t, MAX_BODY_BYTES);
  }

  /** Every projected body is at most 2^20 bytes and has no run of three newlines. */
  lemma BodyIsBounded(doc: Node)
    ensures Utf8Len(BodyText(doc)) <= 0x10_0000
    ensures NoTripleNewline(BodyText(doc))
  {
    var collapsed := Collapse(Join(LinesOf(doc)));
    CollapseLeavesNoTriple(Join(LinesOf(doc)));
    var i, j := TrimIsASlice(collapsed);
    ClampIsTheLongestFit(WholeBody(doc), MAX_BODY_BYTES, BodyText(doc));
    var n := |BodyText(doc)|;
    assert BodyText(doc) == collapsed[i..j][..n];
    forall k | 0 <= k && k + 2 < n
      ensures BodyText(doc)[k] != NEWLINE || BodyText(doc)[k + 1] != NEWLINE || BodyText(doc)[k + 2] != NEWLINE
    {
      assert BodyText(doc)[k] == collapsed[i + k] && BodyText(doc)[k + 1] == collapsed[i + k + 1];
      assert BodyText(doc)[k + 2] == collapsed[i + k + 2];
    }
  }

  // ---------------------------------------------------------------------------
  // Nothing but whitespace is lost
  // ---------------------------------------------------------------------------

  /** The first k units of a text, without the whitespace among them. */
  function InkOfFirst(t: Text, k: nat): Text
    requires k <= |t|
  {
    if k == 0 then [] else InkOfFirst(t, k - 1) + (if IsSpace(t[k - 1]) then [] else [t[k - 1]])
  }

  /** A text without its whitespace. */
  function Ink(t: Text): Text {
    InkOfFirst(t, |t|)
  }

  lemma {:induction false} InkOfAPrefix(a: Text, b: Text, k: nat)
    requires k <= |a|
    ensures InkOfFirst(a + b, k) == InkOfFirst(a, k)
  {
    if k > 0 {
      InkOfAPrefix(a, b, k - 1);
    }
  }

  lemma {:induction false} InkPastAPrefix(a: Text, b: Text, k: nat)
    requires k <= |b|
    ensures InkOfFirst(a + b, |a| + k) == Ink(a) + InkOfFirst(b, k)
  {
    if k == 0 {
      InkOfAPrefix(a, b, |a|);
    } else {
      InkPastAPrefix(a, b, k - 1);
    }
  }

  lemma InkOfConcat(a: Text, b: Text)
    ensures Ink(a + b) == Ink(a) + Ink(b)
  {
    InkPastAPrefix(a, b, |b|);
  }

  lemma {:induction false} SpacesHaveNoInkUpTo(t: Text, k: nat)
    requires k <= |t| && forall i :: 0 <= i < |t| ==> IsSpace(t[i])
    ensures InkOfFirst(t, k) == []
  {
    if k > 0 {
      SpacesHaveNoInkUpTo(t, k - 1);
    }
  }

  lemma SpacesHaveNoInk(t: Text)
    requires forall i :: 0 <= i < |t| ==> IsSpace(t[i])
    ensures Ink(t) == []
  {
    SpacesHaveNoInkUpTo(t, |t|);
  }

  lemma {:induction false} CollapseKeepsInk(t: Text)
    ensures Ink(Collapse(t)) == Ink(t)
    decreases |t|
  {
    if t != [] {
      var n := LeadingNewlines(t);
      if n == 0 {
        assert t == [t[0]] + t[1..];
        CollapseKeepsInk(t[1..]);
        InkOfConcat([t[0]], t[1..]);
        InkOfConcat([t[0]], Collapse(t[1..]));
      } else {
        var head := if n >= 3 then [NEWLINE, NEWLINE] else t[..n];
        assert t == t[..n] + t[n..];
        CollapseKeepsInk(t[n..]);
        InkOfConcat(t[..n], t[n..]);
        InkOfConcat(head, Collapse(t[n..]));
        SpacesHaveNoInk(t[..n]);
        SpacesHaveNoInk(head);
      }
    }
  }

  lemma TrimKeepsInk(t: Text)
    ensures Ink(Trim(t)) == Ink(t)
  {
    var i, j := TrimIsASlice(t);
    assert t == t[..i] + t[i..j] + t[j..];
    InkOfConcat(t[..i] + t[i..j], t[j..]);
    InkOfConcat(t[..i], t[i..j]);
    SpacesHaveNoInk(t[..i]);
    SpacesHaveNoInk(t[j..]);
  }

  /** Within the byte budget, the body is the text outside embeds, in order, up to whitespace. */
  lemma BodyLosesOnlyWhitespace(doc: Node)
    ensures Ink(WholeBody(doc)) == Ink(Join(LinesOf(doc)))
    ensures Utf8Len(WholeBody(doc)) <= MAX_BODY_BYTES ==> Ink(BodyText(doc)) == Ink(Join(LinesOf(doc)))
  {
    var joined := Join(LinesOf(doc));
    CollapseKeepsInk(joined);
    TrimKeepsInk(Collapse(joined));
    ClampIsIdempotent(WholeBody(doc), MAX_BODY_BYTES);
  }

  // ---------------------------------------------------------------------------
  // Nothing from embeds
  // ---------------------------------------------------------------------------

  /** Documents that differ only inside or on embeds, their types aside, have the same body. */
  lemma BodyIgnoresEmbeds(doc: Node, other: Node)
    requires Scrub(doc) == Scrub(other)
    ensures BodyText(doc) == BodyText(other)
  {
    ScrubKeepsLines(doc);
    ScrubKeepsLines(other);
  }
}
