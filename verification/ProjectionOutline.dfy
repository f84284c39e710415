/** When an outline is blind to what embeds hold. */
module ProjectionOutline {
  import opened Prelude
  import opened Utf8Clamp
  import opened ProjectionTree

  const MAX_OUTLINE: nat := 500

  function FirstEntries(es: seq<OutlineEntry>, n: nat): seq<OutlineEntry> {
    if |es| <= n then es else es[..n]
  }

  function Outline(doc: Node): seq<OutlineEntry> {
    FirstEntries(HeadingsOf(doc, []), MAX_OUTLINE)
  }

  /** How many units of embed text the headings of a document take in. */
  function Leaked(n: Node): nat
    decreases n, |n.content| + 1
  {
    if EmbedOf(n).Some? then 0
    else (if IsHeading(n) then |EmbedText(n)| else 0) + ChildrenLeaked(n, |n.content|)
  }

  function ChildrenLeaked(n: Node, k: nat): nat
    requires k <= |n.content|
    decreases n, k
  {
    if k == 0 then 0 else ChildrenLeaked(n, k - 1) + Leaked(n.content[k - 1])
  }

  /** No heading is cut at 512 units. */
  predicate HeadingsFit(n: Node)
    decreases n
  {
    EmbedOf(n).Some?
    || ((IsHeading(n) ==> |PlainText(n)| <= 512) && forall i :: 0 <= i < |n.content| ==> HeadingsFit(n.content[i]))
  }

  /** Text held by the first k entries, in units. */
  function TextOfFirst(es: seq<OutlineEntry>, k: nat): nat
    requires k <= |es|
  {
    if k == 0 then 0 else TextOfFirst(es, k - 1) + |es[k - 1].text|
  }

  function TextTotal(es: seq<OutlineEntry>): nat {
    TextOfFirst(es, |es|)
  }

  lemma {:induction false} TextOfAPrefix(a: seq<OutlineEntry>, b: seq<OutlineEntry>, k: nat)
    requires k <= |a|
    ensures TextOfFirst(a + b, k) == TextOfFirst(a, k)
  {
    if k > 0 {
      TextOfAPrefix(a, b, k - 1);
    }
  }

  lemma {:induction false} TextPastAPrefix(a: seq<OutlineEntry>, b: seq<OutlineEntry>, k: nat)
    requires k <= |b|
    ensures TextOfFirst(a + b, |a| + k) == TextTotal(a) + TextOfFirst(b, k)
  {
    if k == 0 {
      TextOfAPrefix(a, b, |a|);
    } else {
      TextPastAPrefix(a, b, k - 1);
    }
  }

  lemma TextTotalOfConcat(a: seq<OutlineEntry>, b: seq<OutlineEntry>)
    ensures TextTotal(a + b) == TextTotal(a) + TextTotal(b)
  {
    TextPastAPrefix(a, b, |b|);
  }

  lemma {:induction false} UnleakedHeadings(n: Node, outer: Text)
    requires Leaked(n) == 0
    ensures HeadingsOf(Scrub(n), outer) == HeadingsOf(n, outer)
    decreases n, |n.content| + 1
  {
    if EmbedOf(n).None? {
      PlainTextCountsEmbeds(n);
      UnleakedChildHeadings(n, BlockIdOf(n, outer), |n.content|);
    }
  }

  lemma {:induction false} UnleakedChildHeadings(n: Node, block: Text, k: nat)
    requires EmbedOf(n).None? && k <= |n.content| && ChildrenLeaked(n, k) == 0
    ensures ChildHeadings(Scrub(n), block, k) == ChildHeadings(n, block, k)
    decreases n, k
  {
    if k > 0 {
      UnleakedChildHeadings(n, block, k - 1);
      UnleakedHeadings(n.content[k - 1], block);
    }
  }

  lemma OwnHeadingTotal(n: Node, block: Text)
    requires IsHeading(n) ==> |PlainText(n)| <= 512
    ensures TextTotal(OwnHeading(n, block)) == if IsHeading(n) then |PlainText(n)| else 0
  {
    var own := OwnHeading(n, block);
    assert own != [] ==> TextOfFirst(own, 1) == TextOfFirst(own, 0) + |own[0].text|;
  }

  /** Plain text of all headings, in units. */
  function HeadingUnits(n: Node): nat
    decreases n, |n.content| + 1
  {
    if EmbedOf(n).Some? then 0
    else (if IsHeading(n) then |PlainText(n)| else 0) + ChildHeadingUnits(n, |n.content|)
  }

  function ChildHeadingUnits(n: Node, k: nat): nat
    requires k <= |n.content|
    decreases n, k
  {
    if k == 0 then 0 else ChildHeadingUnits(n, k - 1) + HeadingUnits(n.content[k - 1])
  }

  lemma LastChildTotal(n: Node, block: Text, k: nat)
    requires 0 < k <= |n.content|
    ensures TextTotal(ChildHeadings(n, block, k))
         == TextTotal(ChildHeadings(n, block, k - 1)) + TextTotal(HeadingsOf(n.content[k - 1], block))
  {
    TextTotalOfConcat(ChildHeadings(n, block, k - 1), HeadingsOf(n.content[k - 1], block));
  }

  lemma {:induction false} UncutHeadingsHoldAllUnits(n: Node, outer: Text)
    requires HeadingsFit(n)
    ensures TextTotal(HeadingsOf(n, outer)) == HeadingUnits(n)
    decreases n, |n.content| + 1
  {
    if EmbedOf(n).None? {
      var block := BlockIdOf(n, outer);
      OwnHeadingTotal(n, block);
      UncutChildHeadingsHoldAllUnits(n, block, |n.content|);
      TextTotalOfConcat(OwnHeading(n, block), ChildHeadings(n, block, |n.content|));
    }
  }

  lemma {:induction false} UncutChildHeadingsHoldAllUnits(n: Node, block: Text, k: nat)
    requires k <= |n.content| && forall i :: 0 <= i < k ==> HeadingsFit(n.content[i])
    ensures TextTotal(ChildHeadings(n, block, k)) == ChildHeadingUnits(n, k)
    decreases n, k
  {
    if k > 0 {
      UncutChildHeadingsHoldAllUnits(n, block, k - 1);
      UncutHeadingsHoldAllUnits(n.content[k - 1], block);
      LastChildTotal(n, block, k);
    }
  }

  lemma {:induction false} ScrubTakesTheLeak(n: Node)
    ensures HeadingUnits(n) == HeadingUnits(Scrub(n)) + Leaked(n)
    ensures HeadingsFit(n) ==> HeadingsFit(Scrub(n))
    decreases n, |n.content| + 1
  {
    if EmbedOf(n).None? {
      PlainTextCountsEmbeds(n);
      ScrubTakesTheChildrensLeak(n, |n.content|);
    }
  }

  lemma {:induction false} ScrubTakesTheChildrensLeak(n: Node, k: nat)
    requires EmbedOf(n).None? && k <= |n.content|
    ensures ChildHeadingUnits(n, k) == ChildHeadingUnits(Scrub(n), k) + ChildrenLeaked(n, k)
    ensures HeadingsFit(n) ==> forall i :: 0 <= i < k ==> HeadingsFit(Scrub(n.content[i]))
    decreases n, k
  {
    if k > 0 {
      ScrubTakesTheChildrensLeak(n, k - 1);
      ScrubTakesTheLeak(n.content[k - 1]);
    }
  }

  /** An outline shows nothing of its embeds if no heading takes in embed text. */
  lemma OutlineHidesEmbeds(doc: Node)
    requires Leaked(doc) == 0
    ensures Outline(doc) == Outline(Scrub(doc))
  {
    UnleakedHeadings(doc, []);
  }

  lemma FirstHoldNoMore(es: seq<OutlineEntry>, n: nat)
    ensures TextTotal(FirstEntries(es, n)) <= TextTotal(es)
  {
    var first := FirstEntries(es, n);
    assert es == first + es[|first|..];
    TextTotalOfConcat(first, es[|first|..]);
  }

  /** Where no cap cuts the outline, that is also the only case. */
  lemma OutlineHidesEmbedsIff(doc: Node)
    requires HeadingsFit(doc) && |HeadingsOf(doc, [])| <= MAX_OUTLINE
    ensures Outline(doc) == Outline(Scrub(doc)) <==> Leaked(doc) == 0
  {
    ScrubTakesTheLeak(doc);
    UncutHeadingsHoldAllUnits(doc, []);
    UncutHeadingsHoldAllUnits(Scrub(doc), []);
    FirstHoldNoMore(HeadingsOf(Scrub(doc), []), MAX_OUTLINE);
    if Leaked(doc) == 0 {
      UnleakedHeadings(doc, []);
    }
  }

  // ---------------------------------------------------------------------------
  // Under the caps
  // ---------------------------------------------------------------------------

  /** Units of plain text ahead of the first text taken from an embed. */
  function CleanUnits(n: Node): nat
    decreases n, |n.content| + 1
  {
    if EmbedOf(n).Some? then 0
    else if n.text.Some? then |n.text.value|
    else ChildCleanUnits(n, |n.content|)
  }

  function ChildCleanUnits(n: Node, k: nat): nat
    requires k <= |n.content|
    decreases n, k
  {
    if k == 0 then 0
    else if ChildEmbedText(n, k - 1) != [] then ChildCleanUnits(n, k - 1)
    else |ChildPlain(n, k - 1)| + CleanUnits(n.content[k - 1])
  }

  /** Two texts that agree up to a position that neither ends before. */
  predicate AgreeUpTo(a: Text, b: Text, n: nat) {
    n <= |a| && n <= |b| && a[..n] == b[..n]
  }

  lemma {:induction false} CleanUnitsAgree(n: Node)
    ensures AgreeUpTo(PlainText(n), PlainText(Scrub(n)), CleanUnits(n))
    decreases n, |n.content| + 1
  {
    if EmbedOf(n).None? && n.text.None? {
      ChildCleanUnitsAgree(n, |n.content|);
    }
  }

  lemma {:induction false} ChildCleanUnitsAgree(n: Node, k: nat)
    requires EmbedOf(n).None? && k <= |n.content|
    ensures AgreeUpTo(ChildPlain(n, k), ChildPlain(Scrub(n), k), ChildCleanUnits(n, k))
    decreases n, k
  {
    if k > 0 {
      ChildCleanUnitsAgree(n, k - 1);
      CleanUnitsAgree(n.content[k - 1]);
      ChildPlainCountsEmbeds(n, k - 1);
    }
  }

  /** What the outline shows of this heading comes from outside its embeds. */
  predicate ShowsNoEmbed(n: Node) {
    EmbedText(n) == [] || CleanUnits(n) >= 512
  }

  lemma CleanHeadingIsKept(n: Node, block: Text)
    requires EmbedOf(n).None? && ShowsNoEmbed(n)
    ensures OwnHeading(Scrub(n), block) == OwnHeading(n, block)
  {
    PlainTextCountsEmbeds(n);
    CleanUnitsAgree(n);
    var a, b := PlainText(n), PlainText(Scrub(n));
    if EmbedText(n) != [] {
      assert a[..512] == a[..CleanUnits(n)][..512] == b[..CleanUnits(n)][..512] == b[..512];
      FirstUnitsIsTake(a, 512);
      FirstUnitsIsTake(b, 512);
      assert a != [] && b != [];
    }
  }

  lemma FirstUnitsIsTake(t: Text, n: nat)
    requires n <= |t|
    ensures FirstUnits(t, n) == t[..n]
  {
  }

  /** For each outline entry, whether it shows no embed text. */
  function Marks(n: Node): seq<bool>
    decreases n, |n.content| + 1
  {
    if EmbedOf(n).Some? then []
    else (if IsHeading(n) && PlainText(n) != [] then [ShowsNoEmbed(n)] else []) + ChildMarks(n, |n.content|)
  }

  function ChildMarks(n: Node, k: nat): seq<bool>
    requires k <= |n.content|
    decreases n, k
  {
    if k == 0 then [] else ChildMarks(n, k - 1) + Marks(n.content[k - 1])
  }

  /** How many entries from the start are marked. */
  function Leading(marks: seq<bool>): (c: nat)
    ensures c <= |marks|
  {
    if marks == [] || !marks[0] then 0 else 1 + Leading(marks[1..])
  }

  /** The marked entries at the start are the same in both outlines, and if all are marked, the outlines are. */
  predicate SameWhileMarked(es: seq<OutlineEntry>, bare: seq<OutlineEntry>, marks: seq<bool>) {
    && |es| == |marks| && Leading(marks) <= |bare|
    && es[..Leading(marks)] == bare[..Leading(marks)]
    && (Leading(marks) == |marks| ==> es == bare)
  }

  lemma {:induction false} LeadingOfConcat(a: seq<bool>, b: seq<bool>)
    ensures Leading(a + b) == if Leading(a) == |a| then |a| + Leading(b) else Leading(a)
    decreases |a|
  {
    if a == [] {
      assert a + b == b;
    } else {
      assert (a + b)[1..] == a[1..] + b;
      LeadingOfConcat(a[1..], b);
    }
  }

  lemma SameWhileMarkedConcat(es: seq<OutlineEntry>, bare: seq<OutlineEntry>, marks: seq<bool>,
                              es': seq<OutlineEntry>, bare': seq<OutlineEntry>, marks': seq<bool>)
    requires SameWhileMarked(es, bare, marks) && SameWhileMarked(es', bare', marks')
    ensures SameWhileMarked(es + es', bare + bare', marks + marks')
  {
    LeadingOfConcat(marks, marks');
    var c, d := Leading(marks), Leading(marks');
    if c == |marks| {
      assert (es + es')[..c + d] == es + es'[..d] == bare + bare'[..d] == (bare + bare')[..c + d];
    } else {
      assert (es + es')[..c] == es[..c] == bare[..c] == (bare + bare')[..c];
    }
  }

  lemma OwnMark(n: Node, block: Text)
    requires EmbedOf(n).None?
    ensures var marks := if IsHeading(n) && PlainText(n) != [] then [ShowsNoEmbed(n)] else [];
            SameWhileMarked(OwnHeading(n, block), OwnHeading(Scrub(n), block), marks)
  {
    PlainTextCountsEmbeds(n);
    if ShowsNoEmbed(n) {
      CleanHeadingIsKept(n, block);
    }
    assert [true][1..] == [] && Leading([true]) == 1 && Leading([false]) == 0;
  }

  lemma {:induction false} MarkedHeadings(n: Node, outer: Text)
    ensures SameWhileMarked(HeadingsOf(n, outer), HeadingsOf(Scrub(n), outer), Marks(n))
    decreases n, |n.content| + 1
  {
    if EmbedOf(n).None? {
      var block := BlockIdOf(n, outer);
      OwnMark(n, block);
      MarkedChildHeadings(n, block, |n.content|);
      SameWhileMarkedConcat(OwnHeading(n, block), OwnHeading(Scrub(n), block),
                            if IsHeading(n) && PlainText(n) != [] then [ShowsNoEmbed(n)] else [],
                            ChildHeadings(n, block, |n.content|), ChildHeadings(Scrub(n), block, |n.content|),
                            ChildMarks(n, |n.content|));
    }
  }

  lemma {:induction false} MarkedChildHeadings(n: Node, block: Text, k: nat)
    requires EmbedOf(n).None? && k <= |n.content|
    ensures SameWhileMarked(ChildHeadings(n, block, k), ChildHeadings(Scrub(n), block, k), ChildMarks(n, k))
    decreases n, k
  {
    if k > 0 {
      MarkedChildHeadings(n, block, k - 1);
      MarkedHeadings(n.content[k - 1], block);
      SameWhileMarkedConcat(ChildHeadings(n, block, k - 1), ChildHeadings(Scrub(n), block, k - 1), ChildMarks(n, k - 1),
                            HeadingsOf(n.content[k - 1], block), HeadingsOf(Scrub(n.content[k - 1]), block),
                            Marks(n.content[k - 1]));
    }
  }

  /**
   * Over the caps too: the outline shows nothing of its embeds if, up to the 500th non-empty heading, no heading
   * takes embed text into its first 512 units.
   */
  lemma OutlineHidesEmbedsUnderCaps(doc: Node)
    requires Leading(Marks(doc)) >= MAX_OUTLINE || Leading(Marks(doc)) == |Marks(doc)|
    ensures Outline(doc) == Outline(Scrub(doc))
  {
    MarkedHeadings(doc, []);
    var es, bare, c := HeadingsOf(doc, []), HeadingsOf(Scrub(doc), []), Leading(Marks(doc));
    if c >= MAX_OUTLINE {
      assert es[..MAX_OUTLINE] == es[..c][..MAX_OUTLINE] == bare[..c][..MAX_OUTLINE] == bare[..MAX_OUTLINE];
    }
  }

  /** Embeds that hold no text of their own leak nothing. */
  predicate EmbedsAreLeaves(n: Node)
    decreases n
  {
    if EmbedOf(n).Some? then n.content == [] && n.text.None?
    else forall i :: 0 <= i < |n.content| ==> EmbedsAreLeaves(n.content[i])
  }

  lemma {:induction false} LeafEmbedsHoldNoText(n: Node)
    requires EmbedsAreLeaves(n)
    ensures EmbedText(n) == []
    decreases n, |n.content| + 1
  {
    if EmbedOf(n).None? {
      LeafChildrenHoldNoText(n, |n.content|);
    } else {
      assert PlainText(n) == ChildPlain(n, 0);
    }
  }

  lemma {:induction false} LeafChildrenHoldNoText(n: Node, k: nat)
    requires EmbedOf(n).None? && EmbedsAreLeaves(n) && k <= |n.content|
    ensures ChildEmbedText(n, k) == []
    decreases n, k
  {
    if k > 0 {
      LeafChildrenHoldNoText(n, k - 1);
      LeafEmbedsHoldNoText(n.content[k - 1]);
    }
  }

  lemma {:induction false} LeafEmbedsLeakNothing(n: Node)
    requires EmbedsAreLeaves(n)
    ensures Leaked(n) == 0
    decreases n, |n.content| + 1
  {
    if EmbedOf(n).None? {
      LeafEmbedsHoldNoText(n);
      LeafChildrenLeakNothing(n, |n.content|);
    }
  }

  lemma {:induction false} LeafChildrenLeakNothing(n: Node, k: nat)
    requires EmbedOf(n).None? && EmbedsAreLeaves(n) && k <= |n.content|
    ensures ChildrenLeaked(n, k) == 0
    decreases n, k
  {
    if k > 0 {
      LeafChildrenLeakNothing(n, k - 1);
      LeafEmbedsLeakNothing(n.content[k - 1]);
    }
  }

  function Leaf(typ: NodeType, text: Option<Text>): Node {
    Node(typ, Missing, Missing, Missing, None, [], text)
  }

  /** A heading holding a drive embed with a label: the label reaches the outline. */
  lemma AnEmbedLabelReachesTheOutline(title: Text)
    requires 0 < |title| <= 512
    ensures var doc := Node(Heading, Missing, Missing, Missing, None, [Leaf(DriveEmbed, Some(title))], None);
            Outline(doc) == [OutlineEntry([], 1.0, title)] && Outline(Scrub(doc)) == []
  {
    var embed := Leaf(DriveEmbed, Some(title));
    var doc := Node(Heading, Missing, Missing, Missing, None, [embed], None);
    assert PlainText(doc) == ChildPlain(doc, 0) + PlainText(embed) == title;
    assert HeadingsOf(embed, []) == [];
    assert ChildHeadings(doc, [], 1) == ChildHeadings(doc, [], 0) + [] == [];
    var bare := Scrub(doc);
    var rest := bare.content[0];
    assert EmbedOf(doc).None? && bare.content == [Scrub(embed)];
    assert rest == Scrub(embed) == Leaf(DriveEmbed, None);
    assert PlainText(rest) == ChildPlain(rest, 0) == [];
    assert PlainText(bare) == ChildPlain(bare, 0) + PlainText(rest) == [];
    assert HeadingsOf(rest, []) == [];
    assert ChildHeadings(bare, [], 1) == ChildHeadings(bare, [], 0) + [] == [];
  }
}
