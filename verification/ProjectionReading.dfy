/** What a projection says of its document, read off the positions of the nodes. */
module ProjectionReading {
  import opened Utf8Clamp
  import opened ProjectionTree
  import opened ProjectionPaths
  import opened ProjectionBody
  import opened ProjectionRefs
  import opened ProjectionExtractor

  // ---------------------------------------------------------------------------
  // Lines
  // ---------------------------------------------------------------------------

  lemma {:induction false} JoinOfAPrefix(a: seq<Text>, b: seq<Text>, k: nat)
    requires k <= |a|
    ensures JoinFirst(a + b, k) == JoinFirst(a, k)
  {
    if k > 0 {
      JoinOfAPrefix(a, b, k - 1);
    }
  }

  lemma {:induction false} JoinPastAPrefix(a: seq<Text>, b: seq<Text>, k: nat)
    requires k <= |b|
    ensures JoinFirst(a + b, |a| + k) == Join(a) + JoinFirst(b, k)
  {
    if k == 0 {
      JoinOfAPrefix(a, b, |a|);
    } else {
      JoinPastAPrefix(a, b, k - 1);
    }
  }

  lemma JoinConcat(a: seq<Text>, b: seq<Text>)
    ensures Join(a + b) == Join(a) + Join(b)
  {
    JoinPastAPrefix(a, b, |b|);
  }

  lemma JoinOne(t: Text)
    ensures Join([t]) == t
  {
    assert JoinFirst([t], 0) + t == t;
  }

  /** The six kinds of block, and only they, end in a line break. */
  predicate EndsALine(n: Node) {
    || n.typ == Paragraph || n.typ == Heading || n.typ == ListItem
    || n.typ == TaskItem || n.typ == Blockquote || n.typ == CodeBlock
  }

  /** A node's lines: its own text, its children's lines, and a line break if it is a block. */
  lemma LinesOfANode(n: Node)
    requires !IsEmbed(n)
    ensures Join(LinesOf(n)) == (if n.text.Some? then n.text.value else []) + Join(ChildLines(n, |n.content|))
                                + (if EndsALine(n) then [10] else [])
  {
    var own: seq<Text> := if n.text.Some? then [n.text.value] else [];
    var end: seq<Text> := if EndsALine(n) then [[10]] else [];
    JoinOne([10]);
    if n.text.Some? {
      JoinOne(n.text.value);
    }
    JoinConcat(own + ChildLines(n, |n.content|), end);
    JoinConcat(own, ChildLines(n, |n.content|));
    assert LinesOf(n) == own + ChildLines(n, |n.content|) + end;
  }

  /** An embed has no lines, and each child's lines follow the earlier children's. */
  lemma LinesInOrder(n: Node, k: nat)
    requires k < |n.content|
    ensures IsEmbed(n) ==> LinesOf(n) == []
    ensures Join(ChildLines(n, k + 1)) == Join(ChildLines(n, k)) + Join(LinesOf(n.content[k]))
  {
    JoinConcat(ChildLines(n, k), LinesOf(n.content[k]));
  }

  // ---------------------------------------------------------------------------
  // The body
  // ---------------------------------------------------------------------------

  /** The text of a node that is not an embed. */
  function ShownAt(n: Node, path: Path): Text {
    match NodeAt(n, path)
    case None => []
    case Some(m) => if !IsEmbed(m) && m.text.Some? then m.text.value else []
  }

  lemma ShownAtBelow(n: Node, i: nat, p: Path)
    requires i < |n.content|
    ensures ShownAt(n, [i] + p) == ShownAt(n.content[i], p)
  {
    assert ([i] + p)[1..] == p;
  }

  lemma InkOfBoth(a: Text, b: Text, c: Text, d: Text)
    requires Ink(a) == Ink(c) && Ink(b) == Ink(d)
    ensures Ink(a + b) == Ink(c + d)
  {
    InkOfConcat(a, b);
    InkOfConcat(c, d);
  }

  /** The text of all nodes outside embeds, in document order. */
  function ShownText(n: Node): Text {
    Gather(Positions(n, Projecting), (p: Path) => ShownAt(n, p))
  }

  function ChildShownText(n: Node, k: nat): Text
    requires k <= |n.content|
  {
    Gather(ChildPositions(n, k, Projecting), (p: Path) => ShownAt(n, p))
  }

  lemma ShownOfANode(n: Node)
    ensures ShownText(n) == if IsEmbed(n) then [] else
              (if n.text.Some? then n.text.value else []) + ChildShownText(n, |n.content|)
  {
    var at := (p: Path) => ShownAt(n, p);
    GatherOne(at);
    if IsEmbed(n) {
      assert Positions(n, Projecting) == [[]];
    } else {
      GatherConcat([[]], ChildPositions(n, |n.content|, Projecting), at);
    }
  }

  lemma LastChildShown(n: Node, k: nat)
    requires 0 < k <= |n.content|
    ensures ChildShownText(n, k) == ChildShownText(n, k - 1) + ShownText(n.content[k - 1])
  {
    var child := n.content[k - 1];
    var at, below := (p: Path) => ShownAt(n, p), (p: Path) => ShownAt(child, p);
    forall p ensures at([k - 1] + p) == below(p) {
      ShownAtBelow(n, k - 1, p);
    }
    GatherLastChild(n, k, Projecting, at, below);
  }

  lemma {:induction false} LinesAreAtPositions(n: Node)
    ensures Ink(Join(LinesOf(n))) == Ink(ShownText(n))
    decreases n, |n.content| + 1
  {
    ShownOfANode(n);
    if !IsEmbed(n) {
      var own: Text := if n.text.Some? then n.text.value else [];
      var end: Text := if EndsALine(n) then [10] else [];
      var inner := Join(ChildLines(n, |n.content|));
      LinesOfANode(n);
      ChildLinesAreAtPositions(n, |n.content|);
      InkOfConcat(own + inner, end);
      InkOfBoth(own, inner, own, ChildShownText(n, |n.content|));
      SpacesHaveNoInk(end);
    }
  }

  lemma {:induction false} ChildLinesAreAtPositions(n: Node, k: nat)
    requires k <= |n.content|
    ensures Ink(Join(ChildLines(n, k))) == Ink(ChildShownText(n, k))
    decreases n, k
  {
    if k > 0 {
      var child := n.content[k - 1];
      ChildLinesAreAtPositions(n, k - 1);
      LinesAreAtPositions(child);
      LastChildShown(n, k);
      LinesInOrder(n, k - 1);
      InkOfBoth(Join(ChildLines(n, k - 1)), Join(LinesOf(child)), ChildShownText(n, k - 1), ShownText(child));
    }
  }

  /** Within the byte budget the body is the text of all nodes outside embeds, in document order, up to whitespace. */
  lemma BodyIsTheTextAtPositions(doc: Node)
    requires Utf8Len(WholeBody(doc)) <= 0x10_0000
    ensures Ink(BodyText(doc)) == Ink(ShownText(doc))
  {
    BodyLosesOnlyWhitespace(doc);
    LinesAreAtPositions(doc);
  }

  // ---------------------------------------------------------------------------
  // The whole projection
  // ---------------------------------------------------------------------------

  /** An emitted reference, field by field. */
  predicate Tells(out: ProjectionRef, r: Ref) {
    && out.refType == r.typ && out.refId == r.target
    && out.blockId == if |r.block| > 64 then r.block[..64] else r.block
  }

  /**
   * The outline is the first 500 entries of the headings met in document order; the references are those of the
   * embeds met in document order, the first of every key, up to 1000, field by field.
   */
  lemma ProjectionsReadDocuments(doc: Node, p: Projection)
    requires Projects(doc, p)
    ensures var headings := HeadingsMet(doc, []);
            p.outline == if |headings| > 500 then headings[..500] else headings
    ensures var met := FirstByKey(RefsMet(doc, []));
            && |p.refs| == (if |met| > 1000 then 1000 else |met|)
            && forall i :: 0 <= i < |p.refs| ==> Tells(p.refs[i], met[i])
  {
    HeadingsAreAtPositions(doc, []);
    RefsAreAtPositions(doc, []);
    var met := FirstByKey(RefsOf(doc, []));
    var kept := FirstRefs(met, MAX_REFS);
    assert forall i :: 0 <= i < |kept| ==> kept[i] == met[i];
  }
}
