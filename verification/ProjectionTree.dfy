/** Document trees, and what a projection reads from them, without accumulators. */
module ProjectionTree {
  import opened Prelude
  import opened Utf8Clamp

  // ---------------------------------------------------------------------------
  // Nodes
  // ---------------------------------------------------------------------------

  /** An attribute as its readers see it: absent or null, a string, or anything else. */
  datatype Attr = Missing | Str(value: Text) | Other

  /** The type names the extractor tells apart; Unknown is any other. */
  datatype NodeType =
    | Untyped
    | Mention | DriveEmbed | IssueEmbed
    | Paragraph | Heading | ListItem | TaskItem | Blockquote | CodeBlock
    | Unknown(name: string)

  /** A node as JSON; level is the level attribute where that is a number. */
  datatype Node = Node(
    typ: NodeType,
    blockId: Attr,
    refId: Attr,
    id: Attr,
    level: Option<real>,
    content: seq<Node>,
    text: Option<Text>)

  datatype RefType = User | File | Issue

  /** REF_TYPES of the schema. */
  function EmbedOf(n: Node): Option<RefType> {
    match n.typ
    case Mention => Some(User)
    case DriveEmbed => Some(File)
    case IssueEmbed => Some(Issue)
    case _ => None
  }

  predicate IsBlock(n: Node) {
    n.typ.Paragraph? || n.typ.Heading? || n.typ.ListItem? || n.typ.TaskItem? || n.typ.Blockquote? || n.typ.CodeBlock?
  }

  predicate IsHeading(n: Node) {
    n.typ.Heading?
  }

  const NEWLINE: Unit := 10
  const COLON: Unit := 58

  function FirstUnits(t: Text, n: nat): (r: Text)
    ensures r <= t && |r| == if |t| <= n then |t| else n
  {
    if |t| <= n then t else t[..n]
  }

  /** A node's own block id, or the nearest ancestor's. */
  function BlockIdOf(n: Node, outer: Text): Text {
    if n.blockId.Str? then n.blockId.value else outer
  }

  // ---------------------------------------------------------------------------
  // Lines
  // ---------------------------------------------------------------------------

  function LinesOf(n: Node): seq<Text>
    decreases n, |n.content| + 1
  {
    if EmbedOf(n).Some? then []
    else
      (if n.text.Some? then [n.text.value] else [])
      + ChildLines(n, |n.content|)
      + (if IsBlock(n) then [[NEWLINE]] else [])
  }

  /** The lines of the first k children. */
  function ChildLines(n: Node, k: nat): seq<Text>
    requires k <= |n.content|
    decreases n, k
  {
    if k == 0 then [] else ChildLines(n, k - 1) + LinesOf(n.content[k - 1])
  }

  // ---------------------------------------------------------------------------
  // Headings
  // ---------------------------------------------------------------------------

  function PlainText(n: Node): Text
    decreases n, |n.content| + 1
  {
    if n.text.Some? then n.text.value else ChildPlain(n, |n.content|)
  }

  function ChildPlain(n: Node, k: nat): Text
    requires k <= |n.content|
    decreases n, k
  {
    if k == 0 then [] else ChildPlain(n, k - 1) + PlainText(n.content[k - 1])
  }

  datatype OutlineEntry = OutlineEntry(blockId: Text, level: real, text: Text)

  function ClampLevel(level: Option<real>): (r: real)
    ensures 1.0 <= r <= 6.0
  {
    var l := if level.Some? then level.value else 1.0;
    var atLeast := if l < 1.0 then 1.0 else l;
    if atLeast > 6.0 then 6.0 else atLeast
  }

  /** The outline entry of one heading, if it has any text. */
  function OwnHeading(n: Node, block: Text): seq<OutlineEntry> {
    if IsHeading(n) && PlainText(n) != []
    then [OutlineEntry(FirstUnits(block, 64), ClampLevel(n.level), FirstUnits(PlainText(n), 512))]
    else []
  }

  /** Entries of all non-empty headings in document order. */
  function HeadingsOf(n: Node, outer: Text): seq<OutlineEntry>
    decreases n, |n.content| + 1
  {
    if EmbedOf(n).Some? then []
    else OwnHeading(n, BlockIdOf(n, outer)) + ChildHeadings(n, BlockIdOf(n, outer), |n.content|)
  }

  function ChildHeadings(n: Node, block: Text, k: nat): seq<OutlineEntry>
    requires k <= |n.content|
    decreases n, k
  {
    if k == 0 then [] else ChildHeadings(n, block, k - 1) + HeadingsOf(n.content[k - 1], block)
  }

  /** Every entry of the outline has a level in 1..6 and a text of 1 to 512 units. */
  predicate WellFormed(e: OutlineEntry) {
    1.0 <= e.level <= 6.0 && 1 <= |e.text| <= 512 && |e.blockId| <= 64
  }

  lemma {:induction false} HeadingsAreWellFormed(n: Node, outer: Text)
    ensures forall e :: e in HeadingsOf(n, outer) ==> WellFormed(e)
    decreases n, |n.content| + 1
  {
    if EmbedOf(n).None? {
      ChildHeadingsAreWellFormed(n, BlockIdOf(n, outer), |n.content|);
    }
  }

  lemma {:induction false} ChildHeadingsAreWellFormed(n: Node, block: Text, k: nat)
    requires k <= |n.content|
    ensures forall e :: e in ChildHeadings(n, block, k) ==> WellFormed(e)
    decreases n, k
  {
    if k > 0 {
      ChildHeadingsAreWellFormed(n, block, k - 1);
      HeadingsAreWellFormed(n.content[k - 1], block);
    }
  }

  // ---------------------------------------------------------------------------
  // References
  // ---------------------------------------------------------------------------

  datatype Ref = Ref(typ: RefType, target: Text, block: Text)

  /** attrs.refId ?? attrs.id */
  function TargetOf(n: Node): Attr {
    if n.refId.Missing? then n.id else n.refId
  }

  /** The reference of one embed, if it names a target. */
  function OwnRef(n: Node, block: Text): seq<Ref> {
    var target := TargetOf(n);
    if EmbedOf(n).Some? && target.Str? && target.value != []
    then [Ref(EmbedOf(n).value, target.value, block)]
    else []
  }

  /** Every reference in document order, repeats included. */
  function RefsOf(n: Node, outer: Text): seq<Ref>
    decreases n, |n.content| + 1
  {
    if EmbedOf(n).Some? then OwnRef(n, BlockIdOf(n, outer))
    else ChildRefs(n, BlockIdOf(n, outer), |n.content|)
  }

  function ChildRefs(n: Node, block: Text, k: nat): seq<Ref>
    requires k <= |n.content|
    decreases n, k
  {
    if k == 0 then [] else ChildRefs(n, block, k - 1) + RefsOf(n.content[k - 1], block)
  }

  // ---------------------------------------------------------------------------
  // Embeds stripped to their type
  // ---------------------------------------------------------------------------

  /** The same document with nothing inside or on any embed but its type. */
  function Scrub(n: Node): Node
    decreases n
  {
    if EmbedOf(n).Some? then Node(n.typ, Missing, Missing, Missing, None, [], None)
    else n.(content := seq(|n.content|, i requires 0 <= i < |n.content| => Scrub(n.content[i])))
  }

  lemma {:induction false} ScrubKeepsLines(n: Node)
    ensures LinesOf(Scrub(n)) == LinesOf(n)
    decreases n, |n.content| + 1
  {
    if EmbedOf(n).None? {
      ScrubKeepsChildLines(n, |n.content|);
    }
  }

  lemma {:induction false} ScrubKeepsChildLines(n: Node, k: nat)
    requires EmbedOf(n).None? && k <= |n.content|
    ensures ChildLines(Scrub(n), k) == ChildLines(n, k)
    decreases n, k
  {
    if k > 0 {
      ScrubKeepsChildLines(n, k - 1);
      ScrubKeepsLines(n.content[k - 1]);
    }
  }

  /** What plainText takes from inside embeds below a node. */
  function EmbedText(n: Node): Text
    decreases n, |n.content| + 1
  {
    if EmbedOf(n).Some? then PlainText(n)
    else if n.text.Some? then []
    else ChildEmbedText(n, |n.content|)
  }

  function ChildEmbedText(n: Node, k: nat): Text
    requires k <= |n.content|
    decreases n, k
  {
    if k == 0 then [] else ChildEmbedText(n, k - 1) + EmbedText(n.content[k - 1])
  }

  lemma {:induction false} PlainTextCountsEmbeds(n: Node)
    ensures |PlainText(n)| == |PlainText(Scrub(n))| + |EmbedText(n)|
    ensures EmbedText(n) == [] ==> PlainText(n) == PlainText(Scrub(n))
    decreases n, |n.content| + 1
  {
    if EmbedOf(n).None? && n.text.None? {
      ChildPlainCountsEmbeds(n, |n.content|);
    }
  }

  lemma {:induction false} ChildPlainCountsEmbeds(n: Node, k: nat)
    requires EmbedOf(n).None? && k <= |n.content|
    ensures |ChildPlain(n, k)| == |ChildPlain(Scrub(n), k)| + |ChildEmbedText(n, k)|
    ensures ChildEmbedText(n, k) == [] ==> ChildPlain(n, k) == ChildPlain(Scrub(n), k)
    decreases n, k
  {
    if k > 0 {
      ChildPlainCountsEmbeds(n, k - 1);
      PlainTextCountsEmbeds(n.content[k - 1]);
    }
  }

  /** A node's plain text is blind to embeds exactly when no embed below it holds text. */
  lemma PlainTextHidesEmbedsIff(n: Node)
    ensures PlainText(n) == PlainText(Scrub(n)) <==> EmbedText(n) == []
  {
    PlainTextCountsEmbeds(n);
  }
}
