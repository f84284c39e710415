/** The walk that fills the accumulators of one projection, and the projection it returns. */
module ProjectionExtractor {
  import opened Utf8Clamp
  import opened ProjectionTree
  import opened ProjectionOutline
  import opened ProjectionBody
  import opened ProjectionRefs

  datatype Projection = Projection(
    sequence: nat,
    schemaVersion: nat,
    bodyText: Text,
    outline: seq<OutlineEntry>,
    refs: seq<ProjectionRef>)

  const SCHEMA_VERSION: nat := 1

  /** The references kept of those offered. */
  function Kept(offered: seq<Ref>): seq<Ref> {
    FirstRefs(FirstByKey(offered), MAX_REFS)
  }

  ghost predicate KeysOf(rs: seq<Ref>, keys: set<Text>) {
    forall key :: key in keys <==> HasKey(rs, key)
  }

  /** What a stretch of the walk adds to the accumulators, before the caps. */
  datatype Yield = Yield(lines: seq<Text>, headings: seq<OutlineEntry>, refs: seq<Ref>)

  function Plus(a: Yield, b: Yield): Yield {
    Yield(a.lines + b.lines, a.headings + b.headings, a.refs + b.refs)
  }

  function YieldOf(n: Node, outer: Text): Yield {
    Yield(LinesOf(n), HeadingsOf(n, outer), RefsOf(n, outer))
  }

  function ChildYield(n: Node, block: Text, k: nat): Yield
    requires k <= |n.content|
  {
    Yield(ChildLines(n, k), ChildHeadings(n, block, k), ChildRefs(n, block, k))
  }

  /** A node's own text and heading, ahead of its children. */
  function Opening(n: Node, block: Text): Yield {
    Yield(if n.text.Some? then [n.text.value] else [], OwnHeading(n, block), [])
  }

  /** The line break after a block. */
  function Closing(n: Node): Yield {
    Yield(if IsBlock(n) then [[NEWLINE]] else [], [], [])
  }

  lemma OneMoreChild(before: Yield, n: Node, block: Text, k: nat)
    requires k < |n.content|
    ensures Plus(Plus(before, ChildYield(n, block, k)), YieldOf(n.content[k], block))
         == Plus(before, ChildYield(n, block, k + 1))
  {
  }

  lemma WholeNode(before: Yield, n: Node, outer: Text)
    requires EmbedOf(n).None?
    ensures var block := BlockIdOf(n, outer);
            Plus(Plus(Plus(before, Opening(n, block)), ChildYield(n, block, |n.content|)), Closing(n))
            == Plus(before, YieldOf(n, outer))
  {
  }

  class Extractor {
    var lines: seq<Text>
    var outline: seq<OutlineEntry>
    var refs: seq<ProjectionRef>
    var seenRefs: set<Text>
    /** Everything offered so far, kept or not. */
    ghost var headings: seq<OutlineEntry>
    ghost var offered: seq<Ref>

    ghost predicate Valid()
      reads this
    {
      && outline == FirstEntries(headings, MAX_OUTLINE)
      && refs == EmitAll(Kept(offered))
      && KeysOf(Kept(offered), seenRefs)
    }

    ghost function Got(): Yield
      reads this
    {
      Yield(lines, headings, offered)
    }

    constructor ()
      ensures Valid() && Got() == Yield([], [], [])
    {
      lines, outline, refs, seenRefs := [], [], [], {};
      headings, offered := [], [];
    }

    method OfferRef(typ: RefType, target: Text, block: Text)
      requires Valid()
      modifies this`refs, this`seenRefs, this`offered
      ensures Valid() && offered == old(offered) + [Ref(typ, target, block)]
    {
      var ref := Ref(typ, target, block);
      var key := KeyOf(ref);
      OfferedRef(offered, ref);
      TakingBySeenKeys(Kept(offered), ref, seenRefs);
      if key !in seenRefs && |refs| < MAX_REFS {
        seenRefs := seenRefs + {key};
        refs := refs + [Emit(ref)];
      }
      offered := offered + [ref];
    }

    method OfferHeading(n: Node, block: Text)
      requires Valid() && IsHeading(n)
      modifies this`outline, this`headings
      ensures Valid() && headings == old(headings) + OwnHeading(n, block)
    {
      var text := PlainText(n);
      if text != [] && |outline| < MAX_OUTLINE {
        outline := outline + [OutlineEntry(FirstUnits(block, 64), ClampLevel(n.level), FirstUnits(text, 512))];
      }
      headings := headings + OwnHeading(n, block);
    }

    /** A node's own text and heading. */
    method Enter(n: Node, block: Text)
      requires Valid()
      modifies this`lines, this`outline, this`headings
      ensures Valid() && Got() == Plus(old(Got()), Opening(n, block))
    {
      if n.text.Some? {
        lines := lines + [n.text.value];
      }
      if IsHeading(n) {
        OfferHeading(n, block);
      }
    }

    method WalkEmbed(n: Node, block: Text)
      requires Valid() && EmbedOf(n).Some?
      modifies this`refs, this`seenRefs, this`offered
      ensures Valid() && Got() == Plus(old(Got()), Yield([], [], OwnRef(n, block)))
    {
      var target := TargetOf(n);
      if target.Str? && target.value != [] {
        OfferRef(EmbedOf(n).value, target.value, block);
      }
    }

    method Leave(n: Node)
      requires Valid()
      modifies this`lines
      ensures Valid() && Got() == Plus(old(Got()), Closing(n))
    {
      if IsBlock(n) {
        lines := lines + [[NEWLINE]];
      }
    }

    method Walk(n: Node, outer: Text)
      requires Valid()
      modifies this
      ensures Valid() && Got() == Plus(old(Got()), YieldOf(n, outer))
      decreases n, 1
    {
      var id := BlockIdOf(n, outer);
      if EmbedOf(n).Some? {
        WalkEmbed(n, id);
        return;
      }
      Enter(n, id);
      WalkChildren(n, id);
      Leave(n);
      WholeNode(old(Got()), n, outer);
    }

    method WalkChildren(n: Node, block: Text)
      requires Valid()
      modifies this
      ensures Valid() && Got() == Plus(old(Got()), ChildYield(n, block, |n.content|))
      decreases n, 0
    {
      var i := 0;
      while i < |n.content|
        invariant 0 <= i <= |n.content| && Valid()
        invariant Got() == Plus(old(Got()), ChildYield(n, block, i))
      {
        Walk(n.content[i], block);
        OneMoreChild(old(Got()), n, block, i);
        i := i + 1;
      }
    }
  }

  /** One more reference is kept exactly when its key is new and there is room. */
  lemma OfferedRef(offered: seq<Ref>, ref: Ref)
    ensures Kept(offered + [ref]) == Taking(Kept(offered), ref)
  {
    assert (offered + [ref])[..|offered|] == offered;
    FirstByKeyPicksEachKeyOnce(offered);
  }

  lemma EmitOneMore(rs: seq<Ref>, ref: Ref)
    ensures EmitAll(rs + [ref]) == EmitAll(rs) + [Emit(ref)]
  {
  }

  /** The kept references with one more, if its key is new and there is room. */
  function Taking(kept: seq<Ref>, ref: Ref): seq<Ref> {
    if !HasKey(kept, KeyOf(ref)) && |kept| < MAX_REFS then kept + [ref] else kept
  }

  /** The set of seen keys decides what becomes of the next reference. */
  lemma TakingBySeenKeys(kept: seq<Ref>, ref: Ref, keys: set<Text>)
    requires KeysOf(kept, keys)
    ensures var taken := KeyOf(ref) !in keys && |kept| < MAX_REFS;
            && EmitAll(Taking(kept, ref)) == (if taken then EmitAll(kept) + [Emit(ref)] else EmitAll(kept))
            && KeysOf(Taking(kept, ref), if taken then keys + {KeyOf(ref)} else keys)
  {
    KeysOfSnoc(kept, ref);
    EmitOneMore(kept, ref);
  }

  /** What extract promises of its result, whatever the document. */
  predicate Projects(doc: Node, p: Projection) {
    && p.bodyText == BodyText(doc)
    && p.outline == Outline(doc)
    && p.refs == Refs(doc)
  }

  method Extract(doc: Node, sequence: nat) returns (p: Projection)
    ensures Projects(doc, p) && p.sequence == sequence && p.schemaVersion == SCHEMA_VERSION
  {
    var e := new Extractor();
    e.Walk(doc, []);
    assert e.Got() == YieldOf(doc, []);
    var body := ClampBytes(Trim(Collapse(Join(e.lines))), MAX_BODY_BYTES);
    p := Projection(sequence, SCHEMA_VERSION, body, e.outline, e.refs);
  }

  /** The server's bounds hold of every projection. */
  lemma ProjectionsFitTheServer(doc: Node, p: Projection)
    requires Projects(doc, p)
    ensures Utf8Len(p.bodyText) <= 0x10_0000 && |p.outline| <= 500 && |p.refs| <= 1000
    ensures forall e :: e in p.outline ==> 1.0 <= e.level <= 6.0 && 1 <= |e.text| <= 512 && |e.blockId| <= 64
  {
    BodyIsBounded(doc);
    HeadingsAreWellFormed(doc, []);
    assert forall e :: e in p.outline ==> e in HeadingsOf(doc, []) && WellFormed(e);
  }

  /** Two documents that agree up to their embeds' contents project to the same body, and with leaf embeds to the same outline. */
  lemma ProjectionsIgnoreEmbeds(doc: Node, other: Node, p: Projection, q: Projection)
    requires Projects(doc, p) && Projects(other, q) && Scrub(doc) == Scrub(other)
    ensures p.bodyText == q.bodyText
    ensures EmbedsAreLeaves(doc) && EmbedsAreLeaves(other) ==> p.outline == q.outline
  {
    BodyIgnoresEmbeds(doc, other);
    if EmbedsAreLeaves(doc) && EmbedsAreLeaves(other) {
      LeafEmbedsLeakNothing(doc);
      LeafEmbedsLeakNothing(other);
      OutlineHidesEmbeds(doc);
      OutlineHidesEmbeds(other);
    }
  }
}
