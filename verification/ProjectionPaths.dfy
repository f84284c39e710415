/** A projection read off the positions of its document's nodes, in document order. */
module ProjectionPaths {
  import opened Prelude
  import opened Utf8Clamp
  import opened ProjectionTree

  type Path = seq<nat>

  // ---------------------------------------------------------------------------
  // Positions
  // ---------------------------------------------------------------------------

  function NodeAt(n: Node, path: Path): Option<Node>
    decreases |path|
  {
    if path == [] then Some(n)
    else if path[0] < |n.content| then NodeAt(n.content[path[0]], path[1..])
    else None
  }

  predicate IsEmbed(n: Node) {
    n.typ.Mention? || n.typ.DriveEmbed? || n.typ.IssueEmbed?
  }

  /** What a reading does not look into. */
  datatype Reading = Projecting | PlainReading

  predicate Stops(n: Node, reading: Reading) {
    match reading
    case Projecting => IsEmbed(n)
    case PlainReading => n.text.Some?
  }

  /** A reading gets to a position if there is a node and it stops at none above it. */
  predicate Reached(n: Node, path: Path, reading: Reading)
    decreases |path|
  {
    path == [] || (!Stops(n, reading) && path[0] < |n.content| && Reached(n.content[path[0]], path[1..], reading))
  }

  /** Document order: a node before what it contains, and earlier siblings first. */
  predicate Precedes(a: Path, b: Path)
    decreases |a|
  {
    b != [] && (a == [] || a[0] < b[0] || (a[0] == b[0] && Precedes(a[1..], b[1..])))
  }

  predicate InOrder(ps: seq<Path>) {
    forall i, j :: 0 <= i < j < |ps| ==> Precedes(ps[i], ps[j])
  }

  function Below(i: nat, ps: seq<Path>): seq<Path> {
    seq(|ps|, j requires 0 <= j < |ps| => [i] + ps[j])
  }

  /** The positions a reading gets to, in the order it gets to them. */
  function Positions(n: Node, reading: Reading): seq<Path>
    decreases n, |n.content| + 1
  {
    [[]] + if Stops(n, reading) then [] else ChildPositions(n, |n.content|, reading)
  }

  function ChildPositions(n: Node, k: nat, reading: Reading): seq<Path>
    requires k <= |n.content|
    decreases n, k
  {
    if k == 0 then []
    else ChildPositions(n, k - 1, reading) + Below(k - 1, Positions(n.content[k - 1], reading))
  }

  lemma BelowMembers(i: nat, ps: seq<Path>)
    ensures forall p :: p in Below(i, ps) <==> p != [] && p[0] == i && p[1..] in ps
    ensures InOrder(ps) ==> InOrder(Below(i, ps))
  {
    var qs := Below(i, ps);
    assert forall j :: 0 <= j < |ps| ==> qs[j] == [i] + ps[j] && qs[j][1..] == ps[j];
    forall p | p != [] && p[0] == i && p[1..] in ps ensures p in qs {
      var j :| 0 <= j < |ps| && ps[j] == p[1..];
      assert qs[j] == p;
    }
  }

  lemma SiblingsInTurn(before: seq<Path>, last: seq<Path>, k: nat)
    requires InOrder(before) && InOrder(last)
    requires forall p :: p in before ==> p != [] && p[0] < k
    requires forall p :: p in last ==> p != [] && p[0] == k
    ensures InOrder(before + last)
  {
    forall i, j | 0 <= i < |before| && 0 <= j < |last| ensures Precedes(before[i], last[j]) {
      assert before[i] in before && last[j] in last;
    }
  }

  lemma LastSiblingReached(n: Node, k: nat, before: seq<Path>, last: seq<Path>, reading: Reading)
    requires k < |n.content|
    requires forall p :: p in before <==> p != [] && p[0] < k && Reached(n.content[p[0]], p[1..], reading)
    requires forall p :: p in last <==> p != [] && p[0] == k && Reached(n.content[k], p[1..], reading)
    ensures forall p :: p in before + last <==> p != [] && p[0] < k + 1 && Reached(n.content[p[0]], p[1..], reading)
  {
  }

  lemma {:induction false} ChildPositionsAre(n: Node, k: nat, reading: Reading)
    requires k <= |n.content|
    ensures forall p :: p in ChildPositions(n, k, reading) <==>
              p != [] && p[0] < k && Reached(n.content[p[0]], p[1..], reading)
    ensures InOrder(ChildPositions(n, k, reading))
    decreases n, k
  {
    if k > 0 {
      var before, last := ChildPositions(n, k - 1, reading), Below(k - 1, Positions(n.content[k - 1], reading));
      ChildPositionsAre(n, k - 1, reading);
      PositionsAre(n.content[k - 1], reading);
      BelowMembers(k - 1, Positions(n.content[k - 1], reading));
      SiblingsInTurn(before, last, k - 1);
      LastSiblingReached(n, k - 1, before, last, reading);
    }
  }

  /** Exactly the reached positions, in document order. */
  lemma {:induction false} PositionsAre(n: Node, reading: Reading)
    ensures forall p :: p in Positions(n, reading) <==> Reached(n, p, reading)
    ensures InOrder(Positions(n, reading))
    decreases n, |n.content| + 1
  {
    if !Stops(n, reading) {
      ChildPositionsAre(n, |n.content|, reading);
      var rest := ChildPositions(n, |n.content|, reading);
      forall j | 0 <= j < |rest| ensures Precedes([], rest[j]) {
        assert rest[j] in rest;
      }
    }
  }

  // ---------------------------------------------------------------------------
  // Gathering
  // ---------------------------------------------------------------------------

  /** What is found at some positions, in their order. */
  function Gather<T>(ps: seq<Path>, at: Path -> seq<T>): seq<T> {
    if ps == [] then [] else Gather(ps[..|ps| - 1], at) + at(ps[|ps| - 1])
  }

  lemma {:induction false} GatherConcat<T>(a: seq<Path>, b: seq<Path>, at: Path -> seq<T>)
    ensures Gather(a + b, at) == Gather(a, at) + Gather(b, at)
    decreases |b|
  {
    if b == [] {
      assert a + b == a;
    } else {
      assert (a + b)[..|a + b| - 1] == a + b[..|b| - 1];
      GatherConcat(a, b[..|b| - 1], at);
    }
  }

  lemma {:induction false} GatherBelow<T>(i: nat, ps: seq<Path>, at: Path -> seq<T>, below: Path -> seq<T>)
    requires forall j :: 0 <= j < |ps| ==> at([i] + ps[j]) == below(ps[j])
    ensures Gather(Below(i, ps), at) == Gather(ps, below)
    decreases |ps|
  {
    if ps != [] {
      var n := |ps| - 1;
      assert Below(i, ps)[..n] == Below(i, ps[..n]);
      GatherBelow(i, ps[..n], at, below);
    }
  }

  lemma GatherOne<T>(at: Path -> seq<T>)
    ensures Gather([[]], at) == at([])
  {
    var root: seq<Path> := [[]];
    assert root[..0] == [];
    assert Gather(root[..0], at) == [];
  }

  lemma GatherLastChild<T>(n: Node, k: nat, reading: Reading, at: Path -> seq<T>, below: Path -> seq<T>)
    requires 0 < k <= |n.content|
    requires forall p :: at([k - 1] + p) == below(p)
    ensures Gather(ChildPositions(n, k, reading), at)
         == Gather(ChildPositions(n, k - 1, reading), at) + Gather(Positions(n.content[k - 1], reading), below)
  {
    var ps := Positions(n.content[k - 1], reading);
    GatherBelow(k - 1, ps, at, below);
    GatherConcat(ChildPositions(n, k - 1, reading), Below(k - 1, ps), at);
  }

  // ---------------------------------------------------------------------------
  // References
  // ---------------------------------------------------------------------------

  /** The block id of the nearest node at or above a position that has one. */
  function NearestBlock(n: Node, path: Path, outer: Text): Text
    decreases |path|
  {
    var here := NodeAt(n, path);
    if here.Some? && here.value.blockId.Str? then here.value.blockId.value
    else if path == [] then outer
    else NearestBlock(n, path[..|path| - 1], outer)
  }

  lemma {:induction false} NearestBlockBelow(n: Node, i: nat, p: Path, outer: Text)
    requires i < |n.content|
    ensures NearestBlock(n, [i] + p, outer) == NearestBlock(n.content[i], p, BlockIdOf(n, outer))
    decreases |p|
  {
    assert ([i] + p)[1..] == p;
    if p == [] {
      assert ([i] + p)[..0] == [];
    } else {
      assert ([i] + p)[..|p|] == [i] + p[..|p| - 1];
      NearestBlockBelow(n, i, p[..|p| - 1], outer);
    }
  }

  /** The reference of an embed: its type by the schema's table, refId or else id as its target, the nearest block id. */
  function RefAt(n: Node, path: Path, outer: Text): seq<Ref> {
    match NodeAt(n, path)
    case None => []
    case Some(m) =>
      if !IsEmbed(m) then []
      else
        var typ := if m.typ.Mention? then User else if m.typ.DriveEmbed? then File else Issue;
        var target := if m.refId != Missing then m.refId else m.id;
        if target.Str? && |target.value| > 0 then [Ref(typ, target.value, NearestBlock(n, path, outer))] else []
  }

  /** The references of the embeds met, in document order. */
  function RefsMet(n: Node, outer: Text): seq<Ref> {
    Gather(Positions(n, Projecting), (p: Path) => RefAt(n, p, outer))
  }

  function ChildRefsMet(n: Node, k: nat, outer: Text): seq<Ref>
    requires k <= |n.content|
  {
    Gather(ChildPositions(n, k, Projecting), (p: Path) => RefAt(n, p, outer))
  }

  lemma RefAtBelow(n: Node, i: nat, p: Path, outer: Text)
    requires i < |n.content|
    ensures RefAt(n, [i] + p, outer) == RefAt(n.content[i], p, BlockIdOf(n, outer))
  {
    assert ([i] + p)[1..] == p;
    NearestBlockBelow(n, i, p, outer);
  }

  lemma {:induction false} RefsAreAtPositions(n: Node, outer: Text)
    ensures RefsOf(n, outer) == RefsMet(n, outer)
    decreases n, |n.content| + 1
  {
    var at := (p: Path) => RefAt(n, p, outer);
    GatherOne(at);
    if IsEmbed(n) {
      assert Positions(n, Projecting) == [[]];
    } else {
      ChildRefsAreAtPositions(n, |n.content|, outer);
      GatherConcat([[]], ChildPositions(n, |n.content|, Projecting), at);
    }
  }

  lemma LastChildRefs(n: Node, k: nat, outer: Text)
    requires 0 < k <= |n.content|
    ensures ChildRefsMet(n, k, outer)
         == ChildRefsMet(n, k - 1, outer) + RefsMet(n.content[k - 1], BlockIdOf(n, outer))
  {
    var child, block := n.content[k - 1], BlockIdOf(n, outer);
    var at, below := (p: Path) => RefAt(n, p, outer), (p: Path) => RefAt(child, p, block);
    forall p ensures at([k - 1] + p) == below(p) {
      RefAtBelow(n, k - 1, p, outer);
    }
    GatherLastChild(n, k, Projecting, at, below);
  }

  lemma {:induction false} ChildRefsAreAtPositions(n: Node, k: nat, outer: Text)
    requires k <= |n.content|
    ensures ChildRefs(n, BlockIdOf(n, outer), k) == ChildRefsMet(n, k, outer)
    decreases n, k
  {
    if k > 0 {
      ChildRefsAreAtPositions(n, k - 1, outer);
      RefsAreAtPositions(n.content[k - 1], BlockIdOf(n, outer));
      LastChildRefs(n, k, outer);
    }
  }

  // ---------------------------------------------------------------------------
  // Headings
  // ---------------------------------------------------------------------------

  /** The entry of a heading with text: the nearest block id, the level kept within 1 and 6, the text cut at 512. */
  function HeadingAt(n: Node, path: Path, outer: Text): seq<OutlineEntry> {
    match NodeAt(n, path)
    case None => []
    case Some(m) =>
      if !m.typ.Heading? || |PlainText(m)| == 0 then []
      else
        var level := if m.level.None? || m.level.value <= 1.0 then 1.0 else if m.level.value >= 6.0 then 6.0 else m.level.value;
        var block := NearestBlock(n, path, outer);
        [OutlineEntry(if |block| > 64 then block[..64] else block, level,
                      if |PlainText(m)| > 512 then PlainText(m)[..512] else PlainText(m))]
  }

  /** The entries of the headings met, in document order. */
  function HeadingsMet(n: Node, outer: Text): seq<OutlineEntry> {
    Gather(Positions(n, Projecting), (p: Path) => HeadingAt(n, p, outer))
  }

  function ChildHeadingsMet(n: Node, k: nat, outer: Text): seq<OutlineEntry>
    requires k <= |n.content|
  {
    Gather(ChildPositions(n, k, Projecting), (p: Path) => HeadingAt(n, p, outer))
  }

  lemma HeadingAtBelow(n: Node, i: nat, p: Path, outer: Text)
    requires i < |n.content|
    ensures HeadingAt(n, [i] + p, outer) == HeadingAt(n.content[i], p, BlockIdOf(n, outer))
  {
    assert ([i] + p)[1..] == p;
    NearestBlockBelow(n, i, p, outer);
  }

  lemma OwnHeadingIsAt(n: Node, outer: Text)
    ensures OwnHeading(n, BlockIdOf(n, outer)) == HeadingAt(n, [], outer)
  {
  }

  lemma {:induction false} HeadingsAreAtPositions(n: Node, outer: Text)
    ensures HeadingsOf(n, outer) == HeadingsMet(n, outer)
    decreases n, |n.content| + 1
  {
    var at := (p: Path) => HeadingAt(n, p, outer);
    GatherOne(at);
    OwnHeadingIsAt(n, outer);
    if IsEmbed(n) {
      assert Positions(n, Projecting) == [[]];
    } else {
      ChildHeadingsAreAtPositions(n, |n.content|, outer);
      GatherConcat([[]], ChildPositions(n, |n.content|, Projecting), at);
    }
  }

  lemma LastChildHeadings(n: Node, k: nat, outer: Text)
    requires 0 < k <= |n.content|
    ensures ChildHeadingsMet(n, k, outer)
         == ChildHeadingsMet(n, k - 1, outer) + HeadingsMet(n.content[k - 1], BlockIdOf(n, outer))
  {
    var child, block := n.content[k - 1], BlockIdOf(n, outer);
    var at, below := (p: Path) => HeadingAt(n, p, outer), (p: Path) => HeadingAt(child, p, block);
    forall p ensures at([k - 1] + p) == below(p) {
      HeadingAtBelow(n, k - 1, p, outer);
    }
    GatherLastChild(n, k, Projecting, at, below);
  }

  lemma {:induction false} ChildHeadingsAreAtPositions(n: Node, k: nat, outer: Text)
    requires k <= |n.content|
    ensures ChildHeadings(n, BlockIdOf(n, outer), k)
         == ChildHeadingsMet(n, k, outer)
    decreases n, k
  {
    if k > 0 {
      ChildHeadingsAreAtPositions(n, k - 1, outer);
      HeadingsAreAtPositions(n.content[k - 1], BlockIdOf(n, outer));
      LastChildHeadings(n, k, outer);
    }
  }

  // ---------------------------------------------------------------------------
  // Text
  // ---------------------------------------------------------------------------

  function TextAt(n: Node, path: Path): Text {
    var m := NodeAt(n, path);
    if m.Some? && m.value.text.Some? then m.value.text.value else []
  }

  /** What the nodes with text say, in document order. */
  function TextMet(n: Node): Text {
    Gather(Positions(n, PlainReading), (p: Path) => TextAt(n, p))
  }

  function ChildTextMet(n: Node, k: nat): Text
    requires k <= |n.content|
  {
    Gather(ChildPositions(n, k, PlainReading), (p: Path) => TextAt(n, p))
  }

  lemma TextAtBelow(n: Node, i: nat, p: Path)
    requires i < |n.content|
    ensures TextAt(n, [i] + p) == TextAt(n.content[i], p)
  {
    assert ([i] + p)[1..] == p;
  }

  /** A heading's text is what the nodes with text below it say, in document order. */
  lemma {:induction false} PlainTextIsAtPositions(n: Node)
    ensures PlainText(n) == TextMet(n)
    decreases n, |n.content| + 1
  {
    var at := (p: Path) => TextAt(n, p);
    GatherOne(at);
    if n.text.Some? {
      assert Positions(n, PlainReading) == [[]];
    } else {
      ChildPlainIsAtPositions(n, |n.content|);
      GatherConcat([[]], ChildPositions(n, |n.content|, PlainReading), at);
    }
  }

  lemma LastChildText(n: Node, k: nat)
    requires 0 < k <= |n.content|
    ensures ChildTextMet(n, k)
         == ChildTextMet(n, k - 1) + TextMet(n.content[k - 1])
  {
    var child := n.content[k - 1];
    var at, below := (p: Path) => TextAt(n, p), (p: Path) => TextAt(child, p);
    forall p ensures at([k - 1] + p) == below(p) {
      TextAtBelow(n, k - 1, p);
    }
    GatherLastChild(n, k, PlainReading, at, below);
  }

  lemma {:induction false} ChildPlainIsAtPositions(n: Node, k: nat)
    requires k <= |n.content|
    ensures ChildPlain(n, k) == ChildTextMet(n, k)
    decreases n, k
  {
    if k > 0 {
      ChildPlainIsAtPositions(n, k - 1);
      PlainTextIsAtPositions(n.content[k - 1]);
      LastChildText(n, k);
    }
  }
}
