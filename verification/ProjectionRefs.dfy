/** Which references a projection keeps: the first thousand with distinct keys. */
module ProjectionRefs {
  import opened Prelude
  import opened Utf8Clamp
  import opened ProjectionTree

  const MAX_REFS: nat := 1000

  function NameOf(t: RefType): Text {
    match t
    case User => [117, 115, 101, 114]
    case File => [102, 105, 108, 101]
    case Issue => [105, 115, 115, 117, 101]
  }

  /** The deduplication key: type, target and block joined by colons. */
  function KeyOf(r: Ref): Text {
    NameOf(r.typ) + [COLON] + r.target + [COLON] + r.block
  }

  datatype ProjectionRef = ProjectionRef(refType: RefType, refId: Text, blockId: Text)

  function Emit(r: Ref): ProjectionRef {
    ProjectionRef(r.typ, r.target, FirstUnits(r.block, 64))
  }

  function EmitAll(rs: seq<Ref>): seq<ProjectionRef> {
    seq(|rs|, i requires 0 <= i < |rs| => Emit(rs[i]))
  }

  // ---------------------------------------------------------------------------
  // First occurrences
  // ---------------------------------------------------------------------------

  predicate HasKey(rs: seq<Ref>, key: Text) {
    exists i :: 0 <= i < |rs| && KeyOf(rs[i]) == key
  }

  /** The first reference of every key, in order. */
  function FirstByKey(rs: seq<Ref>): seq<Ref> {
    if rs == [] then []
    else
      var k := |rs| - 1;
      if HasKey(rs[..k], KeyOf(rs[k])) then FirstByKey(rs[..k]) else FirstByKey(rs[..k]) + [rs[k]]
  }

  /** The first of every distinct reference, in order. */
  function FirstDistinct(rs: seq<Ref>): seq<Ref> {
    if rs == [] then []
    else
      var k := |rs| - 1;
      if rs[k] in rs[..k] then FirstDistinct(rs[..k]) else FirstDistinct(rs[..k]) + [rs[k]]
  }

  function FirstRefs(rs: seq<Ref>, n: nat): (r: seq<Ref>)
    ensures r <= rs && |r| == if |rs| < n then |rs| else n
  {
    if |rs| <= n then rs else rs[..n]
  }

  function Refs(doc: Node): seq<ProjectionRef> {
    EmitAll(FirstRefs(FirstByKey(RefsOf(doc, [])), MAX_REFS))
  }

  predicate KeysDiffer(rs: seq<Ref>) {
    forall i, j :: 0 <= i < j < |rs| ==> KeyOf(rs[i]) != KeyOf(rs[j])
  }

  /** One reference of each key that occurs, and no key twice. */
  lemma {:induction false} FirstByKeyPicksEachKeyOnce(rs: seq<Ref>)
    ensures KeysDiffer(FirstByKey(rs))
    ensures forall key :: HasKey(FirstByKey(rs), key) <==> HasKey(rs, key)
    decreases |rs|
  {
    if rs != [] {
      var k := |rs| - 1;
      FirstByKeyPicksEachKeyOnce(rs[..k]);
      assert rs == rs[..k] + [rs[k]];
      KeysOfSnoc(rs[..k], rs[k]);
      KeysOfSnoc(FirstByKey(rs[..k]), rs[k]);
    }
  }

  lemma KeysOfSnoc(rs: seq<Ref>, r: Ref)
    ensures forall key :: HasKey(rs + [r], key) <==> HasKey(rs, key) || KeyOf(r) == key
    ensures KeysDiffer(rs + [r]) <==> KeysDiffer(rs) && !HasKey(rs, KeyOf(r))
  {
    var s := rs + [r];
    assert s[|rs|] == r;
    forall key ensures HasKey(s, key) <==> HasKey(rs, key) || KeyOf(r) == key {
      if HasKey(rs, key) {
        var i :| 0 <= i < |rs| && KeyOf(rs[i]) == key;
        assert s[i] == rs[i];
      }
    }
    assert forall i :: 0 <= i < |rs| ==> s[i] == rs[i];
  }

  /** Where a reference of the result stands in the document: no earlier one has its key. */
  predicate FirstOfItsKey(rs: seq<Ref>, i: nat) {
    i < |rs| && !HasKey(rs[..i], KeyOf(rs[i]))
  }

  /** Increasing positions of first occurrences, at which the picked references stand. */
  predicate PlacesInOrder(rs: seq<Ref>, picked: seq<Ref>, at: seq<nat>) {
    && |at| == |picked|
    && (forall i :: 0 <= i < |at| ==> FirstOfItsKey(rs, at[i]) && rs[at[i]] == picked[i])
    && forall i, j :: 0 <= i < j < |at| ==> at[i] < at[j]
  }

  lemma PlacesStay(rs: seq<Ref>, k: nat, picked: seq<Ref>, at: seq<nat>)
    requires k <= |rs| && PlacesInOrder(rs[..k], picked, at)
    ensures PlacesInOrder(rs, picked, at)
    ensures k < |rs| && FirstOfItsKey(rs, k) ==> PlacesInOrder(rs, picked + [rs[k]], at + [k])
  {
    forall i | 0 <= i < |at| ensures FirstOfItsKey(rs, at[i]) && rs[at[i]] == picked[i] && at[i] < k {
      assert FirstOfItsKey(rs[..k], at[i]);
      assert rs[..k][..at[i]] == rs[..at[i]];
    }
  }

  /** The result is in document order, each key at its first occurrence. */
  lemma {:induction false} FirstByKeyIsInDocumentOrder(rs: seq<Ref>) returns (at: seq<nat>)
    ensures PlacesInOrder(rs, FirstByKey(rs), at)
    decreases |rs|
  {
    at := [];
    if rs != [] {
      var k := |rs| - 1;
      at := FirstByKeyIsInDocumentOrder(rs[..k]);
      PlacesStay(rs, k, FirstByKey(rs[..k]), at);
      if !HasKey(rs[..k], KeyOf(rs[k])) {
        at := at + [k];
      }
    }
  }

  // ---------------------------------------------------------------------------
  // Keys against references
  // ---------------------------------------------------------------------------

  lemma {:induction false} DistinctKeepsMembers(rs: seq<Ref>, r: Ref)
    ensures r in FirstDistinct(rs) <==> r in rs
    decreases |rs|
  {
    if rs != [] {
      var k := |rs| - 1;
      DistinctKeepsMembers(rs[..k], r);
      assert rs == rs[..k] + [rs[k]];
    }
  }

  /** As long as the first n distinct references have distinct keys, the key loses none of them. */
  lemma {:induction false} KeysAgreeWithReferences(rs: seq<Ref>, n: nat)
    requires KeysDiffer(FirstRefs(FirstDistinct(rs), n))
    ensures FirstRefs(FirstByKey(rs), n) == FirstRefs(FirstDistinct(rs), n)
    decreases |rs|
  {
    if rs != [] {
      var k := |rs| - 1;
      var before, last := rs[..k], rs[k];
      PrefixKeepsKeysDifferent(FirstRefs(FirstDistinct(before), n), FirstRefs(FirstDistinct(rs), n));
      KeysAgreeWithReferences(before, n);
      SeenKeys(before, last);
      if last !in before && |FirstDistinct(before)| < n {
        assert FirstRefs(FirstDistinct(rs), n) == FirstDistinct(before) + [last];
        assert FirstByKey(before) == FirstDistinct(before);
        KeysOfSnoc(FirstDistinct(before), last);
        FirstByKeyPicksEachKeyOnce(before);
      }
    }
  }

  lemma SeenKeys(before: seq<Ref>, last: Ref)
    ensures last in before ==> HasKey(before, KeyOf(last))
  {
  }

  lemma PrefixKeepsKeysDifferent(a: seq<Ref>, b: seq<Ref>)
    requires a <= b && KeysDiffer(b)
    ensures KeysDiffer(a)
  {
    assert forall i :: 0 <= i < |a| ==> a[i] == b[i];
  }

  /** The kept references are the first thousand distinct ones exactly when those have distinct keys. */
  lemma RefsAreTheFirstDistinctIff(doc: Node)
    ensures var rs := RefsOf(doc, []);
            FirstRefs(FirstByKey(rs), MAX_REFS) == FirstRefs(FirstDistinct(rs), MAX_REFS)
            <==> KeysDiffer(FirstRefs(FirstDistinct(rs), MAX_REFS))
  {
    var rs := RefsOf(doc, []);
    if KeysDiffer(FirstRefs(FirstDistinct(rs), MAX_REFS)) {
      KeysAgreeWithReferences(rs, MAX_REFS);
    }
    FirstByKeyPicksEachKeyOnce(rs);
    PrefixKeepsKeysDifferent(FirstRefs(FirstByKey(rs), MAX_REFS), FirstByKey(rs));
  }

  // ---------------------------------------------------------------------------
  // When two references share a key
  // ---------------------------------------------------------------------------

  /** b's target continues a's past a colon with what a's block starts with. */
  predicate Overlaps(a: Ref, b: Ref) {
    var n := |a.target|;
    && a.target + [':' as int] <= b.target
    && a.block == b.target[n + 1..] + [':' as int] + b.block
  }

  lemma FirstLetters(a: RefType, b: RefType)
    requires NameOf(a)[0] == NameOf(b)[0]
    ensures a == b
  {
  }

  /** A key without its type. */
  lemma KeyTail(r: Ref)
    ensures KeyOf(r)[0] == NameOf(r.typ)[0]
    ensures KeyOf(r)[|NameOf(r.typ)| + 1..] == r.target + [COLON] + r.block
  {
    var name := NameOf(r.typ) + [COLON];
    assert KeyOf(r) == name + (r.target + [COLON] + r.block);
  }

  lemma NamesAreTold(a: Ref, b: Ref)
    requires KeyOf(a) == KeyOf(b)
    ensures a.typ == b.typ && a.target + [COLON] + a.block == b.target + [COLON] + b.block
  {
    KeyTail(a);
    KeyTail(b);
    FirstLetters(a.typ, b.typ);
  }

  lemma TailsOverlap(a: Ref, b: Ref)
    requires a.target + [COLON] + a.block == b.target + [COLON] + b.block
    ensures |a.target| == |b.target| ==> a.target == b.target && a.block == b.block
    ensures |a.target| < |b.target| ==> Overlaps(a, b)
  {
    var s := a.target + [COLON] + a.block;
    var n, m := |a.target|, |b.target|;
    assert s[..n] == a.target && s[n] == COLON && s[n + 1..] == a.block;
    assert s[..m] == b.target && s[m] == COLON && s[m + 1..] == b.block;
    if n < m {
      assert b.target[..n + 1] == s[..n + 1] == a.target + [COLON];
      assert s[n + 1..] == s[n + 1..m] + [s[m]] + s[m + 1..];
      assert s[n + 1..m] == b.target[n + 1..];
    }
  }

  lemma OverlapSharesAKey(a: Ref, b: Ref)
    requires a.typ == b.typ && Overlaps(a, b)
    ensures KeyOf(a) == KeyOf(b)
  {
    var n := |a.target|;
    assert b.target == a.target + [COLON] + b.target[n + 1..];
    assert a.target + [COLON] + a.block == b.target + [COLON] + b.block;
    assert KeyOf(a) == NameOf(a.typ) + [COLON] + (a.target + [COLON] + a.block);
    assert KeyOf(b) == NameOf(b.typ) + [COLON] + (b.target + [COLON] + b.block);
  }

  /** Two different references share a key exactly when one's target runs over a colon into the other's block. */
  lemma SharedKeyIff(a: Ref, b: Ref)
    requires a != b
    ensures KeyOf(a) == KeyOf(b) <==> a.typ == b.typ && (Overlaps(a, b) || Overlaps(b, a))
  {
    if KeyOf(a) == KeyOf(b) {
      NamesAreTold(a, b);
      TailsOverlap(a, b);
      TailsOverlap(b, a);
    }
    if a.typ == b.typ && Overlaps(a, b) {
      OverlapSharesAKey(a, b);
    }
    if a.typ == b.typ && Overlaps(b, a) {
      OverlapSharesAKey(b, a);
    }
  }

  lemma OverlapNeedsAColon(a: Ref, b: Ref)
    requires Overlaps(a, b) || Overlaps(b, a)
    ensures COLON in a.target || COLON in b.target
  {
    var short, long := if Overlaps(a, b) then a.target else b.target, if Overlaps(a, b) then b.target else a.target;
    assert (short + [COLON])[|short|] == COLON == long[|short|];
  }

  predicate NoColons(rs: seq<Ref>) {
    forall i :: 0 <= i < |rs| ==> ':' as int !in rs[i].target
  }

  lemma {:induction false} DistinctDiffer(rs: seq<Ref>)
    ensures forall i, j :: 0 <= i < j < |FirstDistinct(rs)| ==> FirstDistinct(rs)[i] != FirstDistinct(rs)[j]
    decreases |rs|
  {
    if rs != [] {
      var k := |rs| - 1;
      DistinctDiffer(rs[..k]);
      DistinctKeepsMembers(rs[..k], rs[k]);
    }
  }

  /** Targets without colons, such as ids the server issues, are deduplicated exactly. */
  lemma TargetsWithoutColonsNeverCollide(doc: Node)
    requires NoColons(RefsOf(doc, []))
    ensures Refs(doc) == EmitAll(FirstRefs(FirstDistinct(RefsOf(doc, [])), MAX_REFS))
  {
    var rs := RefsOf(doc, []);
    var kept := FirstRefs(FirstDistinct(rs), MAX_REFS);
    DistinctDiffer(rs);
    forall i, j | 0 <= i < j < |kept| ensures KeyOf(kept[i]) != KeyOf(kept[j]) {
      var a, b := FirstDistinct(rs)[i], FirstDistinct(rs)[j];
      DistinctKeepsMembers(rs, a);
      DistinctKeepsMembers(rs, b);
      SharedKeyIff(a, b);
      if KeyOf(a) == KeyOf(b) {
        OverlapNeedsAColon(a, b);
      }
    }
    KeysAgreeWithReferences(rs, MAX_REFS);
  }

  function Embed(target: Text, block: Text): Node {
    Node(DriveEmbed, Str(block), Str(target), Missing, None, [], None)
  }

  lemma TwoRefs(first: Ref, second: Ref)
    ensures FirstDistinct([first, second]) == if first == second then [first] else [first, second]
    ensures FirstByKey([first, second]) == if KeyOf(first) == KeyOf(second) then [first] else [first, second]
  {
    var both := [first, second];
    assert both[..1] == [first] && [first][..0] == [];
    assert HasKey([first], KeyOf(second)) <==> KeyOf([first][0]) == KeyOf(second);
    assert FirstByKey([first]) == [] + [first] && FirstDistinct([first]) == [] + [first];
  }

  lemma TwoEmbeds(a: Node, b: Node)
    requires EmbedOf(a).Some? && EmbedOf(b).Some?
    ensures var doc := Node(Paragraph, Missing, Missing, Missing, None, [a, b], None);
            RefsOf(doc, []) == OwnRef(a, BlockIdOf(a, [])) + OwnRef(b, BlockIdOf(b, []))
  {
    var doc := Node(Paragraph, Missing, Missing, Missing, None, [a, b], None);
    assert ChildRefs(doc, [], 1) == ChildRefs(doc, [], 0) + RefsOf(a, []) == OwnRef(a, BlockIdOf(a, []));
    assert ChildRefs(doc, [], 2) == ChildRefs(doc, [], 1) + RefsOf(b, []);
  }

  /** A document with two different references, of which a colon in the second's target drops the second. */
  lemma AColonDropsAReference(x: Text, y: Text, z: Text)
    requires x != []
    ensures var doc := Node(Paragraph, Missing, Missing, Missing, None,
                            [Embed(x, y + [COLON] + z), Embed(x + [COLON] + y, z)], None);
            var first, second := Ref(File, x, y + [COLON] + z), Ref(File, x + [COLON] + y, z);
            && RefsOf(doc, []) == [first, second] && first != second
            && Refs(doc) == [Emit(first)]
  {
    var first, second := Ref(File, x, y + [COLON] + z), Ref(File, x + [COLON] + y, z);
    TwoEmbeds(Embed(x, y + [COLON] + z), Embed(x + [COLON] + y, z));
    assert [first] + [second] == [first, second];
    assert |second.target| > |first.target|;
    assert second.target[|x| + 1..] == y;
    OverlapSharesAKey(first, second);
    TwoRefs(first, second);
    assert EmitAll([first]) == [Emit(first)];
  }
}
