/** Sequence tracking on one connection: which frame numbers were lost, and who was told. */
module SocketSequence {
  import opened Prelude

  /** A jump from `after` to `at`, announced to `rooms`. */
  datatype Gap = Gap(after: int, at: int, rooms: seq<string>)

  datatype Track = Track(lastSeq: int, gaps: seq<Gap>)

  /** A frame as trackSeq sees it: its number, if it has one, and the rooms desired when it arrives. */
  datatype Frame = Frame(number: Option<int>, rooms: seq<string>)

  predicate Counts(f: Frame) {
    f.number.Some? && f.number.value > 0
  }

  function TrackSeq(t: Track, f: Frame): Track {
    if !Counts(f) then t
    else if t.lastSeq != 0 && f.number.value > t.lastSeq + 1 then
      Track(f.number.value, t.gaps + [Gap(t.lastSeq, f.number.value, f.rooms)])
    else if f.number.value > t.lastSeq then t.(lastSeq := f.number.value)
    else t
  }

  /** The state after a connection's frames; a connection opens at zero. */
  function Tracked(fs: seq<Frame>): Track
    decreases |fs|
  {
    if fs == [] then Track(0, []) else TrackSeq(Tracked(fs[..|fs| - 1]), fs[|fs| - 1])
  }

  predicate Received(fs: seq<Frame>, n: int) {
    exists i :: 0 <= i < |fs| && Counts(fs[i]) && fs[i].number.value == n
  }

  /** n was received on this connection before any other number. */
  predicate IsFirst(fs: seq<Frame>, n: int) {
    exists i :: 0 <= i < |fs| && Counts(fs[i]) && fs[i].number.value == n && forall j :: 0 <= j < i ==> !Counts(fs[j])
  }

  predicate InsideGap(gaps: seq<Gap>, n: int) {
    exists g :: 0 <= g < |gaps| && gaps[g].after < n < gaps[g].at
  }

  lemma ReceivedSnoc(fs: seq<Frame>, n: int)
    requires fs != []
    ensures Received(fs, n) <==>
              Received(fs[..|fs| - 1], n) || (Counts(fs[|fs| - 1]) && fs[|fs| - 1].number.value == n)
  {
    var init := fs[..|fs| - 1];
    if Received(init, n) {
      var i :| 0 <= i < |init| && Counts(init[i]) && init[i].number.value == n;
      assert fs[i] == init[i];
    }
    if Received(fs, n) {
      var i :| 0 <= i < |fs| && Counts(fs[i]) && fs[i].number.value == n;
      assert i < |init| ==> init[i] == fs[i];
    }
  }

  /** lastSeq is the largest positive number received, or zero when there was none. */
  lemma {:induction false} LastSeqIsTheMaximum(fs: seq<Frame>)
    ensures forall n :: Received(fs, n) ==> n <= Tracked(fs).lastSeq
    ensures Tracked(fs).lastSeq == 0 || Received(fs, Tracked(fs).lastSeq)
    ensures Tracked(fs).lastSeq >= 0
    decreases |fs|
  {
    if fs != [] {
      var init := fs[..|fs| - 1];
      LastSeqIsTheMaximum(init);
      forall n | Received(fs, n) ensures n <= Tracked(fs).lastSeq {
        ReceivedSnoc(fs, n);
      }
      ReceivedSnoc(fs, Tracked(fs).lastSeq);
    }
  }

  lemma FirstSnoc(fs: seq<Frame>, first: int)
    requires fs != [] && IsFirst(fs, first)
    ensures IsFirst(fs[..|fs| - 1], first) || (Tracked(fs[..|fs| - 1]).lastSeq == 0 && Tracked(fs).lastSeq == first)
  {
    var init := fs[..|fs| - 1];
    var i :| 0 <= i < |fs| && Counts(fs[i]) && fs[i].number.value == first && forall j :: 0 <= j < i ==> !Counts(fs[j]);
    if i < |init| {
      assert init[i] == fs[i];
      assert forall j :: 0 <= j < i ==> init[j] == fs[j];
    } else {
      assert forall j :: 0 <= j < |init| ==> init[j] == fs[j];
      LastSeqIsTheMaximum(init);
    }
  }

  /** Nothing is lost unannounced: every number between the first and the last was received or lies inside a gap. */
  lemma {:induction false} EveryNumberIsAccountedFor(fs: seq<Frame>, first: int, n: int)
    requires IsFirst(fs, first) && first <= n <= Tracked(fs).lastSeq
    ensures Received(fs, n) || InsideGap(Tracked(fs).gaps, n)
    decreases |fs|
  {
    var init := fs[..|fs| - 1];
    var last := fs[|fs| - 1];
    ReceivedSnoc(fs, n);
    FirstSnoc(fs, first);
    if !IsFirst(init, first) {
      ReceivedSnoc(fs, first);
      LastSeqIsTheMaximum(fs);
    } else if n <= Tracked(init).lastSeq {
      EveryNumberIsAccountedFor(init, first, n);
      if InsideGap(Tracked(init).gaps, n) {
        var g :| 0 <= g < |Tracked(init).gaps| && Tracked(init).gaps[g].after < n < Tracked(init).gaps[g].at;
        assert Tracked(fs).gaps[g] == Tracked(init).gaps[g];
      }
    } else {
      LastSeqIsTheMaximum(init);
      FirstIsPositive(init, first);
      if n < last.number.value {
        var g := |Tracked(init).gaps|;
        assert Tracked(fs).gaps[g] == Gap(Tracked(init).lastSeq, last.number.value, last.rooms);
      }
    }
  }

  lemma FirstIsPositive(fs: seq<Frame>, first: int)
    requires IsFirst(fs, first)
    ensures 0 < first <= Tracked(fs).lastSeq
  {
    assert Received(fs, first);
    LastSeqIsTheMaximum(fs);
  }

  /** Every announced gap is a real jump, told to all the rooms desired when the frame past it arrived. */
  lemma {:induction false} GapsAreRealAndAnnounced(fs: seq<Frame>, g: nat)
    requires g < |Tracked(fs).gaps|
    ensures var gap := Tracked(fs).gaps[g];
            exists i :: 0 <= i < |fs| && fs[i] == Frame(Some(gap.at), gap.rooms)
                     && gap.after == Tracked(fs[..i]).lastSeq && 0 < gap.after < gap.at - 1
                     && forall n :: gap.after < n < gap.at ==> !Received(fs[..i], n)
    decreases |fs|
  {
    var init := fs[..|fs| - 1];
    var gap := Tracked(fs).gaps[g];
    if g < |Tracked(init).gaps| {
      GapsAreRealAndAnnounced(init, g);
      var i :| 0 <= i < |init| && init[i] == Frame(Some(gap.at), gap.rooms)
            && gap.after == Tracked(init[..i]).lastSeq && 0 < gap.after < gap.at - 1
            && forall n :: gap.after < n < gap.at ==> !Received(init[..i], n);
      assert fs[i] == init[i] && fs[..i] == init[..i];
    } else {
      LastSeqIsTheMaximum(init);
      assert fs[..|fs| - 1] == init;
    }
  }
}
