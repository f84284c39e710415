/** Exactly when a registration gets a DELETE of its own session. */
module OwnDeletes {
  import opened PushLifecycle
  import opened PushRecords
  import opened SessionProtocol

  /** The event by which session g's cleanup begins: its read of the key settles. */
  predicate BeginsCleanup(m: State, e: Event, g: nat) {
    && m.push.queue != [] && m.push.stage.Queued? && m.push.queue[0].Cleanup? && m.push.queue[0].session == g
    && e.OnPush? && e.push.Advance?
  }

  lemma NextLeavesBegun(m: State, e: Event, g: nat)
    requires Inv(m) && Enabled(m, e) && g in m.push.begun && g < m.core.generation
    ensures g in Next(m, e).push.begun && g < Next(m, e).core.generation
    ensures LeavesAlone(m.push.log, Next(m, e).push.log, g)
  {
    if e.OnPush? {
      StepLeavesBegun(m.core, m.push, e.push, g);
    }
  }

  lemma {:induction false} RunLeavesBegun(m: State, events: seq<Event>, t: State, g: nat)
    requires Inv(m) && Runs(m, events, t) && g in m.push.begun && g < m.core.generation
    ensures LeavesAlone(m.push.log, t.push.log, g)
    decreases |events|
  {
    if events != [] {
      var next := Next(m, events[0]);
      NextKeepsInv(m, events[0]);
      NextLeavesBegun(m, events[0], g);
      RunLeavesBegun(next, events[1..], t, g);
      LeavesAloneTwice(m.push.log, next.push.log, t.push.log, g);
    }
  }

  lemma NotBefore(before: seq<PushEntry>, log: seq<PushEntry>, g: nat, j: nat)
    requires before <= log && !HasDeleted(before, g) && j < |log| && log[j] == Deleted(g)
    ensures j >= |before|
  {
    assert forall k :: 0 <= k < |before| ==> before[k] == log[k];
  }

  /** A DELETE that is not among the entries up to a registration comes after it. */
  lemma DeletedLater(before: seq<PushEntry>, log: seq<PushEntry>, i: nat, g: nat)
    requires before <= log && i < |before| && !HasDeleted(before, g)
    ensures DeletedAfter(log, i, g) <==> HasDeleted(log, g)
  {
    if HasDeleted(log, g) {
      var j :| 0 <= j < |log| && log[j] == Deleted(g);
      NotBefore(before, log, g, j);
    }
  }

  /** A registration in the log was there before its session's cleanup began. */
  lemma PostedBefore(before: seq<PushEntry>, begun: seq<PushEntry>, log: seq<PushEntry>, i: nat, g: nat)
    requires before <= begun && LeavesAlone(begun, log, g) && i < |log| && log[i].Posted? && log[i].origin == g
    requires forall k :: |before| <= k < |begun| ==> !begun[k].Posted?
    ensures i < |before| && before[i] == log[i] && HasPosted(before, g)
  {
    assert i < |begun| ==> begun[i] == log[i];
    assert i < |before| ==> before[i] == log[i];
  }

  /**
   * The moment that decides: a registration is followed by a DELETE of its own session, in every run from the
   * beginning of that session's cleanup on, if and only if the cleanup's read of the key succeeds and finds it.
   * The key is missing then if and only if a later session's cleanup took it and nobody has stored it since.
   */
  lemma OwnDeleteIff(m: State, e: Event, events: seq<Event>, t: State, g: nat, i: nat)
    requires Reachable(m) && Enabled(m, e) && BeginsCleanup(m, e, g) && Runs(Next(m, e), events, t)
    requires i < |t.push.log| && t.push.log[i].Posted? && t.push.log[i].origin == g
    ensures DeletedAfter(t.push.log, i, g) <==> e.push.ok && m.push.keyOwner.Some?
    ensures i < |m.push.log| && (m.push.keyOwner.None? <==> TakenSince(m.push.log, i, g))
  {
    ReachableInv(m);
    OwnDeleteFrom(m, e, events, t, g, i);
  }

  lemma OwnDeleteFrom(m: State, e: Event, events: seq<Event>, t: State, g: nat, i: nat)
    requires Inv(m) && Enabled(m, e) && BeginsCleanup(m, e, g) && Runs(Next(m, e), events, t)
    requires i < |t.push.log| && t.push.log[i].Posted? && t.push.log[i].origin == g
    ensures DeletedAfter(t.push.log, i, g) <==> e.push.ok && m.push.keyOwner.Some?
    ensures i < |m.push.log| && (m.push.keyOwner.None? <==> TakenSince(m.push.log, i, g))
  {
    var next := Next(m, e);
    NextKeepsInv(m, e);
    BeginningDeletesIff(m.core, m.push, e.push.ok);
    RunLeavesBegun(next, events, t, g);
    PostedBefore(m.push.log, next.push.log, t.push.log, i, g);
    DeletedLater(m.push.log, t.push.log, i, g);
    KeyIsMissingIff(m.push, i);
  }

  /** A session whose cleanup has begun was begun by some event of the run. */
  lemma {:induction false} CleanupBegan(s: State, events: seq<Event>, t: State, g: nat) returns (k: nat, m: State)
    requires Runs(s, events, t) && g !in s.push.begun && g in t.push.begun
    ensures k < |events| && Runs(s, events[..k], m) && Enabled(m, events[k]) && BeginsCleanup(m, events[k], g)
    ensures Runs(Next(m, events[k]), events[k + 1..], t)
    decreases |events|
  {
    if BeginsCleanup(s, events[0], g) {
      k, m := 0, s;
    } else {
      var next := Next(s, events[0]);
      OnlyBeginningsBegin(s, events[0], g);
      k, m := CleanupBegan(next, events[1..], t, g);
      assert events[..k + 1][1..] == events[1..][..k] && events[1..][k + 1..] == events[k + 2..];
      k := k + 1;
    }
  }

  lemma OnlyBeginningsBegin(m: State, e: Event, g: nat)
    requires Enabled(m, e) && g !in m.push.begun && !BeginsCleanup(m, e, g)
    ensures g !in Next(m, e).push.begun
  {
  }

  /**
   * Over whole runs: a registration whose session's cleanup has begun is followed by a DELETE of its own if and
   * only if the event that began it read the key and found it.
   */
  lemma OwnDeletesOverRuns(s: State, events: seq<Event>, t: State, i: nat) returns (k: nat, m: State)
    requires Initial(s) && Runs(s, events, t)
    requires i < |t.push.log| && t.push.log[i].Posted? && t.push.log[i].origin in t.push.begun
    ensures k < |events| && Runs(s, events[..k], m) && BeginsCleanup(m, events[k], t.push.log[i].origin)
    ensures DeletedAfter(t.push.log, i, t.push.log[i].origin) <==> events[k].push.ok && m.push.keyOwner.Some?
    ensures i < |m.push.log| && (m.push.keyOwner.None? <==> TakenSince(m.push.log, i, t.push.log[i].origin))
  {
    var g := t.push.log[i].origin;
    InitialInv(s);
    k, m := CleanupBegan(s, events, t, g);
    RunKeepsInv(s, events[..k], m);
    OwnDeleteFrom(m, events[k], events[k + 1..], t, g, i);
  }
}
