/** Removals of the push key: under whom they land, and what imports out of order do to them. */
module PushRemovals {
  import opened Prelude
  import opened SessionCore
  import opened PushLifecycle
  import opened SessionProtocol
  import opened SessionProgress

  // ---------------------------------------------------------------------------
  // Runs
  // ---------------------------------------------------------------------------

  /** Where a run leads. */
  function Play(s: State, events: seq<Event>): State
    decreases |events|
  {
    if events == [] then s
    else
      var m := Play(s, events[..|events| - 1]);
      var e := events[|events| - 1];
      if Enabled(m, e) then Next(m, e) else m
  }

  lemma {:induction false} RunsUnsnoc(s: State, events: seq<Event>, t: State) returns (m: State)
    requires events != [] && Runs(s, events, t)
    ensures Runs(s, events[..|events| - 1], m) && Enabled(m, events[|events| - 1]) && t == Next(m, events[|events| - 1])
    decreases |events|
  {
    var n := |events| - 1;
    if n == 0 {
      m := s;
    } else {
      m := RunsUnsnoc(Next(s, events[0]), events[1..], t);
      assert events[1..][..n - 1] == events[..n][1..];
    }
  }

  lemma {:induction false} RunsIsPlay(s: State, events: seq<Event>, t: State)
    requires Runs(s, events, t)
    ensures Play(s, events) == t
    decreases |events|
  {
    if events != [] {
      var m := RunsUnsnoc(s, events, t);
      RunsIsPlay(s, events[..|events| - 1], m);
    }
  }

  /** Event i signs in, and nothing up to the end of the run signs out again. */
  predicate SignInStands(s: State, events: seq<Event>, i: nat) {
    i < |events| && events[i].SignIn? && Play(s, events[..i + 1]).core.generation == Play(s, events).core.generation
  }

  predicate NoAdvance(events: seq<Event>) {
    forall i :: 0 <= i < |events| && events[i].OnPush? ==> !events[i].push.Advance?
  }

  /** What one step may do to the session. */
  lemma SessionStep(m: State, e: Event)
    requires CoreInv(m.core) && Enabled(m, e)
    ensures var n := Next(m, e);
            || (e.SignIn? && n.core.signedIn && n.core.generation == m.core.generation)
            || (!e.SignIn? && !n.core.signedIn && n.core.generation == m.core.generation + 1)
            || (!e.SignIn? && n.core.signedIn == m.core.signedIn && n.core.generation == m.core.generation)
  {
  }

  lemma {:induction false} GenerationGrows(s: State, events: seq<Event>, k: nat)
    requires CoreInv(s.core) && k <= |events|
    ensures CoreInv(Play(s, events).core)
    ensures Play(s, events[..k]).core.generation <= Play(s, events).core.generation
    decreases |events|
  {
    if k == |events| {
      assert events[..k] == events;
    }
    if events != [] {
      var init := events[..|events| - 1];
      GenerationGrows(s, init, if k < |events| then k else 0);
      assert k < |events| ==> init[..k] == events[..k];
      var m, e := Play(s, init), events[|events| - 1];
      if Enabled(m, e) {
        SessionStep(m, e);
        CoreStep(m, e);
      }
    }
  }

  lemma CoreStep(m: State, e: Event)
    requires CoreInv(m.core) && Enabled(m, e)
    ensures CoreInv(Next(m, e).core)
  {
  }

  lemma StandingSnoc(s: State, events: seq<Event>, i: nat)
    requires events != [] && i < |events| - 1
    requires Play(s, events[..|events| - 1]).core.generation == Play(s, events).core.generation
    ensures SignInStands(s, events, i) <==> SignInStands(s, events[..|events| - 1], i)
  {
    assert events[..|events| - 1][..i + 1] == events[..i + 1];
  }

  /** From a signed-out state, somebody is signed in exactly when a sign-in since then still stands. */
  lemma {:induction false} SignedInIff(s: State, events: seq<Event>)
    requires CoreInv(s.core) && !s.core.signedIn
    ensures Play(s, events).core.signedIn <==> exists i :: 0 <= i < |events| && SignInStands(s, events, i)
    decreases |events|
  {
    if events != [] {
      var n := |events| - 1;
      var init, e := events[..n], events[n];
      var m, t := Play(s, init), Play(s, events);
      SignedInIff(s, init);
      GenerationGrows(s, init, 0);
      if !Enabled(m, e) || (!e.SignIn? && t.core.generation == m.core.generation) {
        forall i | 0 <= i < n ensures SignInStands(s, events, i) <==> SignInStands(s, init, i) {
          StandingSnoc(s, events, i);
        }
      } else if e.SignIn? {
        assert events[..n + 1] == events;
        assert SignInStands(s, events, n);
      } else {
        SessionStep(m, e);
        forall i | 0 <= i < n ensures !SignInStands(s, events, i) {
          GenerationGrows(s, init, i + 1);
          assert init[..i + 1] == events[..i + 1];
        }
      }
    }
  }

  /** While its removal is pending, nothing but its own settling moves the cleanup or the key. */
  lemma PendingRemovalWaits(m: State, e: Event)
    requires m.push.queue != [] && m.push.stage.RemovingKey? && Enabled(m, e) && (e.OnPush? ==> !e.push.Advance?)
    ensures var n := Next(m, e);
            && n.push.queue != [] && n.push.queue[0] == m.push.queue[0] && n.push.stage.RemovingKey?
            && n.push.keyOwner == m.push.keyOwner && n.push.log == m.push.log
  {
  }

  lemma {:induction false} PendingRemovalWaitsOut(s: State, events: seq<Event>, t: State)
    requires s.push.queue != [] && s.push.stage.RemovingKey? && Runs(s, events, t) && NoAdvance(events)
    ensures && t.push.queue != [] && t.push.queue[0] == s.push.queue[0] && t.push.stage.RemovingKey?
            && t.push.keyOwner == s.push.keyOwner && t.push.log == s.push.log
    decreases |events|
  {
    if events != [] {
      PendingRemovalWaits(s, events[0]);
      PendingRemovalWaitsOut(Next(s, events[0]), events[1..], t);
    }
  }

  /**
   * A removal issued while signed out lands under a newer signed-in session exactly when somebody has signed in
   * since and not out again. Whoever is signed in, the key that goes was stored by the ended session or before.
   */
  lemma RemovalLandsSignedInIff(s: State, events: seq<Event>, t: State)
    requires Reachable(s) && s.push.queue != [] && s.push.queue[0].Cleanup?
    requires s.push.stage.RemovingKey? && !s.core.signedIn
    requires Runs(s, events, t) && NoAdvance(events)
    ensures PushEnabled(t.push, Advance(true))
    ensures var u := Next(t, OnPush(Advance(true)));
            var session := s.push.queue[0].session;
            && u.push.keyOwner.None? && u.core == t.core
            && u.push.log == s.push.log + [Removed(session, t.core.generation, t.core.signedIn, s.push.keyOwner)]
            && s.push.keyOwner.Some? && s.push.keyOwner.value <= session
    ensures t.core.signedIn <==> exists i :: 0 <= i < |events| && SignInStands(s, events, i)
  {
    ReachableInv(s);
    PendingRemovalWaitsOut(s, events, t);
    RunsIsPlay(s, events, t);
    SignedInIff(s, events);
  }

  /** It does happen: a sign-out, its cleanup up to the removal, a sign-in, and only then the removal lands. */
  lemma RemovalLandsUnderANewerSession(s: State, access: Token, refresh: Token) returns (events: seq<Event>, t: State)
    requires s.core.access.Some? && s.push.keyOwner.Some?
    requires s.push.queue == [] && s.push.stage.Queued? && s.push.importing == []
    ensures Runs(s, events, t) && t.core.signedIn && t.core.generation == s.core.generation + 1 && t.push.keyOwner.None?
    ensures t.push.log != [] && t.push.log[|t.push.log| - 1]
            == Removed(s.core.generation, s.core.generation + 1, true, s.push.keyOwner)
  {
    events, t := SignOutUpToRemoval(s);
    RunsSnoc(s, events, t, SignIn(access, refresh));
    events, t := events + [SignIn(access, refresh)], Next(t, SignIn(access, refresh));
    events, t := TakePush(s, events, t, Advance(true));
  }

  // ---------------------------------------------------------------------------
  // Imports out of order
  // ---------------------------------------------------------------------------

  lemma TakeSession(s: State, events: seq<Event>, t: State, e: Event) returns (more: seq<Event>, u: State)
    requires Runs(s, events, t) && (e.SignIn? || e.SignOut?)
    ensures Runs(s, more, u) && u == Next(t, e)
  {
    RunsSnoc(s, events, t, e);
    more, u := events + [e], Next(t, e);
  }

  /** Session 0 posts a registration and ends, session 1 begins and ends; both cleanups await their imports. */
  lemma TwoSessionsEnd(s: State, access: Token, refresh: Token) returns (events: seq<Event>, t: State)
    requires Initial(s) && s.core.access.Some?
    ensures Runs(s, events, t) && t.core.generation == 2 && !t.core.signedIn
    ensures t.push == Push([], Queued, [], [Cleanup(0, s.core.access), Cleanup(1, Some(access))], Some(0),
                           [Stored(0)] + [Posted(0, 0, true, Some(0))], {}, true, false)
  {
    events, t := RegistrationIsPosted(s);
    events, t := TakeSession(s, events, t, SignOut);
    events, t := TakeSession(s, events, t, SignIn(access, refresh));
    events, t := TakeSession(s, events, t, SignOut);
  }

  /**
   * If the imports resolve the other way round, the later cleanup takes the key and the earlier one deletes
   * nothing: session 0's registration gets no DELETE of its own, although no storage call failed.
   */
  lemma ReversedImportsLoseADelete(s: State, access: Token, refresh: Token) returns (events: seq<Event>, t: State)
    requires Initial(s) && s.core.access.Some?
    ensures Runs(s, events, t) && !t.push.failed && t.push.queue == [] && t.push.importing == [] && 0 in t.push.begun
    ensures t.push.log == [Stored(0)] + [Posted(0, 0, true, Some(0))] + [Deleted(1)] + [RemovalIssued(1, 2, false, Some(0))]
                          + [Removed(1, 2, false, Some(0))]
  {
    events, t := TwoSessionsEnd(s, access, refresh);
    var job := Cleanup(1, Some(access));
    events, t := TakePush(s, events, t, ImportResolved(1));
    assert t.push == Push([job], Queued, [], [Cleanup(0, s.core.access)], Some(0),
                          [Stored(0)] + [Posted(0, 0, true, Some(0))], {}, false, false);
    CleanupSteps(t.core, t.push, job);
    events, t := TakePush(s, events, t, Advance(true));
    events, t := TakePush(s, events, t, Advance(true));
    events, t := TakePush(s, events, t, Advance(true));
    events, t := TakePush(s, events, t, Advance(true));
    events, t := TakePush(s, events, t, Advance(true));
    events, t := TakePush(s, events, t, ImportResolved(0));
    events, t := TakePush(s, events, t, Advance(true));
  }
}
