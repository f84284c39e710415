/**
 * What the session protocol gets done: the runs in which the network and the
 * device storage answer, from every reachable state.
 */
module SessionProgress {
  import opened Prelude
  import opened SessionCore
  import opened Persistence
  import opened ApiCalls
  import opened RefreshLadder
  import opened PushLifecycle
  import opened SessionProtocol

  lemma {:induction false} RunsSnoc(s: State, events: seq<Event>, t: State, e: Event)
    requires Runs(s, events, t) && Enabled(t, e)
    ensures Runs(s, events + [e], Next(t, e))
    decreases |events|
  {
    if events == [] {
      assert [e][1..] == [];
      assert events + [e] == [e];
    } else {
      assert (events + [e])[1..] == events[1..] + [e];
      RunsSnoc(Next(s, events[0]), events[1..], t, e);
    }
  }

  // ---------------------------------------------------------------------------
  // Storage catches up
  // ---------------------------------------------------------------------------

  predicate AllSucceed(events: seq<PersistEvent>) {
    forall i :: 0 <= i < |events| ==> events[i].Begin? || events[i].ok
  }

  predicate PersistRuns(core: Core, p: Persist, events: seq<PersistEvent>, q: Persist)
    decreases |events|
  {
    if events == [] then p == q
    else PersistEnabled(p, events[0]) && PersistRuns(core, PersistStep(core, p, events[0]), events[1..], q)
  }

  /** Storage calls the head job still has to make, its start included. */
  function StepsLeft(stage: Stage): nat {
    match stage
    case Waiting => 3
    case WritingAccess => 2
    case WritingRefresh => 1
    case Erasing(a, r) => (if a then 0 else 1) + (if r then 0 else 1)
  }

  function NextCall(p: Persist): PersistEvent
    requires p.queue != [] && StageFits(p)
  {
    match p.stage
    case Waiting => Begin
    case WritingAccess => WriteReturns(true)
    case WritingRefresh => WriteReturns(true)
    case Erasing(a, _) => EraseReturns(!a, true)
  }

  /** If every storage call succeeds, the queue runs dry and storage holds the pair in memory. */
  lemma {:induction false} StorageCatchesUp(core: Core, p: Persist) returns (events: seq<PersistEvent>, q: Persist)
    requires PersistInv(core, p) && !p.failed
    ensures AllSucceed(events) && PersistRuns(core, p, events, q)
    ensures q.queue == [] && q.storage == Storage(core.access, core.refresh)
    decreases |p.queue|, StepsLeft(p.stage)
  {
    if p.queue == [] {
      events, q := [], p;
    } else {
      var e := NextCall(p);
      var next := PersistStep(core, p, e);
      PersistStepKeepsInv(core, p, e);
      var rest, end := StorageCatchesUp(core, next);
      events, q := [e] + rest, end;
      assert events[1..] == rest;
    }
  }

  // ---------------------------------------------------------------------------
  // A 401 is answered
  // ---------------------------------------------------------------------------

  /** Call i has just read a 401 that a refresh may answer, with nobody refreshing yet. */
  predicate NeedsRefresh(s: State, i: nat, body: Option<Envelope>) {
    && i < |s.client.calls|
    && var c := s.client.calls[i];
    && c.stage == Reading(401) && c.retriesLeft > 0 && c.epoch == s.core.epoch && Answerable(c.kind, body)
    && s.core.access == c.tokenAtSend && s.core.refresh.Some? && s.client.inFlight.None?
  }

  /** A refresh that succeeds installs its pair and sends the payload once more, under the new bearer. */
  lemma SuccessfulRefreshResends(s: State, i: nat, body: Option<Envelope>, access: Token, refresh: Token)
    returns (events: seq<Event>, t: State)
    requires NeedsRefresh(s, i, body)
    ensures Runs(s, events, t)
    ensures t.core == s.core.(access := Some(access), refresh := Some(refresh), signedIn := true)
    ensures t.client.inFlight.None? && |t.client.calls| == |s.client.calls|
    ensures var c, d := s.client.calls[i], t.client.calls[i];
            d.stage == Fetching && d.tokenAtSend == Some(access) && d.sends == c.sends + 1 && d.epoch == c.epoch
    ensures t.persist.queue == s.persist.queue + [Store(s.core.authGeneration, access, refresh)]
  {
    var r := |s.client.refreshes|;
    AnswerableIff(s.client.calls[i].kind, body);
    events, t := [], s;
    events, t := Take(s, events, t, BodyRead(i, body));
    events, t := Take(s, events, t, RefreshResponds(r, true));
    events, t := Take(s, events, t, RefreshBody(r, Some((access, refresh))));
    events, t := Take(s, events, t, RefreshStored(r));
    events, t := Take(s, events, t, RefreshSettles(r));
    events, t := Take(s, events, t, RefreshAwaited(i));
  }

  lemma Take(s: State, events: seq<Event>, t: State, e: ClientEvent) returns (more: seq<Event>, u: State)
    requires Runs(s, events, t) && ClientEnabled(t.client, e)
    ensures Runs(s, more, u) && u == Next(t, OnClient(e))
  {
    RunsSnoc(s, events, t, OnClient(e));
    more, u := events + [OnClient(e)], Next(t, OnClient(e));
  }

  lemma SentInThisGeneration(s: State, i: nat)
    requires Reachable(s) && i < |s.client.calls| && s.client.calls[i].epoch == s.core.epoch
    ensures s.client.calls[i].generationAtSend == s.core.generation
  {
    ReachableInv(s);
    assert CallInv(s.core, s.client, s.client.calls[i]);
  }

  /** How a refresh can fail. */
  datatype Failure = Unreached | Turned | Garbled

  /** The refresh in flight fails: the network, the server, or a body without a pair of tokens. */
  lemma RefreshComesToNothing(s: State, events: seq<Event>, t: State, r: nat, how: Failure)
    returns (more: seq<Event>, u: State)
    requires Runs(s, events, t) && RefreshAt(t.client, r, RefreshStage.Posting) && t.client.refreshes[r].epoch == t.core.epoch
    ensures Runs(s, more, u)
    ensures u == t.(client := SetRefresh(t.client, r, Returned(false)))
  {
    match how
    case Unreached => more, u := Take(s, events, t, RefreshFails(r));
    case Turned => more, u := Take(s, events, t, RefreshResponds(r, false));
    case Garbled =>
      more, u := Take(s, events, t, RefreshResponds(r, true));
      more, u := Take(s, more, u, RefreshBody(r, None));
  }

  /** A refresh that fails, however, ends the session: the call reports the expiry, and erasure and cleanup are owed. */
  lemma FailedRefreshSignsOut(s: State, i: nat, body: Option<Envelope>, how: Failure) returns (events: seq<Event>, t: State)
    requires Reachable(s) && NeedsRefresh(s, i, body)
    ensures Runs(s, events, t)
    ensures t.core == ApplyToCore(s.core, Reset)
    ensures i < |t.client.calls| && t.client.calls[i].stage.Done? && t.client.calls[i].stage.outcome == SessionExpired
    ensures t.client.resets == s.client.resets + [ByCall(i)]
    ensures t.persist.queue == s.persist.queue + [Erase(s.core.authGeneration)]
    ensures t.push.importing == s.push.importing + [Cleanup(s.core.generation, s.core.access)]
  {
    SentInThisGeneration(s, i);
    AnswerableIff(s.client.calls[i].kind, body);
    var r := |s.client.refreshes|;
    events, t := [], s;
    events, t := Take(s, events, t, BodyRead(i, body));
    events, t := RefreshComesToNothing(s, events, t, r, how);
    events, t := Take(s, events, t, RefreshSettles(r));
    events, t := Take(s, events, t, RefreshAwaited(i));
    events, t := Take(s, events, t, ImportLoaded(i));
    events, t := Take(s, events, t, CleanupDone(i));
  }

  /** A call that is answered by anything but a 401 in its own session is over at once, and reports what it was told. */
  lemma AnsweredCallsSettle(s: State, kind: Kind, status: nat, body: Option<Envelope>)
    returns (events: seq<Event>, t: State)
    requires status != 401
    ensures Runs(s, events, t) && t.core == s.core && t.persist == s.persist && t.push == s.push
    ensures |t.client.calls| == |s.client.calls| + 1 && t.client.calls[..|s.client.calls|] == s.client.calls
    ensures var d := t.client.calls[|s.client.calls|];
            && d.kind == kind && d.sends == 1 && d.tokenAtSend == s.core.access && d.stage.Done?
            && d.stage.outcome == if Succeeds(status, body) then Success else Refused(status)
  {
    var i := |s.client.calls|;
    events, t := [], s;
    events, t := Take(s, events, t, Start(kind));
    events, t := Take(s, events, t, Responds(i, status));
    OtherResponsesSettle(t.core, t.client, i, body);
    events, t := Take(s, events, t, BodyRead(i, body));
  }

  /** A request that has read a 401 carrying one of the codes no fresh token can fix. */
  predicate Challenged(s: State, i: nat, body: Option<Envelope>) {
    && i < |s.client.calls| && s.client.calls[i].stage == Reading(401) && s.client.calls[i].kind.Request?
    && s.client.calls[i].epoch == s.core.epoch
    && body.Some? && body.value.error.Some?
    && ChallengeCode(body.value.error.value)
  }

  lemma ChallengeEndsTheCall(s: State, i: nat, body: Option<Envelope>)
    requires Challenged(s, i, body)
    ensures var t := Next(s, OnClient(BodyRead(i, body)));
            && t.core == s.core && t.client.refreshes == s.client.refreshes && i < |t.client.calls|
            && t.client.calls[i] == Finish(s.core, s.client.calls[i], Refused(401))
  {
    AnswerableIff(s.client.calls[i].kind, body);
  }

  lemma StepKeepsDone(s: State, e: Event, i: nat)
    requires Enabled(s, e) && i < |s.client.calls| && s.client.calls[i].stage.Done?
    ensures i < |Next(s, e).client.calls| && Next(s, e).client.calls[i] == s.client.calls[i]
  {
  }

  lemma {:induction false} RunKeepsDone(s: State, events: seq<Event>, t: State, i: nat)
    requires Runs(s, events, t) && i < |s.client.calls| && s.client.calls[i].stage.Done?
    ensures i < |t.client.calls| && t.client.calls[i] == s.client.calls[i]
    decreases |events|
  {
    if events != [] {
      StepKeepsDone(s, events[0], i);
      RunKeepsDone(Next(s, events[0]), events[1..], t, i);
    }
  }

  /**
   * A challenge is the caller's own error: in every run after it, the call has ended with that 401, its payload
   * has gone out no more often than before, and no reset of the account was ever its doing.
   */
  lemma ChallengesReachTheCaller(s: State, i: nat, body: Option<Envelope>, events: seq<Event>, t: State)
    requires Reachable(s) && Challenged(s, i, body) && Runs(Next(s, OnClient(BodyRead(i, body))), events, t)
    ensures i < |t.client.calls| && t.client.calls[i].sends == s.client.calls[i].sends
    ensures t.client.calls[i].stage.Done? && t.client.calls[i].stage.outcome == Refused(401)
    ensures forall g :: 0 <= g < |t.client.resets| ==> t.client.resets[g] != ByCall(i)
  {
    var next := Next(s, OnClient(BodyRead(i, body)));
    ReachableInv(s);
    NextKeepsInv(s, OnClient(BodyRead(i, body)));
    ChallengeEndsTheCall(s, i, body);
    RunKeepsDone(next, events, t, i);
    RunKeepsInv(next, events, t);
  }

  // ---------------------------------------------------------------------------
  // A device is registered and cleaned up
  // ---------------------------------------------------------------------------

  lemma TakePush(s: State, events: seq<Event>, t: State, e: PushEvent) returns (more: seq<Event>, u: State)
    requires Runs(s, events, t) && PushEnabled(t.push, e)
    ensures Runs(s, more, u) && u == t.(push := PushStep(t.core, t.push, e))
  {
    RunsSnoc(s, events, t, OnPush(e));
    more, u := events + [OnPush(e)], Next(t, OnPush(e));
  }

  /** With an idle queue, a signed-in session that asks for push ends up posted with its key stored. */
  lemma RegistrationIsPosted(s: State) returns (events: seq<Event>, t: State)
    requires s.core.signedIn && s.core.access.Some? && s.push.queue == [] && s.push.stage.Queued? && s.push.asking == []
    ensures Runs(s, events, t) && t.core == s.core
    ensures t.push == s.push.(keyOwner := Some(s.core.generation), log := s.push.log
                              + [Stored(s.core.generation)] + [Posted(s.core.generation, s.core.generation, true, Some(s.core.generation))])
  {
    var g := s.core.generation;
    events, t := [], s;
    events, t := TakePush(s, events, t, Ask);
    events, t := TakePush(s, events, t, TokenObtained(0));
    events, t := TakePush(s, events, t, Advance(true));
    events, t := TakePush(s, events, t, Advance(true));
    events, t := TakePush(s, events, t, Advance(true));
  }

  /** A cleanup that starts while its sign-out is the last thing that happened, with every call succeeding. */
  lemma CleanupSteps(core: Core, p: Push, job: PushJob)
    requires job.Cleanup? && job.access.Some? && CleanupIsCurrent(core, job)
    requires p.queue == [job] && p.stage.Queued? && p.keyOwner.Some?
    ensures var deleting := p.(begun := p.begun + {job.session}, stage := Deleting, log := p.log + [Deleted(job.session)]);
            var entry := RemovalIssued(job.session, core.generation, core.signedIn, p.keyOwner);
            var removing := deleting.(stage := RemovingKey, log := deleting.log + [entry]);
            var removed := Removed(job.session, core.generation, core.signedIn, p.keyOwner);
            var clearing := removing.(stage := ClearingBadge, keyOwner := None, log := removing.log + [removed]);
            && AdvanceCleanup(core, p, true) == deleting
            && AdvanceCleanup(core, deleting, true) == deleting.(stage := Rereading)
            && AdvanceCleanup(core, deleting.(stage := Rereading), true) == removing
            && AdvanceCleanup(core, removing, true) == clearing
            && AdvanceCleanup(core, clearing, true) == clearing.(queue := [], stage := Queued)
  {
  }

  /** Signing out then deletes the registration and forgets the key, if nobody signs in meanwhile. */
  lemma SignOutCleansUp(s: State) returns (events: seq<Event>, t: State)
    requires s.core.access.Some? && s.push.keyOwner.Some?
    requires s.push.queue == [] && s.push.stage.Queued? && s.push.importing == []
    ensures Runs(s, events, t) && t.core == ApplyToCore(s.core, Reset)
    ensures var g := s.core.generation;
            t.push == s.push.(keyOwner := None, begun := s.push.begun + {g}, log := s.push.log
                              + [Deleted(g)]
                              + [RemovalIssued(g, g + 1, false, s.push.keyOwner)]
                              + [Removed(g, g + 1, false, s.push.keyOwner)])
  {
    events, t := SignOutUpToRemoval(s);
    CleanupSteps(t.core, AfterSignOut(s), Cleanup(s.core.generation, s.core.access));
    events, t := TakePush(s, events, t, Advance(true));
    events, t := TakePush(s, events, t, Advance(true));
  }

  /** The push queue when the cleanup of a sign-out has just been queued. */
  function AfterSignOut(s: State): Push {
    s.push.(queue := [Cleanup(s.core.generation, s.core.access)], importing := [])
  }

  /** A sign-out and its cleanup up to the point where the removal of the key has been issued. */
  lemma SignOutUpToRemoval(s: State) returns (events: seq<Event>, t: State)
    requires s.core.access.Some? && s.push.keyOwner.Some?
    requires s.push.queue == [] && s.push.stage.Queued? && s.push.importing == []
    ensures Runs(s, events, t) && t.core == ApplyToCore(s.core, Reset)
    ensures var g := s.core.generation;
            t.push == AfterSignOut(s).(stage := RemovingKey, begun := s.push.begun + {g}, log := s.push.log
                                       + [Deleted(g)] + [RemovalIssued(g, g + 1, false, s.push.keyOwner)])
  {
    RunsSnoc(s, [], s, SignOut);
    events, t := [] + [SignOut], Next(s, SignOut);
    events, t := TakePush(s, events, t, ImportResolved(0));
    assert t.push == AfterSignOut(s);
    CleanupSteps(t.core, t.push, t.push.queue[0]);
    events, t := TakePush(s, events, t, Advance(true));
    events, t := TakePush(s, events, t, Advance(true));
    events, t := TakePush(s, events, t, Advance(true));
  }
}
