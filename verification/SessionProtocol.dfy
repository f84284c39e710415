/**
 * The whole account-session protocol: any number of requests, uploads and
 * refreshes, the persistence queue and the push queue, interleaved with
 * sign-ins and sign-outs at every await.
 */
module SessionProtocol {
  import opened Prelude
  import opened SessionCore
  import opened Persistence
  import opened ApiCalls
  import opened RefreshLadder
  import opened PushLifecycle
  import opened PushRecords

  datatype State = State(core: Core, persist: Persist, client: Client, push: Push)

  datatype Event =
    | SignIn(access: Token, refresh: Token)
    | SignOut
    | OnPersist(persist: PersistEvent)
    | OnClient(client: ClientEvent)
    | OnPush(push: PushEvent)

  /** Hydration is over: memory and storage agree and nothing is in progress. */
  predicate Initial(s: State) {
    && s.core.epoch == s.core.generation == s.core.authGeneration == 0
    && CoreInv(s.core)
    && s.persist == Persist([], Waiting, Storage(s.core.access, s.core.refresh), [], false)
    && s.client == Client(None, [], [], [], [])
    && (s.push == Push([], Queued, [], [], None, [], {}, true, false) || s.push == Push([], Queued, [], [], Some(-1), [], {}, true, false))
  }

  predicate Enabled(s: State, e: Event) {
    match e
    case SignIn(_, _) => true
    case SignOut => true
    case OnPersist(pe) => PersistEnabled(s.persist, pe)
    case OnClient(ce) => ClientEnabled(s.client, ce)
    case OnPush(qe) => PushEnabled(s.push, qe)
  }

  /** A session effect reaches memory, the persistence queue and the push queue in one synchronous step. */
  function Affect(s: State, client: Client, effect: Effect): State {
    State(ApplyToCore(s.core, effect), ApplyToPersist(s.core, s.persist, effect), client,
          ApplyToPush(s.core, s.push, effect))
  }

  function Next(s: State, e: Event): State
    requires Enabled(s, e)
  {
    match e
    case SignIn(a, r) => Affect(s, s.client, Install(a, r))
    case SignOut => Affect(s, OnReset(s.client, ByUser), Reset)
    case OnPersist(pe) => s.(persist := PersistStep(s.core, s.persist, pe))
    case OnClient(ce) => var (client, effect) := ClientStep(s.core, s.client, ce); Affect(s, client, effect)
    case OnPush(qe) => s.(push := PushStep(s.core, s.push, qe))
  }

  /** The events take s to t, each enabled when it happens. */
  predicate Runs(s: State, events: seq<Event>, t: State)
    decreases |events|
  {
    if events == [] then s == t
    else Enabled(s, events[0]) && Runs(Next(s, events[0]), events[1..], t)
  }

  ghost predicate Reachable(t: State) {
    exists s, events :: Initial(s) && Runs(s, events, t)
  }

  predicate Inv(s: State) {
    && CoreInv(s.core)
    && PersistInv(s.core, s.persist)
    && ClientInv(s.core, s.client)
    && PushInv(s.core, s.push)
    && RecordInv(s.push)
  }

  // ---------------------------------------------------------------------------
  // The invariant holds in every run
  // ---------------------------------------------------------------------------

  lemma PushStartsCovered(core: Core, keyOwner: Option<int>)
    requires core.generation == 0 && (keyOwner.None? || keyOwner == Some(-1))
    ensures PushInv(core, Push([], Queued, [], [], keyOwner, [], {}, true, false))
    ensures RecordInv(Push([], Queued, [], [], keyOwner, [], {}, true, false))
  {
    assert Unstarted(Push([], Queued, [], [], keyOwner, [], {}, true, false)) == [];
  }

  lemma InitialInv(s: State)
    requires Initial(s)
    ensures Inv(s)
  {
    assert PersistInv(s.core, s.persist);
    assert ClientInv(s.core, s.client);
    assert PushInv(s.core, s.push) && RecordInv(s.push) by {
      PushStartsCovered(s.core, None);
      PushStartsCovered(s.core, Some(-1));
    }
  }

  lemma AffectKeepsInv(s: State, client: Client, effect: Effect)
    requires Inv(s) && ClientInv(ApplyToCore(s.core, effect), client)
    ensures Inv(Affect(s, client, effect))
  {
    EffectKeepsPersistInv(s.core, s.persist, effect);
    EffectKeepsPushInv(s.core, s.push, effect);
    EffectKeepsRecord(s.core, s.push, effect);
  }

  lemma NextKeepsInv(s: State, e: Event)
    requires Inv(s) && Enabled(s, e)
    ensures Inv(Next(s, e))
  {
    match e
    case SignIn(a, r) =>
      InstallKeepsClientInv(s.core, s.client, a, r);
      AffectKeepsInv(s, s.client, Install(a, r));
    case SignOut =>
      ResetKeepsClientInv(s.core, s.client, ByUser);
      AffectKeepsInv(s, OnReset(s.client, ByUser), Reset);
    case OnPersist(pe) =>
      PersistStepKeepsInv(s.core, s.persist, pe);
    case OnClient(ce) =>
      ClientStepKeepsInv(s.core, s.client, ce);
      var (client, effect) := ClientStep(s.core, s.client, ce);
      AffectKeepsInv(s, client, effect);
    case OnPush(qe) =>
      PushStepKeepsInv(s.core, s.push, qe);
      PushStepKeepsRecord(s.core, s.push, qe);
  }

  lemma {:induction false} RunKeepsInv(s: State, events: seq<Event>, t: State)
    requires Inv(s) && Runs(s, events, t)
    ensures Inv(t)
    decreases |events|
  {
    if events != [] {
      NextKeepsInv(s, events[0]);
      RunKeepsInv(Next(s, events[0]), events[1..], t);
    }
  }

  lemma ReachableInv(t: State)
    requires Reachable(t)
    ensures Inv(t)
  {
    var s, events :| Initial(s) && Runs(s, events, t);
    InitialInv(s);
    RunKeepsInv(s, events, t);
  }

  // ---------------------------------------------------------------------------
  // Storage
  // ---------------------------------------------------------------------------

  /** Once the queue is dry and no storage call failed, secure storage holds exactly the pair in memory. */
  lemma StorageAgreesWithMemory(s: State)
    requires Reachable(s) && s.persist.queue == [] && !s.persist.failed
    ensures s.persist.storage == Storage(s.core.access, s.core.refresh)
  {
    ReachableInv(s);
  }

  /** An ended session's write never lands after that session's erasure, whatever fails. */
  lemma EndedSessionsStayErased(s: State, i: nat, j: nat)
    requires Reachable(s) && i < j < |s.persist.changes|
    requires s.persist.changes[i].Erased? && s.persist.changes[j].Wrote?
    ensures s.persist.changes[i].generation < s.persist.changes[j].generation
  {
    ReachableInv(s);
  }

  // ---------------------------------------------------------------------------
  // Requests, uploads and refreshes
  // ---------------------------------------------------------------------------

  /** At most one refresh per epoch is unfinished, and it is the one every caller of that epoch joins. */
  lemma OneRefreshPerEpoch(s: State, q: nat, r: nat)
    requires Reachable(s) && q < |s.client.refreshes| && r < |s.client.refreshes|
    requires s.client.refreshes[q].epoch == s.client.refreshes[r].epoch == s.core.epoch
    requires !s.client.refreshes[q].stage.Finished? && !s.client.refreshes[r].stage.Finished?
    ensures q == r && s.client.inFlight == Some(r)
  {
    ReachableInv(s);
  }

  /** `refreshInFlight` never holds a refresh of an earlier epoch, nor one that is over. */
  lemma InFlightIsCurrent(s: State)
    requires Reachable(s) && s.client.inFlight.Some?
    ensures s.client.inFlight.value < |s.client.refreshes|
    ensures s.client.refreshes[s.client.inFlight.value].epoch == s.core.epoch
    ensures !s.client.refreshes[s.client.inFlight.value].stage.Finished?
  {
    ReachableInv(s);
  }

  /** The session fence around one call. */
  lemma CallsAreFenced(s: State, i: nat)
    requires Reachable(s) && i < |s.client.calls|
    ensures var c := s.client.calls[i];
            && c.sends <= 2
            && (c.stage.Done? ==>
                  match c.stage.outcome
                  case SessionChanged => c.origin < c.stage.end.epoch
                  case SessionExpired => c.stage.end.generation == c.generationAtSend + 1 && !c.stage.end.signedIn
                  case _ => c.stage.end.epoch == c.origin)
  {
    ReachableInv(s);
    assert CallInv(s.core, s.client, s.client.calls[i]);
  }

  /** A refresh installs a pair at most once, in its own epoch, over the very refresh token it was sent with. */
  lemma RotationsStayInTheirSession(s: State, k: nat)
    requires Reachable(s) && k < |s.client.rotations|
    ensures var rot := s.client.rotations[k];
            && rot.refresh < |s.client.refreshes|
            && rot.epoch == s.client.refreshes[rot.refresh].epoch
            && rot.replaced == Some(s.client.refreshes[rot.refresh].token)
            && forall j :: 0 <= j < |s.client.rotations| && s.client.rotations[j].refresh == rot.refresh ==> j == k
  {
    ReachableInv(s);
  }

  /** Guarded logouts expecting one generation reset the account at most once between them. */
  lemma OneResetPerGeneration(s: State, g: nat, h: nat)
    requires Reachable(s) && g < |s.client.resets| && h < |s.client.resets|
    requires s.client.resets[g].ByCall? && s.client.resets[h].ByCall?
    ensures s.client.resets[g].call < |s.client.calls| && s.client.resets[h].call < |s.client.calls|
    ensures (s.client.calls[s.client.resets[g].call].generationAtSend
             == s.client.calls[s.client.resets[h].call].generationAtSend) ==> g == h
    ensures |s.client.resets| == s.core.generation
  {
    ReachableInv(s);
  }

  /** A 401 on a credential route is the caller's own error: it neither retries, nor refreshes, nor ends the session. */
  lemma CredentialErrorsReachTheCaller(s: State, i: nat)
    requires Reachable(s) && i < |s.client.calls|
    requires s.client.calls[i].kind.Request? && CredentialRoute(s.client.calls[i].kind.path)
    ensures s.client.calls[i].sends == 1 && !s.client.calls[i].stage.AwaitingRefresh?
    ensures s.client.calls[i].stage.Done? ==> s.client.calls[i].stage.outcome != SessionExpired
    ensures forall g :: 0 <= g < |s.client.resets| ==> s.client.resets[g] != ByCall(i)
  {
    ReachableInv(s);
    CredentialRouteIff(s.client.calls[i].kind.path);
    assert CallInv(s.core, s.client, s.client.calls[i]);
  }

  predicate OnLogoutPath(c: Call) {
    || c.stage.AwaitingImport?
    || c.stage.AwaitingCleanup?
    || (c.stage.Done? && c.stage.outcome in {SessionChanged, SessionExpired})
  }

  lemma StepKeepsLogoutPath(s: State, e: Event, i: nat)
    requires Enabled(s, e) && i < |s.client.calls| && OnLogoutPath(s.client.calls[i])
    ensures i < |Next(s, e).client.calls| && OnLogoutPath(Next(s, e).client.calls[i])
  {
  }

  /** A call that starts a guarded logout can only end in SESSION_EXPIRED or SESSION_CHANGED. */
  lemma {:induction false} LogoutEndsTheCall(s: State, events: seq<Event>, t: State, i: nat)
    requires Runs(s, events, t) && i < |s.client.calls| && OnLogoutPath(s.client.calls[i])
    ensures i < |t.client.calls| && OnLogoutPath(t.client.calls[i])
    decreases |events|
  {
    if events != [] {
      StepKeepsLogoutPath(s, events[0], i);
      LogoutEndsTheCall(Next(s, events[0]), events[1..], t, i);
    }
  }

  // ---------------------------------------------------------------------------
  // Push registrations
  // ---------------------------------------------------------------------------

  /** A POST goes out only under its originating, signed-in session and with that session's key stored. */
  lemma PostsAreCurrent(s: State, i: nat)
    requires Reachable(s) && i < |s.push.log| && s.push.log[i].Posted?
    ensures s.push.log[i].generation == s.push.log[i].origin && s.push.log[i].signedIn
    ensures s.push.log[i].keyOwner == Some(s.push.log[i].origin)
  {
    ReachableInv(s);
    assert EntryInv(s.core, s.push.log[i]);
  }

  /**
   * With imports resolving in the order they were asked for: once the cleanup owed by a session's sign-out has
   * begun, each POST of that session has been followed by a DELETE of its own; until then the key that
   * identifies the registration is still stored.
   */
  lemma PostsAreCleanedUp(s: State, i: nat)
    requires Reachable(s) && !s.push.failed && s.push.inOrder && i < |s.push.log| && s.push.log[i].Posted?
    ensures s.push.log[i].origin in s.push.begun ==>
              exists j :: i < j < |s.push.log| && s.push.log[j] == Deleted(s.push.log[i].origin)
    ensures s.push.log[i].origin !in s.push.begun ==> s.push.keyOwner.Some?
  {
    ReachableInv(s);
    assert CoveredAt(s.push.log, i, s.push.begun, s.push.keyOwner.Some?, true);
  }

  /**
   * With imports resolving in any order: before the cleanup begins the key is missing exactly if a later session's
   * cleanup took it and nobody stored it since; after it, a missing DELETE takes imports out of order and such a removal.
   */
  lemma PostsAreCleanedUpOrTaken(s: State, i: nat)
    requires Reachable(s) && i < |s.push.log| && s.push.log[i].Posted?
    ensures s.push.log[i].origin !in s.push.begun ==>
              (s.push.keyOwner.None? <==> TakenSince(s.push.log, i, s.push.log[i].origin))
    ensures !s.push.failed && s.push.log[i].origin in s.push.begun ==>
              || DeletedAfter(s.push.log, i, s.push.log[i].origin)
              || (!s.push.inOrder && TakenAfter(s.push.log, i, s.push.log[i].origin))
  {
    ReachableInv(s);
    if s.push.log[i].origin !in s.push.begun {
      KeyIsMissingIff(s.push, i);
    } else if !s.push.failed {
      assert CoveredAt(s.push.log, i, s.push.begun, s.push.keyOwner.Some?, s.push.inOrder);
    }
  }

  /** A removal is issued only while signed out by the reset that owes it. */
  lemma RemovalsAreIssuedSignedOut(s: State, i: nat)
    requires Reachable(s) && i < |s.push.log| && s.push.log[i].RemovalIssued?
    ensures var e := s.push.log[i];
            e.generation == e.session + 1 && !e.signedIn && e.keyOwner.Some? && e.keyOwner.value <= e.session
  {
    ReachableInv(s);
    assert EntryInv(s.core, s.push.log[i]);
  }

  /** Whatever session is running when a removal lands, the key it removes was stored by the ended session or an earlier one. */
  lemma RemovalsSpareNewerKeys(s: State, i: nat)
    requires Reachable(s) && i < |s.push.log| && s.push.log[i].Removed?
    ensures var e := s.push.log[i]; e.keyOwner.Some? && e.keyOwner.value <= e.session < e.generation
  {
    ReachableInv(s);
    assert EntryInv(s.core, s.push.log[i]);
  }

  /** Every ended session's cleanup has begun or is still owed. */
  lemma EverySignOutIsOwedACleanup(s: State, session: nat)
    requires Reachable(s) && session < s.core.generation && session !in s.push.begun
    ensures exists job :: job in Unstarted(s.push) && job.Cleanup? && job.session == session
  {
    ReachableInv(s);
    assert Owes(Unstarted(s.push), session);
  }

}
