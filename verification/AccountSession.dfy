/**
 * The objects that carry the account session, with the code between two awaits
 * of their asynchronous methods as one method each. Every method is proved to
 * take the protocol step of the same name.
 */
module AccountSession {
  import opened Prelude
  import opened SessionCore
  import opened Persistence
  import opened ApiCalls
  import opened RefreshLadder
  import opened PushLifecycle
  import opened PushRecords
  import opened SessionProtocol

  /** The auth store and the persistence queue behind it. */
  class AuthStore {
    var sessionGeneration: nat
    var authSessionGeneration: nat
    var accessToken: Option<Token>
    var refreshToken: Option<Token>
    var isAuthenticated: bool

    var queue: seq<Job>
    var stage: Stage
    var storage: Storage
    ghost var changes: seq<Change>
    ghost var failed: bool

    ghost function Core(epoch: nat): Core
      reads this
    {
      SessionCore.Core(epoch, sessionGeneration, authSessionGeneration, accessToken, refreshToken, isAuthenticated)
    }

    ghost function Persisted(): Persist
      reads this
    {
      Persist(queue, stage, storage, changes, failed)
    }

    /** Sessions are queued in order and storage is converging on memory. */
    ghost predicate Valid()
      reads this
    {
      PersistInv(Core(0), Persisted())
    }

    /** Hydration has completed with this pair. */
    constructor (access: Option<Token>, refresh: Option<Token>)
      ensures Valid()
      ensures Core(0) == SessionCore.Core(0, 0, 0, access, refresh, access.Some?)
      ensures Persisted() == Persist([], Waiting, Storage(access, refresh), [], false)
    {
      sessionGeneration, authSessionGeneration := 0, 0;
      accessToken, refreshToken, isAuthenticated := access, refresh, access.Some?;
      queue, stage, storage := [], Waiting, Storage(access, refresh);
      changes, failed := [], false;
    }

    /** setTokens up to its first await. */
    method SetTokens(access: Token, refresh: Token)
      requires Valid()
      modifies this
      ensures Valid()
      ensures Core(0) == ApplyToCore(old(Core(0)), Install(access, refresh))
      ensures Persisted() == ApplyToPersist(old(Core(0)), old(Persisted()), Install(access, refresh))
    {
      EffectKeepsPersistInv(Core(0), Persisted(), Install(access, refresh));
      var generation := authSessionGeneration;
      accessToken := Some(access);
      refreshToken := Some(refresh);
      isAuthenticated := true;
      queue := queue + [Store(generation, access, refresh)];
    }

    method AdvanceSessionGeneration()
      modifies this`sessionGeneration
      ensures sessionGeneration == old(sessionGeneration) + 1
    {
      sessionGeneration := sessionGeneration + 1;
    }

    /** clearLocalAuthSession: forget the session at once, erase its storage in turn. */
    method ClearLocalAuthSession()
      requires Valid()
      modifies this
      ensures Valid()
      ensures sessionGeneration == old(sessionGeneration)
      ensures authSessionGeneration == old(authSessionGeneration) + 1
      ensures accessToken == None && refreshToken == None && !isAuthenticated
      ensures Persisted() == old(Persisted()).(queue := old(queue) + [Erase(old(authSessionGeneration))])
    {
      EffectKeepsPersistInv(Core(0), Persisted(), Reset);
      ghost var reset := ApplyToCore(Core(0), Reset);
      var ended := authSessionGeneration;
      authSessionGeneration := authSessionGeneration + 1;
      accessToken := None;
      refreshToken := None;
      isAuthenticated := false;
      queue := queue + [Erase(ended)];
      PersistIgnores(reset, Core(0), Persisted());
    }

    method BeginJob()
      requires Valid() && PersistEnabled(Persisted(), Begin)
      modifies this
      ensures Valid() && Core(0) == old(Core(0))
      ensures Persisted() == PersistStep(old(Core(0)), old(Persisted()), Begin)
      ensures queue == [] && !failed ==> storage == Storage(accessToken, refreshToken)
    {
      PersistStepKeepsInv(Core(0), Persisted(), Begin);
      match queue[0] {
        case Store(generation, _, _) =>
          if generation != authSessionGeneration {
            queue, stage := queue[1..], Waiting;
          } else {
            stage := WritingAccess;
          }
        case Erase(_) =>
          stage := Erasing(false, false);
      }
    }

    method WriteReturned(ok: bool)
      requires Valid() && PersistEnabled(Persisted(), WriteReturns(ok))
      modifies this
      ensures Valid() && Core(0) == old(Core(0))
      ensures Persisted() == PersistStep(old(Core(0)), old(Persisted()), WriteReturns(ok))
      ensures queue == [] && !failed ==> storage == Storage(accessToken, refreshToken)
    {
      PersistStepKeepsInv(Core(0), Persisted(), WriteReturns(ok));
      var job := queue[0];
      if !ok {
        failed := true;
        queue, stage := queue[1..], Waiting;
        return;
      }
      changes := changes + [Wrote(job.generation)];
      if stage.WritingAccess? {
        storage := storage.(access := Some(job.access));
        stage := WritingRefresh;
      } else {
        storage := storage.(refresh := Some(job.refresh));
        queue, stage := queue[1..], Waiting;
      }
    }

    method EraseReturned(accessKey: bool, ok: bool)
      requires Valid() && PersistEnabled(Persisted(), EraseReturns(accessKey, ok))
      modifies this
      ensures Valid() && Core(0) == old(Core(0))
      ensures Persisted() == PersistStep(old(Core(0)), old(Persisted()), EraseReturns(accessKey, ok))
      ensures queue == [] && !failed ==> storage == Storage(accessToken, refreshToken)
    {
      PersistStepKeepsInv(Core(0), Persisted(), EraseReturns(accessKey, ok));
      if !ok {
        failed := true;
      } else {
        changes := changes + [Erased(queue[0].generation)];
        storage := if accessKey then storage.(access := None) else storage.(refresh := None);
      }
      stage := if accessKey then stage.(accessDone := true) else stage.(refreshDone := true);
      if stage.accessDone && stage.refreshDone {
        queue, stage := queue[1..], Waiting;
      }
    }
  }

  /** A rotation happens only in a session that is signed in, and moves no counter. */
  lemma CoreStays(core: Core, client: Client, r: nat, pair: Option<(Token, Token)>)
    requires CoreInv(core) && ClientEnabled(client, RefreshBody(r, pair))
    ensures CoreInv(ApplyToCore(core, ClientStep(core, client, RefreshBody(r, pair)).1))
  {
  }

  /** The API client: the session epoch, the one refresh in flight, and the calls in progress. */
  class ApiClient {
    const auth: AuthStore
    var sessionEpoch: nat
    var refreshInFlight: Option<nat>
    var refreshes: seq<Refresh>
    var calls: seq<Call>
    ghost var resets: seq<Cause>
    ghost var rotations: seq<Rotation>

    ghost function Core(): Core
      reads this, auth
    {
      auth.Core(sessionEpoch)
    }

    ghost function View(): Client
      reads this
    {
      Client(refreshInFlight, refreshes, calls, resets, rotations)
    }

    /** One refresh per epoch, every call fenced to its own, every reset and rotation accounted for. */
    ghost predicate Valid()
      reads this, auth
    {
      CoreInv(Core()) && ClientInv(Core(), View())
    }

    constructor (auth: AuthStore)
      ensures this.auth == auth && sessionEpoch == 0 && View() == Client(None, [], [], [], [])
    {
      this.auth := auth;
      sessionEpoch, refreshInFlight := 0, None;
      refreshes, calls := [], [];
      resets, rotations := [], [];
    }

    method ResetSession(ghost cause: Cause)
      modifies this, auth`sessionGeneration
      ensures sessionEpoch == old(sessionEpoch) + 1
      ensures auth.sessionGeneration == old(auth.sessionGeneration) + 1
      ensures View() == OnReset(old(View()), cause)
    {
      sessionEpoch := sessionEpoch + 1;
      auth.AdvanceSessionGeneration();
      refreshInFlight := None;
      resets := resets + [cause];
    }

    method StartCall(kind: Kind) returns (i: nat)
      requires Valid()
      modifies this
      ensures Valid()
      ensures i == old(|calls|) && sessionEpoch == old(sessionEpoch)
      ensures View() == ClientStep(old(Core()), old(View()), Start(kind)).0
    {
      ClientStepKeepsInv(Core(), View(), Start(kind));
      i := |calls|;
      calls := calls + [Call(kind, sessionEpoch, sessionEpoch, auth.accessToken, auth.sessionGeneration, 1, 1, Fetching)];
    }

    method EndCall(i: nat, outcome: Outcome)
      requires i < |calls|
      modifies this`calls
      ensures calls == old(calls)[i := Finish(Core(), old(calls[i]), outcome)]
    {
      var end := Ending(sessionEpoch, auth.sessionGeneration, auth.isAuthenticated);
      calls := calls[i := calls[i].(stage := Done(outcome, end))];
    }

    /** The recursive retry with one retry less. */
    method SendAgain(i: nat)
      requires i < |calls| && calls[i].retriesLeft > 0
      modifies this`calls
      ensures calls == old(calls)[i := Resend(Core(), old(calls[i]))]
    {
      var c := calls[i];
      calls := calls[i := Call(c.kind, c.origin, sessionEpoch, auth.accessToken, auth.sessionGeneration,
                               c.retriesLeft - 1, c.sends + 1, Fetching)];
    }

    method FetchFailed(i: nat)
      requires Valid() && ClientEnabled(View(), FetchFails(i))
      modifies this`calls
      ensures Valid()
      ensures View() == ClientStep(old(Core()), old(View()), FetchFails(i)).0
      ensures i < |calls| && calls[i].stage.Done?
      ensures calls[i].stage.outcome == if old(calls[i].epoch) == sessionEpoch then TransportFault else SessionChanged
    {
      ArrivalsAreFenced(Core(), View(), i, 0);
      ClientStepKeepsInv(Core(), View(), FetchFails(i));
      if calls[i].epoch != sessionEpoch {
        EndCall(i, SessionChanged);
      } else {
        EndCall(i, TransportFault);
      }
    }

    method ResponseArrived(i: nat, status: nat)
      requires Valid() && ClientEnabled(View(), Responds(i, status))
      modifies this`calls
      ensures Valid()
      ensures View() == ClientStep(old(Core()), old(View()), Responds(i, status)).0
      ensures i < |calls|
      ensures old(calls[i].epoch) == sessionEpoch ==> calls[i] == old(calls[i]).(stage := Reading(status))
      ensures old(calls[i].epoch) != sessionEpoch ==> calls[i].stage.Done? && calls[i].stage.outcome == SessionChanged
    {
      ArrivalsAreFenced(Core(), View(), i, status);
      ClientStepKeepsInv(Core(), View(), Responds(i, status));
      if calls[i].epoch != sessionEpoch {
        EndCall(i, SessionChanged);
      } else {
        calls := calls[i := calls[i].(stage := Reading(status))];
      }
    }

    /** tryRefresh: coalesces concurrent refreshes onto one request. */
    method TryRefresh() returns (id: nat)
      requires Valid() && auth.refreshToken.Some?
      modifies this`refreshes, this`refreshInFlight
      ensures Valid() && (View(), id) == JoinRefresh(old(Core()), old(View()))
      ensures id < |refreshes| && refreshes[id].epoch == sessionEpoch && !refreshes[id].stage.Finished?
      ensures forall r :: 0 <= r < |refreshes| && refreshes[r].epoch == sessionEpoch && !refreshes[r].stage.Finished? ==> r == id
    {
      JoinKeepsInv(Core(), View());
      if refreshInFlight.Some? {
        return refreshInFlight.value;
      }
      id := |refreshes|;
      refreshes := refreshes + [Refresh(sessionEpoch, auth.refreshToken.value, RefreshStage.Posting)];
      refreshInFlight := Some(id);
    }

    /** A first 401 climbs the ladder; any other response settles its call. */
    method BodyArrived(i: nat, body: Option<Envelope>)
      requires Valid() && ClientEnabled(View(), BodyRead(i, body))
      modifies this`calls, this`refreshes, this`refreshInFlight
      ensures Valid() && View() == ClientStep(old(Core()), old(View()), BodyRead(i, body)).0
      ensures i < |calls|
      ensures old(FirstRefusal(Core(), View(), i)) ==> Ladder(Core(), old(calls[i]), calls[i], body, refreshInFlight)
      ensures var c := old(calls[i]);
              c.epoch == sessionEpoch && (c.stage.status != 401 || c.retriesLeft == 0) ==>
                && calls[i].stage.Done?
                && calls[i].stage.outcome == if Succeeds(c.stage.status, body) then Success else Refused(c.stage.status)
    {
      ClientStepKeepsInv(Core(), View(), BodyRead(i, body));
      if FirstRefusal(Core(), View(), i) {
        LadderIff(Core(), View(), i, body);
      } else if calls[i].epoch == sessionEpoch {
        OtherResponsesSettle(Core(), View(), i, body);
      }
      HandleBody(i, body);
    }

    method HandleBody(i: nat, body: Option<Envelope>)
      requires Valid() && ClientEnabled(View(), BodyRead(i, body))
      modifies this`calls, this`refreshes, this`refreshInFlight
      ensures View() == ClientStep(old(Core()), old(View()), BodyRead(i, body)).0
    {
      var c := calls[i];
      var status := c.stage.status;
      if c.epoch != sessionEpoch {
        EndCall(i, SessionChanged);
        return;
      }
      if status == 401 && c.retriesLeft > 0 && MayRefresh(c.kind, body) {
        if auth.accessToken != c.tokenAtSend {
          SendAgain(i);
          return;
        }
        if auth.refreshToken.Some? {
          var id := TryRefresh();
          calls := calls[i := c.(stage := AwaitingRefresh(id))];
          return;
        }
        if c.kind.Upload? {
          BeginLogout(i);
          return;
        }
      }
      EndCall(i, SettleResponse(status, body));
    }

    /** The guarded logout up to its first await. */
    method BeginLogout(i: nat)
      requires i < |calls|
      modifies this`calls
      ensures calls == old(calls)[i := EnterLogout(Core(), old(calls[i]))]
    {
      var c := calls[i];
      if auth.sessionGeneration != c.generationAtSend {
        calls := calls[i := c.(stage := AwaitingCleanup)];
      } else {
        calls := calls[i := c.(stage := AwaitingImport)];
      }
    }

    method RefreshResolved(i: nat)
      requires Valid() && ClientEnabled(View(), RefreshAwaited(i))
      modifies this`calls
      ensures Valid()
      ensures View() == ClientStep(old(Core()), old(View()), RefreshAwaited(i)).0
    {
      ClientStepKeepsInv(Core(), View(), RefreshAwaited(i));
      var ok := refreshes[calls[i].stage.refresh].stage.ok;
      if calls[i].epoch != sessionEpoch {
        EndCall(i, SessionChanged);
      } else if ok {
        SendAgain(i);
      } else {
        BeginLogout(i);
      }
    }

    method LogoutReturned(i: nat)
      requires Valid() && ClientEnabled(View(), CleanupDone(i))
      modifies this`calls
      ensures Valid()
      ensures View() == ClientStep(old(Core()), old(View()), CleanupDone(i)).0
      ensures i < |calls| && calls[i].stage.Done?
      ensures calls[i].stage.outcome == if auth.sessionGeneration == old(calls[i].generationAtSend) + 1 && !auth.isAuthenticated
                                        then SessionExpired else SessionChanged
    {
      assert CallInv(Core(), View(), calls[i]);
      ClientStepKeepsInv(Core(), View(), CleanupDone(i));
      var c := calls[i];
      if auth.sessionGeneration != c.generationAtSend + 1 || auth.isAuthenticated {
        if c.epoch != sessionEpoch {
          EndCall(i, SessionChanged);
          return;
        }
      }
      EndCall(i, SessionExpired);
    }

    method SetStage(r: nat, stage: RefreshStage)
      requires r < |refreshes|
      modifies this`refreshes
      ensures View() == SetRefresh(old(View()), r, stage)
    {
      refreshes := refreshes[r := refreshes[r].(stage := stage)];
    }

    method RefreshResponseArrived(r: nat, reached: bool, ok: bool)
      requires Valid() && ClientEnabled(View(), RefreshFails(r))
      modifies this`refreshes
      ensures Valid()
      ensures View() == ClientStep(old(Core()), old(View()), if reached then RefreshResponds(r, ok) else RefreshFails(r)).0
      ensures r < |refreshes| && refreshes[r].stage ==
                if reached && ok && old(refreshes[r].epoch) == sessionEpoch then ReadingPair else Returned(false)
    {
      ClientStepKeepsInv(Core(), View(), if reached then RefreshResponds(r, ok) else RefreshFails(r));
      if !reached || refreshes[r].epoch != sessionEpoch || !ok {
        SetStage(r, Returned(false));
      } else {
        SetStage(r, ReadingPair);
      }
    }

    /** The pair is installed only over the refresh token this refresh was sent with. */
    method PairArrived(r: nat, pair: Option<(Token, Token)>)
      requires Valid() && auth.Valid() && ClientEnabled(View(), RefreshBody(r, pair))
      modifies this`refreshes, this`rotations, auth
      ensures Valid() && auth.Valid() && sessionEpoch == old(sessionEpoch)
      ensures var (client, effect) := ClientStep(old(Core()), old(View()), RefreshBody(r, pair));
              && View() == client
              && Core() == ApplyToCore(old(Core()), effect)
              && auth.Persisted() == ApplyToPersist(old(Core()), old(auth.Persisted()), effect)
      ensures if pair.Some? && old(refreshes[r].epoch) == sessionEpoch && old(auth.refreshToken) == Some(old(refreshes[r].token))
              then auth.accessToken == Some(pair.value.0) && auth.refreshToken == Some(pair.value.1) && auth.isAuthenticated
              else auth.accessToken == old(auth.accessToken) && auth.refreshToken == old(auth.refreshToken)
    {
      ClientStepKeepsInv(Core(), View(), RefreshBody(r, pair));
      CoreStays(Core(), View(), r, pair);
      if refreshes[r].epoch != sessionEpoch || pair.None? {
        SetStage(r, Returned(false));
        return;
      }
      if auth.refreshToken != Some(refreshes[r].token) {
        SetStage(r, Returned(false));
        return;
      }
      rotations := rotations + [Rotation(r, sessionEpoch, auth.refreshToken)];
      SetStage(r, StoringPair);
      auth.SetTokens(pair.value.0, pair.value.1);
    }

    method PairStored(r: nat)
      requires Valid() && ClientEnabled(View(), RefreshStored(r))
      modifies this`refreshes
      ensures Valid()
      ensures View() == ClientStep(old(Core()), old(View()), RefreshStored(r)).0
      ensures r < |refreshes| && refreshes[r].stage == Returned(old(refreshes[r].epoch) == sessionEpoch)
    {
      ClientStepKeepsInv(Core(), View(), RefreshStored(r));
      SetStage(r, Returned(refreshes[r].epoch == sessionEpoch));
    }

    method RefreshSettled(r: nat)
      requires Valid() && ClientEnabled(View(), RefreshSettles(r))
      modifies this`refreshes, this`refreshInFlight
      ensures Valid()
      ensures View() == ClientStep(old(Core()), old(View()), RefreshSettles(r)).0
    {
      ClientStepKeepsInv(Core(), View(), RefreshSettles(r));
      if refreshInFlight == Some(r) {
        refreshInFlight := None;
      }
      SetStage(r, Finished(refreshes[r].stage.ok));
    }
  }

  /** The key goes only at the hands of a cleanup, and only if its session or an earlier one stored it. */
  lemma WhoRemovesTheKey(core: Core, p: Push, ok: bool)
    requires PushInv(core, p) && PushEnabled(p, Advance(ok))
    ensures p.keyOwner.Some? && PushStep(core, p, Advance(ok)).keyOwner.None? ==>
              p.queue[0].Cleanup? && p.keyOwner.value <= p.queue[0].session
  {
  }

  /** The push-lifecycle queue and the device key it guards. */
  class PushQueue {
    const auth: AuthStore
    var queue: seq<PushJob>
    var stage: PushStage
    var asking: seq<PushJob>
    var importing: seq<PushJob>
    var keyStored: bool
    ghost var keyOwner: int
    ghost var log: seq<PushEntry>
    ghost var begun: set<nat>
    ghost var inOrder: bool
    ghost var failed: bool

    ghost function Owner(): Option<int>
      reads this
    {
      if keyStored then Some(keyOwner) else None
    }

    ghost function View(): Push
      reads this
    {
      Push(queue, stage, asking, importing, Owner(), log, begun, inOrder, failed)
    }

    /** One cleanup owed per ended session, every registration covered or deleted again. */
    ghost predicate Valid()
      reads this, auth
    {
      PushInv(auth.Core(0), View()) && RecordInv(View())
    }

    constructor (auth: AuthStore, keyStored: bool)
      ensures this.auth == auth
      ensures View() == Push([], Queued, [], [], if keyStored then Some(-1) else None, [], {}, true, false)
    {
      this.auth := auth;
      queue, stage, asking, importing := [], Queued, [], [];
      this.keyStored, keyOwner := keyStored, -1;
      log, begun, inOrder, failed := [], {}, true, false;
    }

    method Ask()
      requires Valid()
      modifies this
      ensures Valid()
      ensures View() == PushStep(auth.Core(0), old(View()), PushEvent.Ask)
    {
      PushStepKeepsInv(auth.Core(0), View(), PushEvent.Ask);
      PushStepKeepsRecord(auth.Core(0), View(), PushEvent.Ask);
      asking := asking + [Register(auth.sessionGeneration, auth.accessToken)];
    }

    method TokenObtained(k: nat)
      requires Valid() && k < |asking|
      modifies this
      ensures Valid()
      ensures View() == PushStep(auth.Core(0), old(View()), PushEvent.TokenObtained(k))
      ensures queue == old(queue) + [old(asking[k])] && asking == old(asking)[..k] + old(asking)[k + 1..]
    {
      PushStepKeepsInv(auth.Core(0), View(), PushEvent.TokenObtained(k));
      PushStepKeepsRecord(auth.Core(0), View(), PushEvent.TokenObtained(k));
      queue := queue + [asking[k]];
      asking := asking[..k] + asking[k + 1..];
    }

    method AskDropped(k: nat)
      requires Valid() && k < |asking|
      modifies this
      ensures Valid()
      ensures View() == PushStep(auth.Core(0), old(View()), PushEvent.AskDropped(k))
      ensures queue == old(queue) && asking == old(asking)[..k] + old(asking)[k + 1..]
    {
      PushStepKeepsInv(auth.Core(0), View(), PushEvent.AskDropped(k));
      PushStepKeepsRecord(auth.Core(0), View(), PushEvent.AskDropped(k));
      asking := asking[..k] + asking[k + 1..];
    }

    /** The reset coordinator asks for a cleanup; it is queued once the module import resolves. */
    method RequestCleanup(accessToken: Option<Token>, session: nat)
      modifies this
      ensures View() == old(View()).(importing := old(importing) + [Cleanup(session, accessToken)])
    {
      importing := importing + [Cleanup(session, accessToken)];
    }

    method ImportResolved(k: nat)
      requires Valid() && k < |importing|
      modifies this
      ensures Valid()
      ensures View() == PushStep(auth.Core(0), old(View()), PushEvent.ImportResolved(k))
      ensures queue == old(queue) + [old(importing[k])] && importing == old(importing)[..k] + old(importing)[k + 1..]
    {
      PushStepKeepsInv(auth.Core(0), View(), PushEvent.ImportResolved(k));
      PushStepKeepsRecord(auth.Core(0), View(), PushEvent.ImportResolved(k));
      queue := queue + [importing[k]];
      importing := importing[..k] + importing[k + 1..];
      inOrder := inOrder && k == 0;
    }

    method Leave()
      requires queue != []
      modifies this`queue, this`stage
      ensures queue == old(queue)[1..] && stage == Queued
    {
      queue, stage := queue[1..], Queued;
    }

    /** The head job's pending call settles and the job runs to its next await. */
    method AdvanceHead(ok: bool)
      requires Valid() && PushEnabled(View(), Advance(ok))
      modifies this
      ensures Valid() && View() == PushStep(auth.Core(0), old(View()), Advance(ok))
      ensures old(keyStored) && !keyStored ==> old(queue[0].Cleanup? && keyOwner <= queue[0].session)
    {
      PushStepKeepsInv(auth.Core(0), View(), Advance(ok));
      PushStepKeepsRecord(auth.Core(0), View(), Advance(ok));
      WhoRemovesTheKey(auth.Core(0), View(), ok);
      if queue[0].Register? {
        AdvanceRegistration(ok);
      } else {
        AdvanceCleanup(ok);
      }
    }

    method AdvanceRegistration(ok: bool)
      requires PushEnabled(View(), Advance(ok)) && queue[0].Register?
      modifies this
      ensures View() == PushStep(auth.Core(0), old(View()), Advance(ok))
    {
      var job := queue[0];
      var current := auth.sessionGeneration == job.generation && auth.isAuthenticated;
      if stage.Queued? {
        if current { stage := StoringKey; } else { Leave(); }
      } else if stage.StoringKey? {
        if !ok {
          failed := true;
          Leave();
          return;
        }
        keyStored, keyOwner := true, job.generation;
        log := log + [Stored(job.generation)];
        if !current {
          Leave();
          return;
        }
        stage := PushStage.Posting;
        if job.access.Some? {
          log := log + [Posted(job.generation, auth.sessionGeneration, auth.isAuthenticated, Owner())];
        }
      } else {
        Leave();
      }
    }

    method AdvanceCleanup(ok: bool)
      requires PushEnabled(View(), Advance(ok)) && queue[0].Cleanup?
      modifies this
      ensures View() == PushStep(auth.Core(0), old(View()), Advance(ok))
    {
      var job := queue[0];
      var current := auth.sessionGeneration == job.session + 1 && !auth.isAuthenticated;
      if stage.Queued? {
        begun := begun + {job.session};
        if !ok { failed := true; }
        if !ok || !keyStored {
          Leave();
          return;
        }
        if job.access.Some? { log := log + [Deleted(job.session)]; }
        stage := Deleting;
      } else if stage.Deleting? {
        if current { stage := Rereading; } else { Leave(); }
      } else if stage.Rereading? {
        if !ok { failed := true; }
        if !ok || !current || !keyStored {
          Leave();
          return;
        }
        log := log + [RemovalIssued(job.session, auth.sessionGeneration, auth.isAuthenticated, Owner())];
        stage := RemovingKey;
      } else if stage.RemovingKey? {
        if ok {
          log := log + [Removed(job.session, auth.sessionGeneration, auth.isAuthenticated, Owner())];
          keyStored := false;
        } else {
          failed := true;
        }
        if current { stage := ClearingBadge; } else { Leave(); }
      } else {
        Leave();
      }
    }
  }

  /** The account as a whole. */
  class Session {
    const auth: AuthStore
    const client: ApiClient
    const push: PushQueue

    ghost predicate Wired()
      reads this
    {
      client.auth == auth && push.auth == auth
    }

    ghost function View(): State
      reads this, auth, client, push
    {
      State(auth.Core(client.sessionEpoch), auth.Persisted(), client.View(), push.View())
    }

    /** The protocol's invariant holds of the objects as they stand. */
    ghost predicate Valid()
      reads this, auth, client, push
    {
      Wired() && Inv(View())
    }

    /** The account is valid exactly when its parts are. */
    lemma Parts()
      requires Wired()
      ensures Valid() <==> auth.Valid() && client.Valid() && push.Valid()
    {
      var core := auth.Core(client.sessionEpoch);
      PersistIgnores(core, auth.Core(0), auth.Persisted());
      PushIgnores(core, auth.Core(0), push.View());
    }

    constructor (access: Option<Token>, refresh: Option<Token>, keyStored: bool)
      requires refresh.Some? ==> access.Some?
      ensures Valid() && fresh(auth) && fresh(client) && fresh(push)
      ensures Initial(View())
    {
      var a := new AuthStore(access, refresh);
      auth := a;
      client := new ApiClient(a);
      push := new PushQueue(a, keyStored);
      new;
      InitialInv(View());
    }

    method SignIn(access: Token, refresh: Token)
      requires Valid()
      modifies auth
      ensures Valid() && View() == Next(old(View()), Event.SignIn(access, refresh))
    {
      Parts();
      NextKeepsInv(View(), Event.SignIn(access, refresh));
      auth.SetTokens(access, refresh);
    }

    /**
     * resetAccountSession up to its first await: the epoch moves first, the
     * token pair is forgotten last, and the push cleanup carries the bearer
     * read before either.
     */
    method ResetAccountSession(ghost cause: Cause)
      requires Wired() && auth.Valid()
      modifies auth, client, push
      ensures View() == Affect(old(View()), OnReset(old(client.View()), cause), Reset)
    {
      var accessToken := auth.accessToken;
      var ended := auth.sessionGeneration;
      client.ResetSession(cause);
      auth.ClearLocalAuthSession();
      push.RequestCleanup(accessToken, ended);
    }

    method SignOut()
      requires Valid()
      modifies auth, client, push
      ensures Valid() && View() == Next(old(View()), Event.SignOut)
    {
      Parts();
      NextKeepsInv(View(), Event.SignOut);
      ResetAccountSession(ByUser);
    }

    /** The guarded logout once its dynamic import has resolved: check again, then reset. */
    method ImportLoaded(i: nat)
      requires Valid() && ClientEnabled(client.View(), ClientEvent.ImportLoaded(i))
      modifies auth, client, push
      ensures Valid() && View() == Next(old(View()), OnClient(ClientEvent.ImportLoaded(i)))
      ensures auth.sessionGeneration > old(client.calls[i].generationAtSend)
    {
      Parts();
      ghost var next := Next(View(), OnClient(ClientEvent.ImportLoaded(i)));
      NextKeepsInv(View(), OnClient(ClientEvent.ImportLoaded(i)));
      assert CallInv(next.core, next.client, next.client.calls[i]);
      var c := client.calls[i];
      client.calls := client.calls[i := c.(stage := AwaitingCleanup)];
      if auth.sessionGeneration != c.generationAtSend {
        return;
      }
      ResetAccountSession(ByCall(i));
    }

    /** A refresh that reads its pair reaches memory, storage queue and client in one step. */
    method PairArrived(r: nat, pair: Option<(Token, Token)>)
      requires Valid() && ClientEnabled(client.View(), RefreshBody(r, pair))
      modifies auth, client
      ensures Valid() && View() == Next(old(View()), OnClient(RefreshBody(r, pair)))
    {
      Parts();
      NextKeepsInv(View(), OnClient(RefreshBody(r, pair)));
      client.PairArrived(r, pair);
    }
  }
}
