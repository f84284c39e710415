/**
 * Requests, uploads and the coalesced token refresh of the API client. Every
 * `await` is an interleaving point, so a call is a record with a stage, and
 * the code between two awaits is one step.
 */
module ApiCalls {
  import opened Prelude
  import opened SessionCore

  // ---------------------------------------------------------------------------
  // Responses
  // ---------------------------------------------------------------------------

  /** A parsed response envelope; `error` is the code of its error object, if it has one. */
  datatype Envelope = Envelope(error: Option<string>)

  datatype Outcome =
    | Success
    | Refused(status: nat)  // an ApiError built from the response
    | TransportFault        // network error or timeout
    | SessionChanged
    | SessionExpired

  const CREDENTIAL_PATHS := ["/auth/login", "/auth/refresh", "/auth/logout", "/auth/accept-invite", "/auth/invite/"]

  const NON_SESSION_401 :=
    {"TOTP_REQUIRED", "INVALID_TOTP_CODE", "TOTP_SETUP_REQUIRED", "REAUTH_REQUIRED", "INVITE_WRONG_ACCOUNT"}

  predicate IsCredentialPath(path: string) {
    exists i :: 0 <= i < |CREDENTIAL_PATHS| && CREDENTIAL_PATHS[i] <= path
  }

  function SettleResponse(status: nat, body: Option<Envelope>): Outcome {
    if !(200 <= status < 300) then Refused(status)
    else match body
      case None => if status == 204 || status == 205 then Success else Refused(status)
      case Some(envelope) => if envelope.error.Some? then Refused(status) else Success
  }

  datatype Kind = Request(path: string) | Upload

  /** Whether a 401 with this body may be answered by refreshing the session. */
  predicate MayRefresh(kind: Kind, body: Option<Envelope>) {
    match kind
    case Upload => true
    case Request(path) =>
      && !IsCredentialPath(path)
      && !(body.Some? && body.value.error.Some? && body.value.error.value in NON_SESSION_401)
  }

  // ---------------------------------------------------------------------------
  // State
  // ---------------------------------------------------------------------------

  datatype RefreshStage =
    | Posting               // the refresh request is in flight
    | ReadingPair           // its body is being read
    | StoringPair           // the new pair is installed, its persistence awaited
    | Returned(ok: bool)    // doRefresh is over, the settle callback has yet to run
    | Finished(ok: bool)

  datatype Refresh = Refresh(epoch: nat, token: Token, stage: RefreshStage)

  /** The session as it stood when a call ended. */
  datatype Ending = Ending(epoch: nat, generation: nat, signedIn: bool)

  datatype CallStage =
    | Fetching
    | Reading(status: nat)
    | AwaitingRefresh(refresh: nat)
    | AwaitingImport    // inside the guarded logout, before its second check
    | AwaitingCleanup   // the guarded logout has reset the session or declined to
    | Done(outcome: Outcome, end: Ending)

  datatype Call = Call(
    kind: Kind,
    origin: nat,  // the epoch the caller started in
    epoch: nat,
    tokenAtSend: Option<Token>,
    generationAtSend: nat,
    retriesLeft: nat,
    sends: nat,   // how often the payload has gone out
    stage: CallStage)

  datatype Cause = ByUser | ByCall(call: nat)

  /** A pair installed by a refresh: who did it, when, and over which refresh token. */
  datatype Rotation = Rotation(refresh: nat, epoch: nat, replaced: Option<Token>)

  datatype Client = Client(
    inFlight: Option<nat>,     // refreshInFlight
    refreshes: seq<Refresh>,
    calls: seq<Call>,
    resets: seq<Cause>,        // history: the reset that ended each generation
    rotations: seq<Rotation>)  // history

  datatype ClientEvent =
    | Start(kind: Kind)
    | FetchFails(call: nat)
    | Responds(call: nat, status: nat)
    | BodyRead(call: nat, body: Option<Envelope>)
    | RefreshAwaited(call: nat)
    | ImportLoaded(call: nat)
    | CleanupDone(call: nat)
    | RefreshFails(refresh: nat)
    | RefreshResponds(refresh: nat, ok: bool)
    | RefreshBody(refresh: nat, pair: Option<(Token, Token)>)
    | RefreshStored(refresh: nat)
    | RefreshSettles(refresh: nat)

  // ---------------------------------------------------------------------------
  // Calls
  // ---------------------------------------------------------------------------

  function NewCall(core: Core, kind: Kind): Call {
    Call(kind, core.epoch, core.epoch, core.access, core.generation, 1, 1, Fetching)
  }

  /** The recursive retry: the fields captured at send are captured afresh. */
  function Resend(core: Core, c: Call): Call
    requires c.retriesLeft > 0
  {
    c.(epoch := core.epoch, tokenAtSend := core.access, generationAtSend := core.generation,
       retriesLeft := c.retriesLeft - 1, sends := c.sends + 1, stage := Fetching)
  }

  function Finish(core: Core, c: Call, outcome: Outcome): Call {
    c.(stage := Done(outcome, Ending(core.epoch, core.generation, core.signedIn)))
  }

  function Update(cl: Client, i: nat, c: Call): Client
    requires i < |cl.calls|
  {
    cl.(calls := cl.calls[i := c])
  }

  /** The guarded logout up to its first await. */
  function EnterLogout(core: Core, c: Call): Call {
    c.(stage := if core.generation != c.generationAtSend then AwaitingCleanup else AwaitingImport)
  }

  /** tryRefresh: join the refresh in flight, or start one. */
  function JoinRefresh(core: Core, cl: Client): (Client, nat)
    requires core.refresh.Some?
  {
    match cl.inFlight
    case Some(id) => (cl, id)
    case None =>
      var id := |cl.refreshes|;
      (cl.(refreshes := cl.refreshes + [Refresh(core.epoch, core.refresh.value, Posting)], inFlight := Some(id)), id)
  }

  function OnBody(core: Core, cl: Client, i: nat, body: Option<Envelope>): Client
    requires i < |cl.calls| && cl.calls[i].stage.Reading?
  {
    var c := cl.calls[i];
    var status := c.stage.status;
    if c.epoch != core.epoch then Update(cl, i, Finish(core, c, SessionChanged))
    else if status == 401 && c.retriesLeft > 0 && MayRefresh(c.kind, body) then
      if core.access != c.tokenAtSend then Update(cl, i, Resend(core, c))
      else if core.refresh.Some? then
        var (joined, id) := JoinRefresh(core, cl);
        Update(joined, i, c.(stage := AwaitingRefresh(id)))
      else if c.kind.Upload? then Update(cl, i, EnterLogout(core, c))
      else Update(cl, i, Finish(core, c, SettleResponse(status, body)))
    else Update(cl, i, Finish(core, c, SettleResponse(status, body)))
  }

  function OnRefreshAwaited(core: Core, c: Call, ok: bool): Call
    requires c.retriesLeft > 0
  {
    if c.epoch != core.epoch then Finish(core, c, SessionChanged)
    else if ok then Resend(core, c)
    else EnterLogout(core, c)
  }

  /** The end of a guarded logout: the call reports an expiry only if the session it saw end is the last one. */
  function OnCleanup(core: Core, c: Call): Call {
    if (core.generation != c.generationAtSend + 1 || core.signedIn) && c.epoch != core.epoch
    then Finish(core, c, SessionChanged)
    else Finish(core, c, SessionExpired)
  }

  function OnReset(cl: Client, cause: Cause): Client {
    cl.(inFlight := None, resets := cl.resets + [cause])
  }

  // ---------------------------------------------------------------------------
  // Refreshes
  // ---------------------------------------------------------------------------

  function SetRefresh(cl: Client, r: nat, stage: RefreshStage): Client
    requires r < |cl.refreshes|
  {
    cl.(refreshes := cl.refreshes[r := cl.refreshes[r].(stage := stage)])
  }

  function OnPair(core: Core, cl: Client, r: nat, pair: Option<(Token, Token)>): (Client, Effect)
    requires r < |cl.refreshes|
  {
    var me := cl.refreshes[r];
    if me.epoch != core.epoch || pair.None? || core.refresh != Some(me.token)
    then (SetRefresh(cl, r, Returned(false)), Nothing)
    else
      (SetRefresh(cl, r, StoringPair).(rotations := cl.rotations + [Rotation(r, core.epoch, core.refresh)]),
       Install(pair.value.0, pair.value.1))
  }

  /** The settle callback clears `refreshInFlight` only while it still holds this very refresh. */
  function OnSettle(cl: Client, r: nat): Client
    requires r < |cl.refreshes| && cl.refreshes[r].stage.Returned?
  {
    var done := SetRefresh(cl, r, Finished(cl.refreshes[r].stage.ok));
    if cl.inFlight == Some(r) then done.(inFlight := None) else done
  }

  // ---------------------------------------------------------------------------
  // Steps
  // ---------------------------------------------------------------------------

  predicate RefreshAt(cl: Client, r: nat, stage: RefreshStage) {
    r < |cl.refreshes| && cl.refreshes[r].stage == stage
  }

  predicate ClientEnabled(cl: Client, e: ClientEvent) {
    match e
    case Start(_) => true
    case FetchFails(i) => i < |cl.calls| && cl.calls[i].stage.Fetching?
    case Responds(i, _) => i < |cl.calls| && cl.calls[i].stage.Fetching?
    case BodyRead(i, _) => i < |cl.calls| && cl.calls[i].stage.Reading?
    case RefreshAwaited(i) =>
      && i < |cl.calls| && cl.calls[i].stage.AwaitingRefresh? && cl.calls[i].retriesLeft > 0
      && var r := cl.calls[i].stage.refresh; r < |cl.refreshes| && cl.refreshes[r].stage.Finished?
    case ImportLoaded(i) => i < |cl.calls| && cl.calls[i].stage.AwaitingImport?
    case CleanupDone(i) => i < |cl.calls| && cl.calls[i].stage.AwaitingCleanup?
    case RefreshFails(r) => RefreshAt(cl, r, Posting)
    case RefreshResponds(r, _) => RefreshAt(cl, r, Posting)
    case RefreshBody(r, _) => RefreshAt(cl, r, ReadingPair)
    case RefreshStored(r) => RefreshAt(cl, r, StoringPair)
    case RefreshSettles(r) => r < |cl.refreshes| && cl.refreshes[r].stage.Returned?
  }

  function ClientStep(core: Core, cl: Client, e: ClientEvent): (Client, Effect)
    requires ClientEnabled(cl, e)
  {
    match e
    case Start(kind) => (cl.(calls := cl.calls + [NewCall(core, kind)]), Nothing)
    case FetchFails(i) =>
      var c := cl.calls[i];
      (Update(cl, i, Finish(core, c, if c.epoch != core.epoch then SessionChanged else TransportFault)), Nothing)
    case Responds(i, status) =>
      var c := cl.calls[i];
      (Update(cl, i, if c.epoch != core.epoch then Finish(core, c, SessionChanged) else c.(stage := Reading(status))),
       Nothing)
    case BodyRead(i, body) => (OnBody(core, cl, i, body), Nothing)
    case RefreshAwaited(i) =>
      var c := cl.calls[i];
      (Update(cl, i, OnRefreshAwaited(core, c, cl.refreshes[c.stage.refresh].stage.ok)), Nothing)
    case ImportLoaded(i) =>
      var c := cl.calls[i];
      var next := Update(cl, i, c.(stage := AwaitingCleanup));
      if core.generation != c.generationAtSend then (next, Nothing) else (OnReset(next, ByCall(i)), Reset)
    case CleanupDone(i) => (Update(cl, i, OnCleanup(core, cl.calls[i])), Nothing)
    case RefreshFails(r) => (SetRefresh(cl, r, Returned(false)), Nothing)
    case RefreshResponds(r, ok) =>
      (SetRefresh(cl, r, if cl.refreshes[r].epoch != core.epoch || !ok then Returned(false) else ReadingPair), Nothing)
    case RefreshBody(r, pair) => OnPair(core, cl, r, pair)
    case RefreshStored(r) => (SetRefresh(cl, r, Returned(cl.refreshes[r].epoch == core.epoch)), Nothing)
    case RefreshSettles(r) => (OnSettle(cl, r), Nothing)
  }

  // ---------------------------------------------------------------------------
  // The invariant
  // ---------------------------------------------------------------------------

  /** Any unfinished refresh of the current epoch is the one in flight; none of an earlier epoch is. */
  predicate SingleFlight(core: Core, cl: Client) {
    && (forall r :: 0 <= r < |cl.refreshes| ==> cl.refreshes[r].epoch <= core.epoch)
    && (cl.inFlight.Some? ==>
          && cl.inFlight.value < |cl.refreshes|
          && cl.refreshes[cl.inFlight.value].epoch == core.epoch
          && !cl.refreshes[cl.inFlight.value].stage.Finished?)
    && (forall r :: 0 <= r < |cl.refreshes| && cl.refreshes[r].epoch == core.epoch && !cl.refreshes[r].stage.Finished?
          ==> cl.inFlight == Some(r))
  }

  predicate Ended(c: Call, outcome: Outcome, end: Ending) {
    match outcome
    case SessionChanged => c.epoch < end.epoch
    case SessionExpired => end.generation == c.generationAtSend + 1 && !end.signedIn
    case _ => end.epoch == c.epoch
  }

  /** A call that authenticates its caller rather than a session. */
  predicate Credential(c: Call) {
    c.kind.Request? && IsCredentialPath(c.kind.path)
  }

  predicate CredentialStage(stage: CallStage) {
    stage.Fetching? || stage.Reading? || (stage.Done? && stage.outcome != SessionExpired)
  }

  predicate CallInv(core: Core, cl: Client, c: Call) {
    && c.origin == c.epoch == c.generationAtSend
    && c.epoch <= core.epoch
    && c.sends + c.retriesLeft == 2
    && (Credential(c) ==> c.sends == 1 && CredentialStage(c.stage))
    && match c.stage
       case AwaitingRefresh(r) => c.retriesLeft > 0 && r < |cl.refreshes| && cl.refreshes[r].epoch == c.epoch
       case AwaitingCleanup => c.generationAtSend < core.generation
       case Done(outcome, end) => end.epoch <= core.epoch && Ended(c, outcome, end)
       case _ => true
  }

  predicate CallsInv(core: Core, cl: Client) {
    forall i :: 0 <= i < |cl.calls| ==> CallInv(core, cl, cl.calls[i])
  }

  /** A call that has passed through the guarded logout. */
  predicate LeftByLogout(c: Call) {
    c.stage.AwaitingCleanup? || (c.stage.Done? && c.stage.outcome in {SessionChanged, SessionExpired})
  }

  /** Reset number g ended generation g; one made by a call was made by a call of that generation. */
  predicate ResetsInv(core: Core, cl: Client) {
    && |cl.resets| == core.generation
    && forall g :: 0 <= g < |cl.resets| && cl.resets[g].ByCall? ==>
         && cl.resets[g].call < |cl.calls|
         && cl.calls[cl.resets[g].call].generationAtSend == g
         && LeftByLogout(cl.calls[cl.resets[g].call])
         && !Credential(cl.calls[cl.resets[g].call])
  }

  predicate RotationsInv(cl: Client) {
    && (forall k :: 0 <= k < |cl.rotations| ==>
          var rot := cl.rotations[k];
          && rot.refresh < |cl.refreshes|
          && rot.epoch == cl.refreshes[rot.refresh].epoch
          && rot.replaced == Some(cl.refreshes[rot.refresh].token)
          && !cl.refreshes[rot.refresh].stage.Posting? && !cl.refreshes[rot.refresh].stage.ReadingPair?)
    && (forall j, k :: 0 <= j < k < |cl.rotations| ==> cl.rotations[j].refresh != cl.rotations[k].refresh)
  }

  predicate ClientInv(core: Core, cl: Client) {
    SingleFlight(core, cl) && CallsInv(core, cl) && ResetsInv(core, cl) && RotationsInv(cl)
  }

  // ---------------------------------------------------------------------------
  // Preservation
  // ---------------------------------------------------------------------------

  /** Replacing one call keeps the invariant when the new record does. */
  lemma UpdateKeepsInv(core: Core, cl: Client, i: nat, c: Call)
    requires i < |cl.calls| && ClientInv(core, cl) && CallInv(core, cl, c)
    requires c.generationAtSend == cl.calls[i].generationAtSend && c.kind == cl.calls[i].kind
    requires LeftByLogout(cl.calls[i]) ==> LeftByLogout(c)
    ensures ClientInv(core, Update(cl, i, c))
  {
  }

  lemma JoinKeepsInv(core: Core, cl: Client)
    requires core.refresh.Some? && ClientInv(core, cl)
    ensures var (joined, id) := JoinRefresh(core, cl);
            ClientInv(core, joined) && id < |joined.refreshes| && joined.refreshes[id].epoch == core.epoch &&
            joined.calls == cl.calls
  {
  }

  lemma BodyKeepsInv(core: Core, cl: Client, i: nat, body: Option<Envelope>)
    requires CoreInv(core) && ClientInv(core, cl) && i < |cl.calls| && cl.calls[i].stage.Reading?
    ensures ClientInv(core, OnBody(core, cl, i, body))
  {
    var c := cl.calls[i];
    assert CallInv(core, cl, c);
    if c.epoch != core.epoch {
      UpdateKeepsInv(core, cl, i, Finish(core, c, SessionChanged));
    } else if c.retriesLeft > 0 && !Credential(c) {
      UpdateKeepsInv(core, cl, i, Resend(core, c));
      UpdateKeepsInv(core, cl, i, EnterLogout(core, c));
      if core.refresh.Some? {
        JoinKeepsInv(core, cl);
        var (joined, id) := JoinRefresh(core, cl);
        UpdateKeepsInv(core, joined, i, c.(stage := AwaitingRefresh(id)));
      }
    }
    if c.epoch == core.epoch {
      UpdateKeepsInv(core, cl, i, Finish(core, c, SettleResponse(c.stage.status, body)));
    }
  }

  lemma SetRefreshKeepsInv(core: Core, cl: Client, r: nat, stage: RefreshStage)
    requires ClientInv(core, cl) && r < |cl.refreshes|
    requires !cl.refreshes[r].stage.Finished? && !stage.Finished? && !stage.Posting?
    requires cl.refreshes[r].stage.Posting? || !stage.ReadingPair?
    ensures ClientInv(core, SetRefresh(cl, r, stage))
  {
    var next := SetRefresh(cl, r, stage);
    forall i | 0 <= i < |next.calls| ensures CallInv(core, next, next.calls[i]) {
      assert CallInv(core, cl, cl.calls[i]);
    }
  }

  lemma SettleKeepsInv(core: Core, cl: Client, r: nat)
    requires ClientInv(core, cl) && r < |cl.refreshes| && cl.refreshes[r].stage.Returned?
    ensures ClientInv(core, OnSettle(cl, r))
  {
    var next := OnSettle(cl, r);
    forall i | 0 <= i < |next.calls| ensures CallInv(core, next, next.calls[i]) {
      assert CallInv(core, cl, cl.calls[i]);
    }
  }

  lemma PairKeepsInv(core: Core, cl: Client, r: nat, pair: Option<(Token, Token)>)
    requires ClientInv(core, cl) && RefreshAt(cl, r, ReadingPair)
    ensures ClientInv(core, OnPair(core, cl, r, pair).0)
  {
    SetRefreshKeepsInv(core, cl, r, Returned(false));
    SetRefreshKeepsInv(core, cl, r, StoringPair);
  }

  /** Session effects: an install changes no counter, a reset orphans every refresh and call of the old epoch. */
  lemma InstallKeepsClientInv(core: Core, cl: Client, a: Token, r: Token)
    requires ClientInv(core, cl)
    ensures ClientInv(ApplyToCore(core, Install(a, r)), cl)
  {
    var core' := ApplyToCore(core, Install(a, r));
    forall i | 0 <= i < |cl.calls| ensures CallInv(core', cl, cl.calls[i]) {
      assert CallInv(core, cl, cl.calls[i]);
    }
  }

  lemma ResetKeepsClientInv(core: Core, cl: Client, cause: Cause)
    requires CoreInv(core) && ClientInv(core, cl)
    requires cause.ByCall? ==>
      cause.call < |cl.calls| && cl.calls[cause.call].generationAtSend == core.generation &&
      LeftByLogout(cl.calls[cause.call]) && !Credential(cl.calls[cause.call])
    ensures ClientInv(ApplyToCore(core, Reset), OnReset(cl, cause))
  {
    var core', next := ApplyToCore(core, Reset), OnReset(cl, cause);
    forall i | 0 <= i < |next.calls| ensures CallInv(core', next, next.calls[i]) {
      assert CallInv(core, cl, cl.calls[i]);
    }
  }

  /** The reset made by a guarded logout: the second generation check is what keeps it to one per generation. */
  lemma ImportKeepsInv(core: Core, cl: Client, i: nat)
    requires CoreInv(core) && ClientInv(core, cl) && ClientEnabled(cl, ImportLoaded(i))
    ensures var (next, effect) := ClientStep(core, cl, ImportLoaded(i));
            ClientInv(ApplyToCore(core, effect), next)
  {
    var c := cl.calls[i];
    assert CallInv(core, cl, c);
    var moved := c.(stage := AwaitingCleanup);
    if core.generation != c.generationAtSend {
      UpdateKeepsInv(core, cl, i, moved);
    } else {
      var core' := ApplyToCore(core, Reset);
      ResetKeepsClientInv(core, cl, ByUser);
      var plain := OnReset(cl, ByUser);
      UpdateKeepsInv(core', plain, i, moved);
      var next := ClientStep(core, cl, ImportLoaded(i)).0;
      assert next == Update(plain, i, moved).(resets := cl.resets + [ByCall(i)]);
      forall k | 0 <= k < |next.calls| ensures CallInv(core', next, next.calls[k]) {
        assert CallInv(core', Update(plain, i, moved), next.calls[k]);
      }
    }
  }

  /** Steps that only move one call along. */
  lemma CallMoveKeepsInv(core: Core, cl: Client, e: ClientEvent)
    requires CoreInv(core) && ClientInv(core, cl) && ClientEnabled(cl, e)
    requires e.FetchFails? || e.Responds? || e.RefreshAwaited? || e.CleanupDone?
    ensures ClientStep(core, cl, e).1 == Nothing && ClientInv(core, ClientStep(core, cl, e).0)
  {
    var c := cl.calls[e.call];
    assert CallInv(core, cl, c);
    UpdateKeepsInv(core, cl, e.call, ClientStep(core, cl, e).0.calls[e.call]);
  }

  /** Steps that only move one refresh along. */
  lemma RefreshMoveKeepsInv(core: Core, cl: Client, e: ClientEvent)
    requires ClientInv(core, cl) && ClientEnabled(cl, e)
    requires e.RefreshFails? || e.RefreshResponds? || e.RefreshStored?
    ensures ClientStep(core, cl, e).1 == Nothing && ClientInv(core, ClientStep(core, cl, e).0)
  {
    SetRefreshKeepsInv(core, cl, e.refresh, ClientStep(core, cl, e).0.refreshes[e.refresh].stage);
  }

  lemma ClientStepKeepsInv(core: Core, cl: Client, e: ClientEvent)
    requires CoreInv(core) && ClientInv(core, cl) && ClientEnabled(cl, e)
    ensures var (next, effect) := ClientStep(core, cl, e);
            ClientInv(ApplyToCore(core, effect), next)
  {
    match e
    case Start(_) =>
      forall i | 0 <= i < |cl.calls| ensures CallInv(core, ClientStep(core, cl, e).0, cl.calls[i]) {
        assert CallInv(core, cl, cl.calls[i]);
      }
    case BodyRead(i, body) => BodyKeepsInv(core, cl, i, body);
    case ImportLoaded(i) => ImportKeepsInv(core, cl, i);
    case RefreshBody(r, pair) =>
      PairKeepsInv(core, cl, r, pair);
      var (next, effect) := OnPair(core, cl, r, pair);
      if effect.Install? {
        InstallKeepsClientInv(core, next, effect.access, effect.refresh);
      }
    case RefreshSettles(r) => SettleKeepsInv(core, cl, r);
    case RefreshFails(_) => RefreshMoveKeepsInv(core, cl, e);
    case RefreshResponds(_, _) => RefreshMoveKeepsInv(core, cl, e);
    case RefreshStored(_) => RefreshMoveKeepsInv(core, cl, e);
    case _ => CallMoveKeepsInv(core, cl, e);
  }
}
