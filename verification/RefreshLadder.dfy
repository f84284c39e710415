/** What becomes of a response, in the terms of the wire: statuses, paths and error codes. */
module RefreshLadder {
  import opened Prelude
  import opened SessionCore
  import opened ApiCalls

  predicate CredentialRoute(path: string) {
    || "/auth/login" <= path
    || "/auth/refresh" <= path
    || "/auth/logout" <= path
    || "/auth/accept-invite" <= path
    || "/auth/invite/" <= path
  }

  predicate ChallengeCode(code: string) {
    || code == "TOTP_REQUIRED"
    || code == "INVALID_TOTP_CODE"
    || code == "TOTP_SETUP_REQUIRED"
    || code == "REAUTH_REQUIRED"
    || code == "INVITE_WRONG_ACCOUNT"
  }

  /** A 401 with this body is about the session: an upload's always, a request's unless its path or its code says otherwise. */
  predicate Answerable(kind: Kind, body: Option<Envelope>) {
    || kind.Upload?
    || (&& !CredentialRoute(kind.path)
        && (body.Some? && body.value.error.Some? ==> !ChallengeCode(body.value.error.value)))
  }

  lemma CredentialRouteIff(path: string)
    ensures IsCredentialPath(path) <==> CredentialRoute(path)
  {
    if CredentialRoute(path) {
      assert CREDENTIAL_PATHS[0] == "/auth/login" && CREDENTIAL_PATHS[1] == "/auth/refresh";
      assert CREDENTIAL_PATHS[2] == "/auth/logout" && CREDENTIAL_PATHS[3] == "/auth/accept-invite";
      assert CREDENTIAL_PATHS[4] == "/auth/invite/";
    }
  }

  lemma AnswerableIff(kind: Kind, body: Option<Envelope>)
    ensures MayRefresh(kind, body) <==> Answerable(kind, body)
  {
    if kind.Request? {
      CredentialRouteIff(kind.path);
    }
  }

  /** A call that has read a 401 in its own epoch and may still be sent once more. */
  predicate FirstRefusal(core: Core, cl: Client, i: nat) {
    i < |cl.calls| && cl.calls[i].stage == Reading(401) && cl.calls[i].epoch == core.epoch && cl.calls[i].retriesLeft > 0
  }

  /** What a first 401 leads to: another sending, the refresh, the end of the session, or the caller. */
  predicate Ladder(core: Core, c: Call, d: Call, body: Option<Envelope>, inFlight: Option<nat>) {
    var stale := core.access != c.tokenAtSend;
    && (d.stage.Fetching? <==> Answerable(c.kind, body) && stale)
    && (d.stage.AwaitingRefresh? <==> Answerable(c.kind, body) && !stale && core.refresh.Some?)
    && (d.stage.AwaitingImport? || d.stage.AwaitingCleanup? <==> c.kind.Upload? && !stale && core.refresh.None?)
    && (d.stage.Done? <==> c.kind.Request? && (!Answerable(c.kind, body) || (!stale && core.refresh.None?)))
    && (d.stage.Fetching? ==>
          d.sends == c.sends + 1 && d.retriesLeft == c.retriesLeft - 1 && d.tokenAtSend == core.access && d.epoch == c.epoch)
    && (d.stage.AwaitingRefresh? ==> inFlight == Some(d.stage.refresh))
    && (d.stage.Done? ==> d.stage.outcome == Refused(401))
    && d.kind == c.kind && d.origin == c.origin
  }

  lemma LadderIff(core: Core, cl: Client, i: nat, body: Option<Envelope>)
    requires FirstRefusal(core, cl, i)
    ensures var next := ClientStep(core, cl, BodyRead(i, body)).0;
            i < |next.calls| && Ladder(core, cl.calls[i], next.calls[i], body, next.inFlight)
  {
    AnswerableIff(cl.calls[i].kind, body);
  }

  /** A response reports success exactly if it is a 2xx without an error, a body missing only from a 204 or 205. */
  predicate Succeeds(status: nat, body: Option<Envelope>) {
    && 200 <= status <= 299
    && (body.None? ==> status == 204 || status == 205)
    && (body.Some? ==> body.value.error.None?)
  }

  /** Any response but a first 401 settles its call, as its status and body say. */
  lemma OtherResponsesSettle(core: Core, cl: Client, i: nat, body: Option<Envelope>)
    requires i < |cl.calls| && cl.calls[i].stage.Reading? && cl.calls[i].epoch == core.epoch
    requires cl.calls[i].stage.status != 401 || cl.calls[i].retriesLeft == 0
    ensures var status, next := cl.calls[i].stage.status, ClientStep(core, cl, BodyRead(i, body)).0;
            && i < |next.calls| && next.calls[i].stage.Done?
            && next.calls[i].stage.outcome == (if Succeeds(status, body) then Success else Refused(status))
            && next == cl.(calls := next.calls)
  {
  }

  /** A response or its failure, in the epoch the call was sent in and after it. */
  lemma ArrivalsAreFenced(core: Core, cl: Client, i: nat, status: nat)
    requires i < |cl.calls| && cl.calls[i].stage.Fetching?
    ensures var c := cl.calls[i];
            var answered, failed := ClientStep(core, cl, Responds(i, status)).0, ClientStep(core, cl, FetchFails(i)).0;
            && i < |answered.calls| && i < |failed.calls| && failed.calls[i].stage.Done?
            && failed.calls[i].stage.outcome == (if c.epoch == core.epoch then TransportFault else SessionChanged)
            && (c.epoch == core.epoch ==> answered.calls[i] == c.(stage := Reading(status)))
            && (c.epoch != core.epoch ==> answered.calls[i].stage.Done? && answered.calls[i].stage.outcome == SessionChanged)
  {
  }

  /**
   * A refresh succeeds only by way of an accepted answer, a pair over the token it was sent with, and that pair's
   * storing, each in its own epoch; anything else ends it, and only the pair's arrival touches the session.
   */
  lemma RefreshOutcome(core: Core, cl: Client, e: ClientEvent)
    requires e.RefreshFails? || e.RefreshResponds? || e.RefreshBody? || e.RefreshStored?
    requires ClientEnabled(cl, e)
    ensures var (next, effect) := ClientStep(core, cl, e);
            var me := cl.refreshes[e.refresh];
            var mine := me.epoch == core.epoch;
            var fits := e.RefreshBody? && e.pair.Some? && mine && core.refresh == Some(me.token);
            && next.refreshes == cl.refreshes[e.refresh := me.(stage :=
                 if e.RefreshResponds? && e.ok && mine then ReadingPair
                 else if fits then StoringPair
                 else Returned(e.RefreshStored? && mine))]
            && effect == (if fits then Install(e.pair.value.0, e.pair.value.1) else Nothing)
            && next.calls == cl.calls && next.inFlight == cl.inFlight && next.resets == cl.resets
  {
  }
}
