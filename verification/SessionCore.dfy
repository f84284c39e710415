/**
 * The part of the account session that every other component reads: the API
 * client's epoch, the auth store's token pair and the two generation counters.
 */
module SessionCore {
  import opened Prelude

  /** A bearer or refresh token: an opaque, non-empty string. */
  type Token = string

  datatype Core = Core(
    epoch: nat,            // ApiClient.sessionEpoch
    generation: nat,       // authStore.sessionGeneration
    authGeneration: nat,   // authStore module variable authSessionGeneration
    access: Option<Token>,
    refresh: Option<Token>,
    signedIn: bool)

  /** What one atomic step does to the shared session. */
  datatype Effect =
    | Nothing
    | Install(access: Token, refresh: Token)  // setTokens up to its first await
    | Reset                                   // resetAccountSession up to its first await

  function ApplyToCore(core: Core, effect: Effect): Core {
    match effect
    case Nothing => core
    case Install(a, r) => core.(access := Some(a), refresh := Some(r), signedIn := true)
    case Reset =>
      Core(core.epoch + 1, core.generation + 1, core.authGeneration + 1, None, None, false)
  }

  /** The three counters only ever move together, and a session is signed in exactly when it has a token. */
  predicate CoreInv(core: Core) {
    && core.epoch == core.generation == core.authGeneration
    && (core.signedIn <==> core.access.Some?)
    && (core.refresh.Some? ==> core.access.Some?)
  }
}
