# Session, realtime, audit, reindex and projection: a verified model

A Dafny model of the five parts of SuperOps whose correctness depends on
interleavings, moving data or caps, with proofs over every input or every run.
`dafny verify dfyconfig.toml` checks all of it.

Asynchronous TypeScript is modelled as atomic steps: every `await` is an
interleaving point and the code between two awaits is one step. Goroutines are
steps over the shared channel. Each machine is a record with a step function, an
invariant kept by every step, and theorems about reachable states; beside it
stands a class whose fields and methods follow the source object, with that
invariant as its `Valid()`; each method is proved to take the step of the machine
and to keep it.

| part | machine and theorems | objects and loops |
|---|---|---|
| account session | `SessionCore`, `Persistence`, `ApiCalls`, `RefreshLadder`, `PushLifecycle`, `SessionProtocol`, `SessionProgress`, `PushRecords`, `PushRemovals`, `OwnDeletes` | `AccountSession` |
| realtime manager | `SocketLink`, `SocketSequence`, `Resync`, `RealtimeRuns` | `RealtimeManager` (WebSocketManager.dfy) |
| message window | `MessageWindow`, `MessageReactions`, `MessageReplies`, `MessagePages`, `MessageRuns`, `MessageRaces` | `MessageCache` (MessageStore.dfy) |
| Tier 2 audit buffer | `AuditBuffer` | `AuditService` |
| search rebuild | `KeysetWalk` | `Reindex` |
| document projection | `ProjectionTree`, `ProjectionPaths`, `ProjectionBody`, `ProjectionOutline`, `ProjectionRefs`, `ProjectionReading`, `Utf8Clamp`, `Utf8Encoding` | `ProjectionExtractor`, `Utf8Clamp.ClampBytes` |

## How to read the machines

- The session starts after hydration, with storage equal to memory; the app renders nothing else before (app/App.tsx:20).
- fetch, sockets, secure storage, device storage, the database and the search engine succeed or fail at will. A failed storage call sets a flag that the theorems about final contents require to be unset; the ordering theorems hold regardless.
- A socket's `send` may throw at any call: each step carries a budget of sends that succeed. `close()` takes effect on the ready state at once.
- A message log is a sequence of entries with increasing keys. A frame and the change it announces are one step. Pages, send responses and edit responses are asked for, read and applied in separate steps, and frames fall in between; the run theorem covers replies applied when they fit what the client has seen since, and a companion theorem says that any other reply breaks the agreement.
- The two-second cooldown between resyncs is by the clock the manager reads, which need not be monotonic: a start is refused unless the reading has advanced.
- Texts of the projection are sequences of UTF-16 code units; byte lengths are those of section 3 of RFC 3629, with a lone surrogate encoded as U+FFFD.
- Timestamps of rows are integers of microseconds, row ids 128-bit numbers in their byte order.

## Where the code does not do what it says

- `zeroCursor` is said to sort before every real row (backend/cmd/reindex/main.go:172). Rows created before 1970, or at that instant under the nil id, sort before it and are never visited: `KeysetWalk.PreEpochRowIsSkipped`, and the exact condition in `KeysetWalk.StableRowsAreVisitedIff`. The application itself stamps rows with the current time (backend/migrations/004_create_messages.up.sql:12, backend/cmd/worker/main.go:1434), so only an import, a restore or a manual write can put such a row there.
- Giving up the cursor is meant to prevent a spliced hole (app/src/stores/messageStore.ts:10-14). A page already in flight is prepended without looking at the cursor again (app/src/components/channel/ChannelView.tsx:178-179), so reaching the 500-message cap or a refetch meanwhile does splice one: `MessageRaces.CapWhilePagingSplicesAHole`, `MessageRaces.RefetchWhilePagingSplicesAHole`. Pages and send responses overtaken by a deletion bring the message back, and a first page overtaken by a new message loses it: `MessageRaces.DeletedRowsComeBack`, `MessageRaces.DeletedSendComesBack`, `MessageRaces.ArrivalsAreLost`. The exact condition for every reply is `MessageRuns.RepliesMustFit`.
- The comment on deregistration says shared device storage is changed only while the signed-out generation still owns the cleanup (app/src/lib/push.ts:241-243). The check precedes the call: a sign-in while `removeItem` is pending makes the key disappear under the newer session. It is never a key that session stored: `PushRemovals.RemovalLandsSignedInIff`, `SessionProtocol.RemovalsSpareNewerKeys`.
- A sign-out is meant to delete the registration it leaves behind (app/src/lib/push.ts:219-221). The cleanup gives up when it finds no key (app/src/lib/push.ts:256), and if the dynamic imports of two cleanups resolve in reverse, the later session's cleanup has removed the key by then: `PushRemovals.ReversedImportsLoseADelete`, exact condition in `OwnDeletes.OwnDeleteIff`.
- Reference keys join type, target and block with colons (app/src/editor/projection.ts:92), so different references can share one: `ProjectionRefs.AColonDropsAReference`, condition in `ProjectionRefs.SharedKeyIff`.
- The header of the extractor says an embed's label never reaches the body (app/src/editor/projection.ts:10-17), and it does not. The outline has no such guard, because `plainText` walks through embeds: `ProjectionOutline.AnEmbedLabelReachesTheOutline`, condition in `ProjectionOutline.OutlineHidesEmbedsIff`.

## Model

| member | source | states |
|---|---|---|
| `SessionProtocol.StorageAgreesWithMemory` | app/src/stores/authStore.ts:15-41 | In every reachable state with an empty persistence queue and no failed storage call, secure storage holds exactly the pair in memory |
| `SessionProtocol.EndedSessionsStayErased` | app/src/stores/authStore.ts:118-135 | No write of a session takes effect after an erasure of that session or a later one, whatever fails |
| `SessionProgress.StorageCatchesUp` | app/src/stores/authStore.ts:18-22 | From every state the invariant allows, successful storage calls empty the queue and leave storage equal to memory |
| `Persistence.PersistStepKeepsInv` | app/src/stores/authStore.ts:118-126 | Each storage call, successful or not, keeps the queue ordered by session and storage converging on memory |
| `Persistence.StorageNeverStalls` | app/src/stores/authStore.ts:18-22 | Whatever each storage call comes to, less is left to do, and while anything is left a step is possible: the queue always runs dry |
| `Persistence.StorageCallOutcome` | app/src/stores/authStore.ts:34-39 | What each settled storage call leaves: a failed write ends its job, a failed delete does not, and each write or delete reaches its own entry alone |
| `Persistence.EffectKeepsPersistInv` | app/src/stores/authStore.ts:24-33 | A sign-in, rotation or sign-out that falls between any two storage calls keeps the same invariant |
| `SessionProtocol.NextKeepsInv` | app/src/lib/accountSession.ts:20-48 | Every step of the combined protocol keeps the invariant of all four components |
| `SessionProtocol.RunKeepsInv` | app/src/api/client.ts:128-339 | The invariant holds after every run |
| `SessionProtocol.OneRefreshPerEpoch` | app/src/api/client.ts:237-254 | Two unfinished refreshes of the current epoch are the same one, and it is the one in refreshInFlight |
| `SessionProtocol.InFlightIsCurrent` | app/src/api/client.ts:138-144 | refreshInFlight never holds a refresh that is over or of an earlier epoch |
| `SessionProtocol.CallsAreFenced` | app/src/api/client.ts:177-234 | A call sends its payload at most twice; it settles only in the epoch it started in, ends in SESSION_CHANGED only after that epoch, and in SESSION_EXPIRED only when exactly one reset has happened since it was sent and nobody is signed in |
| `SessionProtocol.RotationsStayInTheirSession` | app/src/api/client.ts:256-281 | A refresh installs a pair at most once, in its own epoch, and only over the refresh token it was sent with |
| `SessionProtocol.OneResetPerGeneration` | app/src/stores/authStore.ts:150-155 | However many calls fail to refresh, their guarded logouts reset one generation at most once |
| `SessionProtocol.LogoutEndsTheCall` | app/src/api/client.ts:215-227 | A request or upload that has entered the guarded logout ends in SESSION_EXPIRED or SESSION_CHANGED and nothing else |
| `SessionProtocol.CredentialErrorsReachTheCaller` | app/src/api/client.ts:15-31 | A call whose path begins with one of the five credential routes is sent once, never reports an expiry and never resets the account |
| `SessionProgress.ChallengesReachTheCaller` | app/src/api/client.ts:17-27 | In every run after a 401 with one of the five challenge codes, the call has ended with that 401, was sent no more often, and never caused a reset |
| `SessionProgress.SuccessfulRefreshResends` | app/src/api/client.ts:201-213 | A first 401 to an upload, or to a request outside the five credential routes and the five challenge codes, followed by a successful refresh: the new pair is installed and queued, refreshInFlight is free and the payload is sent once more under the new bearer |
| `SessionProgress.FailedRefreshSignsOut` | app/src/api/client.ts:214-227 | The same 401 followed by a refresh that fails (network, refusal or unreadable body) ends in SESSION_EXPIRED with one reset, one erasure and one push cleanup owed |
| `SessionProgress.AnsweredCallsSettle` | app/src/api/client.ts:110-126 | A call answered by anything but a 401 is over at once: a success for a 2xx without an error, its body missing only from a 204 or 205, and that status otherwise |
| `RefreshLadder.AnswerableIff` | app/src/api/client.ts:15-31 | A refresh may answer a 401 if and only if the call is an upload, or its path begins with none of the five credential routes and its code, if any, is none of the five challenge codes |
| `RefreshLadder.LadderIff` | app/src/api/client.ts:198-233 | A first 401 in its epoch is sent again if and only if answerable and the bearer has changed, waits for the refresh if and only if answerable under the same bearer with a refresh token there, starts the guarded logout if and only if an upload has neither, and reaches the caller otherwise |
| `RefreshLadder.OtherResponsesSettle` | app/src/api/client.ts:110-126 | Every other response settles its call: success or that status, and nothing else changes |
| `RefreshLadder.ArrivalsAreFenced` | app/src/api/client.ts:159-196 | In its epoch a response is read and a rejected fetch is a transport failure; after it both end in SESSION_CHANGED |
| `RefreshLadder.RefreshOutcome` | app/src/api/client.ts:256-281 | A refresh succeeds only by way of an accepted answer, a pair over the token it was sent with and that pair's storing, each in its own epoch; anything else ends it, and only the pair's arrival touches the session |
| `ApiCalls.ClientStepKeepsInv` | app/src/api/client.ts:128-281 | Every step of a request, upload or refresh keeps the single-flight, fencing, reset and rotation invariants |
| `ApiCalls.ResetKeepsClientInv` | app/src/api/client.ts:140-144 | A reset orphans every call and refresh of the old epoch and keeps the client invariant |
| `ApiCalls.ImportKeepsInv` | app/src/stores/authStore.ts:150-154 | The guarded logout checks the generation again after its dynamic import and resets only the generation it was sent in |
| `SessionProtocol.PostsAreCurrent` | app/src/lib/push.ts:216-230 | A registration POST goes out only while its originating session is signed in and with that session's key stored |
| `SessionProtocol.PostsAreCleanedUp` | app/src/lib/push.ts:245-258 | Without storage failures and with the cleanups' imports resolving in order, each POST is followed by a DELETE of its own session once that session's cleanup has begun, and until then the key is still stored |
| `SessionProtocol.PostsAreCleanedUpOrTaken` | app/src/lib/push.ts:245-258 | With imports resolving in any order: until its cleanup begins, a registration's key is missing if and only if a later session's cleanup took it and nobody stored it since; after it, a missing DELETE takes imports out of order and such a removal |
| `OwnDeletes.OwnDeleteIff` | app/src/lib/push.ts:249-258 | From the moment a session's cleanup begins, in every run, each of its POSTs is followed by a DELETE of its own if and only if the cleanup's read of the key succeeds and finds it |
| `OwnDeletes.OwnDeletesOverRuns` | app/src/lib/push.ts:249-258 | The same over whole runs: the event that began the cleanup exists and decides |
| `PushRecords.KeyIsMissingIff` | app/src/lib/push.ts:256 | Before a session's cleanup begins, its key is missing if and only if a later session's cleanup took it and nobody has stored it since |
| `PushRecords.PushStepKeepsRecord` | app/src/lib/push.ts:216-280 | Every step keeps one waiting cleanup per ended session, the key as the record tells it, and every removal from a session no earlier than the registrations before it |
| `PushRemovals.ReversedImportsLoseADelete` | app/src/lib/accountSession.ts:40-42 | A run from sign-in in which two imports resolve in reverse: no storage call fails, both cleanups run, and the first session's POST gets no DELETE of its own |
| `SessionProtocol.RemovalsAreIssuedSignedOut` | app/src/lib/push.ts:263-274 | A removal of the key is issued only while signed out by the reset that owes the cleanup |
| `SessionProtocol.RemovalsSpareNewerKeys` | app/src/lib/push.ts:271-275 | Whoever is signed in when a removal lands, the key it removes was stored by the ended session or an earlier one |
| `PushRemovals.RemovalLandsSignedInIff` | app/src/lib/push.ts:273-278 | A pending removal lands under a newer signed-in session if and only if somebody has signed in since it was issued and not out again |
| `PushRemovals.RemovalLandsUnderANewerSession` | app/src/lib/push.ts:273-278 | The run in which it does |
| `SessionProtocol.EverySignOutIsOwedACleanup` | app/src/lib/accountSession.ts:40-42 | Every ended session's cleanup has begun or is still owed |
| `SessionProgress.RegistrationIsPosted` | app/src/lib/push.ts:174-235 | With an idle queue and successful calls, a signed-in session that asks for push is posted with its key stored |
| `SessionProgress.SignOutCleansUp` | app/src/lib/push.ts:245-281 | With an idle queue and successful calls, signing out deletes the registration and removes the key |
| `PushLifecycle.PushStepKeepsInv` | app/src/lib/push.ts:41-47 | Every step of the push queue keeps every ended session's cleanup begun or owed, and every POST covered by the key, deleted again, or, out of order, taken over by a later cleanup |
| `PushLifecycle.EffectKeepsPushInv` | app/src/lib/accountSession.ts:20-42 | A sign-in, rotation or sign-out at any point keeps the push invariant; a reset adds one debt |
| `PushLifecycle.RegistrationGoesOnIff` | app/src/lib/push.ts:216-235 | Each await of a registration: it goes on to the key, and then to the POST, if and only if its session is still signed in and the key was stored; the log and the key change with the successful store alone |
| `PushLifecycle.CleanupGoesOnIff` | app/src/lib/push.ts:245-281 | Each await of a cleanup: it deletes if and only if it read a key, and looks again, removes and clears the badge if and only if its own sign-out is still the last word |
| `AccountSession.AuthStore.constructor` | app/src/stores/authStore.ts:105-112 | The store after hydration: valid, no counter moved, storage equal to memory |
| `AccountSession.AuthStore.SetTokens` | app/src/stores/authStore.ts:118-126 | setTokens up to its first await installs the pair and queues its write under the current generation |
| `AccountSession.AuthStore.ClearLocalAuthSession` | app/src/stores/authStore.ts:24-33 | The session is forgotten at once and its erasure queued |
| `AccountSession.AuthStore.BeginJob` | app/src/stores/authStore.ts:122-124 | The head job starts or is skipped; the store stays valid, and an empty queue without failures means storage equals memory |
| `AccountSession.AuthStore.WriteReturned` | app/src/stores/authStore.ts:124-125 | Access first, then refresh, a failure ends the job; the store stays valid, and an empty queue without failures means storage equals memory |
| `AccountSession.AuthStore.EraseReturned` | app/src/stores/authStore.ts:34-39 | Deletes settle in either order, a failure swallowed; the store stays valid, and an empty queue without failures means storage equals memory |
| `AccountSession.ApiClient.ResetSession` | app/src/api/client.ts:140-144 | Epoch and generation move together and refreshInFlight is dropped |
| `AccountSession.ApiClient.StartCall` | app/src/api/client.ts:178-195 | A request or upload captures epoch, bearer and generation and is sent |
| `AccountSession.ApiClient.FetchFailed` | app/src/api/client.ts:159-164 | A rejected fetch settles its call: a transport failure in the epoch it was sent in, SESSION_CHANGED after it |
| `AccountSession.ApiClient.ResponseArrived` | app/src/api/client.ts:196 | A response is read in the epoch it was sent in and settles its call in SESSION_CHANGED after it |
| `AccountSession.ApiClient.BodyArrived` | app/src/api/client.ts:198-233 | A first 401 goes up the ladder by literal routes and codes, and every other response settles the call as its status and body say; the client stays valid: one refresh per epoch, every call fenced |
| `AccountSession.ApiClient.TryRefresh` | app/src/api/client.ts:237-254 | The refresh a caller gets is the only unfinished one of the epoch |
| `AccountSession.ApiClient.RefreshResolved` | app/src/api/client.ts:305-319 | After its refresh a call is sent again, logs out or is fenced off |
| `AccountSession.ApiClient.BeginLogout` | app/src/stores/authStore.ts:150-152 | The guarded logout up to its first await |
| `AccountSession.ApiClient.LogoutReturned` | app/src/api/client.ts:220-227 | After the guarded logout a call reports an expiry exactly when one reset has happened since it was sent and nobody is signed in, and a changed session otherwise |
| `AccountSession.ApiClient.RefreshResponseArrived` | app/src/api/client.ts:257-268 | The refresh response is fenced and a refusal ends the refresh |
| `AccountSession.ApiClient.PairArrived` | app/src/api/client.ts:269-274 | A pair is installed only in the refresh's epoch and over the token it was sent with; memory and persistence queue follow |
| `AccountSession.ApiClient.PairStored` | app/src/api/client.ts:275-276 | The refresh reports success only in its own epoch |
| `AccountSession.ApiClient.RefreshSettled` | app/src/api/client.ts:242-251 | refreshInFlight is cleared only while it still holds this refresh |
| `AccountSession.PushQueue.Ask` | app/src/lib/push.ts:179-186 | A registration remembers the generation and bearer it came from |
| `AccountSession.PushQueue.TokenObtained` | app/src/lib/push.ts:216 | A registration joins the FIFO queue once the device token is there |
| `AccountSession.PushQueue.AskDropped` | app/src/lib/push.ts:187-214 | A denied or unavailable registration leaves no trace |
| `AccountSession.PushQueue.ImportResolved` | app/src/lib/accountSession.ts:40 | Whichever pending import resolves, its cleanup is queued and the queue stays valid |
| `AccountSession.PushQueue.AdvanceHead` | app/src/lib/push.ts:41-47 | The head job advances, the queue stays valid, and a key that goes was stored by the ended session or an earlier one |
| `AccountSession.PushQueue.AdvanceRegistration` | app/src/lib/push.ts:216-234 | Each await of a registration takes the protocol step |
| `AccountSession.PushQueue.AdvanceCleanup` | app/src/lib/push.ts:249-280 | Each await of a cleanup takes the protocol step |
| `AccountSession.Session.Parts` | app/src/lib/accountSession.ts:20-48 | The account is valid exactly when store, client and push queue are |
| `AccountSession.Session.SignIn` | app/src/stores/authStore.ts:118-126 | Signing in is one protocol step and keeps the account valid |
| `AccountSession.Session.ResetAccountSession` | app/src/lib/accountSession.ts:20-42 | The synchronous teardown is one protocol step on memory, persistence, client and push together |
| `AccountSession.Session.SignOut` | app/src/stores/authStore.ts:150-155 | An unguarded logout resets whatever session is there and keeps the account valid |
| `AccountSession.Session.ImportLoaded` | app/src/stores/authStore.ts:152-154 | The guarded logout resets only if its generation is still the current one; afterwards that generation is over and the account valid |
| `AccountSession.Session.PairArrived` | app/src/api/client.ts:269-274 | A rotation reaches memory, persistence queue and client in one step and keeps the account valid |
| `SocketLink.OpenSocketMirrorsDesire` | app/src/lib/websocket.ts:165-189 | In every reachable state with an open current socket, replaying its commands and revocations gives exactly desiredChannels and desiredRooms |
| `SocketLink.LinkStepKeepsInv` | app/src/lib/websocket.ts:147-299 | Every call, socket callback and timer keeps the socket, timer and membership invariants |
| `SocketLink.StaleSocketsAreInert` | app/src/lib/websocket.ts:165-226 | Every socket but the current one is closing or closed, and its events change nothing but its own ready state |
| `SocketLink.PendingTimerMeansUnintentional` | app/src/lib/websocket.ts:289-299 | A pending reconnect timer is the only one, of the current generation, after a close nobody asked for, with a delay between 1 s and 30 s |
| `SocketLink.NoZombieSockets` | app/src/lib/websocket.ts:236-287 | After disconnect() or reset(), no run opens a socket until connect() is called |
| `SocketLink.LostConnectionComesBack` | app/src/lib/websocket.ts:204-216 | When the current socket closes by itself with a token present, the timer brings up a new socket whose peer is told everything still desired |
| `RealtimeRuns.RemembersConnectionIff` | app/src/lib/websocket.ts:183-188 | In every run of the manager, everConnected is set if and only if some opening of a current socket has had no disconnect() or reset() after it |
| `RealtimeRuns.ReconnectionsResyncIff` | app/src/lib/websocket.ts:183-188 | In every run, an opening starts a resync if and only if an earlier opening still stands, none is in flight and the last is 2000 ms old; otherwise the resync state stays |
| `RealtimeRuns.LostConnectionsComeBackAndResync` | app/src/lib/websocket.ts:183-216 | A connection that had been open and closes by itself with a token comes back: a new socket, told everything desired, and a resync started for what was missed |
| `RealtimeRuns.DelayAfter` | app/src/lib/websocket.ts:289-299 | The reconnect delay doubles with every attempt up to 30 s and starts over at 1 s with every opening and teardown |
| `SocketLink.CloseOutcome` | app/src/lib/websocket.ts:204-216 | A close nobody asked for leaves a timer of the current delay if and only if there is a token; another socket's close changes its own ready state alone |
| `SocketLink.ErrOutcome` | app/src/lib/websocket.ts:218-226 | An error on the current socket closes it and changes nothing else |
| `SocketLink.EnlistOutcome` | app/src/lib/websocket.ts:434-438 | A desire already there changes nothing; a new one is appended and, if a send is possible, told once |
| `SocketLink.DelistOutcome` | app/src/lib/websocket.ts:440-444 | A desire not there changes nothing; one that is there goes and, if a send is possible, is withdrawn once |
| `SocketLink.SubscriptionsAreDesired` | app/src/lib/websocket.ts:452-458 | Whether or not anything can be sent, the given channels are exactly the desired ones afterwards |
| `SocketLink.OnlyTheDifferenceIsSent` | app/src/lib/websocket.ts:452-458 | setSubscriptions sends one unsubscribe per dropped and one subscribe per added channel, nothing else, and leaves the given set desired |
| `SocketLink.WithdrawKeepsInv` | app/src/lib/websocket.ts:576-588 | A revocation drops the desire and keeps replay and desire equal |
| `SocketSequence.LastSeqIsTheMaximum` | app/src/lib/websocket.ts:344-358 | lastSeq is the largest positive number received on the connection, zero if none |
| `SocketSequence.EveryNumberIsAccountedFor` | app/src/lib/websocket.ts:346-357 | Every number from the first received to lastSeq was received or lies strictly inside an announced gap |
| `SocketSequence.GapsAreRealAndAnnounced` | app/src/lib/websocket.ts:346-353 | Every announced gap is a jump of more than one, over numbers not received before it, told to every room desired at that moment |
| `Resync.ResyncsNeverOverlap` | app/src/lib/websocket.ts:361-366 | Two resyncs of one generation never run together and start at least 2000 ms apart |
| `Resync.FlagTellsTheTruth` | app/src/lib/websocket.ts:364-407 | resyncInFlight is set exactly while a resync of the current generation runs |
| `Resync.StaleResyncsDoNothing` | app/src/lib/websocket.ts:373-411 | Every store write, flag clearing and notification happens in the generation of the resync that does it |
| `Resync.SyncStepKeepsInv` | app/src/lib/websocket.ts:361-412 | Every reply and every reset keeps the resync invariant |
| `Resync.RequestedResyncFinishes` | app/src/lib/websocket.ts:361-412 | Outside the cooldown a requested resync, whichever of its replies are answers and whichever failures, writes once per answer, clears the flag and notifies once |
| `Resync.ResetAllowsAResync` | app/src/lib/websocket.ts:275-276 | After a reset the next request starts a resync of the new generation, whatever was in flight and however recent |
| `RealtimeManager.WebSocketManager.constructor` | app/src/lib/websocket.ts:103-141 | A new manager has no socket, timer, desire or resync |
| `RealtimeManager.WebSocketManager.Connect` | app/src/lib/websocket.ts:147-163 | connect() leaves every socket but the current one closing or closed and, with a token, a current one in use; the manager stays valid |
| `RealtimeManager.WebSocketManager.Disconnect` | app/src/lib/websocket.ts:236-265 | disconnect() leaves no socket, timer or desire, restarts numbering and keeps the manager valid |
| `RealtimeManager.WebSocketManager.Reset` | app/src/lib/websocket.ts:268-287 | reset() begins a generation without a resync, leaves no socket, timer or desire and keeps the manager valid |
| `RealtimeManager.WebSocketManager.SocketOpened` | app/src/lib/websocket.ts:165-189 | After onopen a socket that is still open has told its peer exactly what is desired, the delay and numbering start over, and link and resync together take the step of the run theorems, so that a reconnection resyncs |
| `RealtimeManager.WebSocketManager.Announce` | app/src/lib/websocket.ts:174-182 | The loop sends one command per desired id in order |
| `RealtimeManager.WebSocketManager.SendCommand` | app/src/lib/websocket.ts:418-432 | send reaches an open socket only; a throwing send closes it |
| `RealtimeManager.WebSocketManager.SocketErred` | app/src/lib/websocket.ts:218-226 | onerror closes the current socket |
| `RealtimeManager.WebSocketManager.SocketClosed` | app/src/lib/websocket.ts:204-216 | After onclose of the current socket a reconnect is pending with a token and none is new without; any other socket's close is its own affair |
| `RealtimeManager.WebSocketManager.TimerFired` | app/src/lib/websocket.ts:293-298 | The timer doubles the delay up to 30 s and, with a token, leaves a socket in use |
| `RealtimeManager.WebSocketManager.Subscribe` | app/src/lib/websocket.ts:434-438 | subscribe and joinRoom add a desire, send it once and keep peer and desire equal |
| `RealtimeManager.WebSocketManager.Unsubscribe` | app/src/lib/websocket.ts:440-444 | unsubscribe and leaveRoom drop a desire, send it once and keep peer and desire equal |
| `RealtimeManager.WebSocketManager.SetSubscriptions` | app/src/lib/websocket.ts:452-458 | The two loops of setSubscriptions send the difference and keep peer and desire equal |
| `RealtimeManager.WebSocketManager.MembershipWithdrawn` | app/src/lib/websocket.ts:576-588 | A revocation drops the desire, a channel's also requests a resync, and peer and desire stay equal |
| `RealtimeManager.WebSocketManager.FrameArrived` | app/src/lib/websocket.ts:200 | Each heeded frame is tracked, lastSeq stays above every number received, and a jump requests a resync |
| `RealtimeManager.WebSocketManager.TrackNumber` | app/src/lib/websocket.ts:344-358 | The tracking state stays the one the connection's frames lead to |
| `RealtimeManager.WebSocketManager.RequestResync` | app/src/lib/websocket.ts:361-366 | resync up to its first await |
| `RealtimeManager.WebSocketManager.ReplyArrived` | app/src/lib/websocket.ts:370-411 | Any reply keeps the manager valid; one to a resync of an earlier generation writes nothing and clears no flag |
| `RealtimeManager.WebSocketManager.ChannelListArrived` | app/src/lib/websocket.ts:372-378 | The channel list is written only in the resync's generation |
| `RealtimeManager.WebSocketManager.MessagePageArrived` | app/src/lib/websocket.ts:385-393 | Each message page is written only in the resync's generation |
| `RealtimeManager.WebSocketManager.MessagesLoaded` | app/src/lib/websocket.ts:396 | A stale resync stops after its pages |
| `RealtimeManager.WebSocketManager.UnreadCountArrived` | app/src/lib/websocket.ts:398-411 | The last reply clears the flag and notifies only in its own generation |
| `MessageRuns.WindowsMirrorTheLog` | app/src/stores/messageStore.ts:6-16 | In every run from an empty store, with pages and responses in flight and applied when they fit, each loaded list is a contiguous suffix of its log, a non-empty cursor is its left edge, and hasMore = false means all of it |
| `MessageRuns.RepliesMustFit` | app/src/components/channel/ChannelView.tsx:92-95 | In every such run, applying a pending page, send response or edit response agrees with the log if and only if it fits what the client has seen since |
| `MessageRuns.ReplyAgreesIff` | app/src/lib/websocket.ts:385-389 | The same from any state the invariant allows |
| `MessageRuns.FurtherPageUnderItsCursor` | app/src/components/channel/ChannelView.tsx:166-179 | While the stored cursor is the one a further page was asked with, it fits if and only if the frames since have left its rows alone |
| `MessageReplies.PageStaysGoodIff` | app/src/lib/websocket.ts:612-641 | A frame leaves a first page good if and only if it brings no message and changes or deletes no row of it; a further page if and only if it changes or deletes no row |
| `MessagePages.FirstPageIff` | app/src/stores/messageStore.ts:50-55 | A first page read earlier agrees if and only if the frames since have changed nothing in it |
| `MessagePages.OlderPageIff` | app/src/stores/messageStore.ts:57-63 | A further page read earlier agrees if and only if the frames since have changed nothing in it and the window still starts where it was asked for |
| `MessagePages.UnshownResponseIff` | app/src/stores/messageStore.ts:65-80 | addMessage of a server message that is not shown agrees if and only if it is still the newest, no other server message stays shown, and nothing is claimed about what is older |
| `MessagePages.OverwriteIff` | app/src/stores/messageStore.ts:67-69 | addMessage of a server message that is shown agrees if and only if it is the version shown |
| `MessagePages.EditResponseIff` | app/src/stores/messageStore.ts:85-90 | updateMessage with a late response agrees if and only if the message is not loaded or shown in that version |
| `MessagePages.FrameKeepsInFlight` | app/src/lib/websocket.ts:612-641 | Frames applied to a copy of a page in flight keep it equal to the stretch of the log it covers |
| `MessageRuns.WorldStep` | app/src/stores/messageStore.ts:45-140 | Every frame, request, answer, delivery, local message, trim and clear keeps the agreement of every channel and the record of everything in flight |
| `MessageRuns.OtherChannelsAreUntouched` | app/src/stores/messageStore.ts:50-137 | An action on one channel changes no other channel's list, cursor, flag or log |
| `MessageRuns.ReactingIsEditing` | app/src/stores/messageStore.ts:99-112 | A reaction is an edit of the log's own message |
| `MessageReactions.ReactionOutcome` | app/src/stores/messageStore.ts:99-112 | The first loaded message of that id holds the reaction exactly once, last, if it was added, and not at all if removed; its other reactions keep count and order, and its contents, every other message, channel, cursor and flag stay |
| `MessageReactions.ReactionsOnlyReact` | app/src/stores/messageStore.ts:99-112 | The same for every frame and store, an unknown message included, which changes nothing |
| `MessageRaces.NewMessagesAreShown` | app/src/stores/messageStore.ts:65-80 | A new message becomes the last of the list; past 500 the oldest are dropped and the cursor given up, and only then |
| `MessageRaces.PageGrowsTheWindow` | app/src/components/channel/ChannelView.tsx:166-179 | One page back makes the window longer by the page, up to the whole log |
| `MessageRaces.PagingLoadsEverything` | app/src/components/channel/ChannelView.tsx:166-179 | Repeated paging with the stored cursor ends with the whole log loaded |
| `MessageRaces.DeletedRowsComeBack` | app/src/components/channel/ChannelView.tsx:92-95 | A row deleted while its page is in flight is shown again |
| `MessageRaces.ArrivalsAreLost` | app/src/components/channel/ChannelView.tsx:92-95 | A message that arrives while a first page is in flight is lost |
| `MessageRaces.DeletedSendComesBack` | app/src/components/channel/ChannelView.tsx:195-204 | A send response applied after its message was deleted breaks the agreement |
| `MessageRaces.CapWhilePagingSplicesAHole` | app/src/stores/messageStore.ts:71-79 | A window at its cap of 500 that receives a message while a further page is in flight gets a hole |
| `MessageRaces.RefetchWhilePagingSplicesAHole` | app/src/lib/websocket.ts:385-389 | A refetch that does not reach back exactly as far as the window did leaves a hole under a further page in flight |
| `MessageRaces.AHoleInSmall` | app/src/components/channel/ChannelView.tsx:178-179 | The four-message instance: M2 and M4 shown side by side without M3 |
| `MessageWindow.FirstPageAgrees` | app/src/stores/messageStore.ts:50-55 | setMessages with a current first page establishes the agreement whatever was there |
| `MessageWindow.OlderPageAgrees` | app/src/stores/messageStore.ts:57-63 | prependMessages with the page at the stored cursor keeps it |
| `MessageWindow.NewMessageAgrees` | app/src/stores/messageStore.ts:65-80 | addMessage of a new log entry keeps it, with or without the cap |
| `MessageWindow.LocalMessageAgrees` | app/src/stores/messageStore.ts:65-80 | addMessage of an optimistic message keeps it |
| `MessageWindow.EchoAgrees` | app/src/stores/messageStore.ts:67-69 | Adding a message that is already there changes nothing |
| `MessageWindow.EditAgrees` | app/src/stores/messageStore.ts:85-90 | An edit inside the window replaces, one outside is ignored, and both keep the agreement |
| `MessageWindow.DeletionAgrees` | app/src/stores/messageStore.ts:92-97 | Deleting from log and store keeps the agreement, also at the cursor's own row |
| `MessageWindow.TrimAgrees` | app/src/stores/messageStore.ts:128-137 | Trimming keeps the agreement by giving up the cursor |
| `MessageWindow.ClearAgrees` | app/src/stores/messageStore.ts:117-126 | Clearing drops messages, cursor and flag together |
| `MessageCache.MessageStore.SetMessages` | app/src/stores/messageStore.ts:50-55 | The page reversed, with its cursor and flag; a page just read makes the store mirror the log |
| `MessageCache.MessageStore.PrependMessages` | app/src/stores/messageStore.ts:58-63 | The reversed page goes in front; the page at the stored cursor, just read, keeps the store mirroring the log |
| `MessageCache.MessageStore.AddMessage` | app/src/stores/messageStore.ts:65-80 | Replace in place, append, or append and cut to 500; a new message keeps the store mirroring the log |
| `MessageCache.MessageStore.UpdateMessage` | app/src/stores/messageStore.ts:85-90 | Replace only; an edit keeps the store mirroring the log |
| `MessageCache.MessageStore.RemoveMessage` | app/src/stores/messageStore.ts:92-97 | Every message of that id goes, nothing changes if there is none, and a deletion keeps the store mirroring the log |
| `MessageCache.MessageStore.ApplyReaction` | app/src/stores/messageStore.ts:99-112 | That one message holds the reaction exactly once, last, if added and not at all if removed, everything else stays as it was, and the store goes on mirroring the log |
| `MessageCache.MessageStore.ClearChannel` | app/src/stores/messageStore.ts:117-126 | All three entries of the channel go, and an empty window mirrors any log |
| `MessageCache.MessageStore.TrimChannel` | app/src/stores/messageStore.ts:128-137 | Exactly the newest keep messages are left and the cursor given up, or nothing changes if there are no more than that; the store goes on mirroring the log |
| `AuditBuffer.Conservation` | backend/internal/audit/buffer.go:59-97 | In every schedule, offered = accepted + dropped (as multisets and counts), accepted = queued + held + written + failed, and the queue never exceeds Size |
| `AuditBuffer.DroppedIff` | backend/internal/audit/buffer.go:126-139 | An entry is dropped and counted if and only if it meets a queue of exactly Size, and joins its end otherwise |
| `AuditBuffer.CountersTellWhy` | backend/internal/audit/buffer.go:126-158 | In every schedule, dropped counts exactly the enqueues that met a queue of exactly Size, written the entries of successful writes and failures those of failed ones |
| `AuditBuffer.FlushedIff` | backend/internal/audit/buffer.go:160-174 | A worker flushes if and only if a receive fills its batch to BatchSize, or a tick or the closed channel finds its batch non-empty; it returns unflushed if and only if it sees the channel closed with an empty batch |
| `AuditBuffer.WriteCounts` | backend/internal/audit/buffer.go:148-158 | A write, successful or not, hands the batch on, empties it and counts it on its own side; the worker returns if and only if it had seen the channel closed |
| `AuditBuffer.WorkersKeepOrder` | backend/internal/audit/buffer.go:141-175 | What a worker has handed on and holds is, in order, its share of the accepted entries, written 1 to BatchSize at a time |
| `AuditBuffer.SharesPartition` | backend/internal/audit/buffer.go:160-174 | Each received entry is in exactly one worker's share |
| `AuditBuffer.StepKeepsInv` | backend/internal/audit/buffer.go:126-175 | Every enqueue, receive, tick, write and close keeps the buffer invariant |
| `AuditBuffer.DrainStep` | backend/internal/audit/buffer.go:177-180 | After close, each receive or worker exit lowers queue length plus live workers by one and no step raises it |
| `AuditBuffer.EveryOtherStepIsProgress` | backend/internal/audit/buffer.go:160-174 | After close, every step is idle or lowers the remaining work |
| `AuditBuffer.DrainIsBounded` | backend/internal/audit/buffer.go:112-124 | Every schedule after close has at most that many steps that do anything |
| `AuditBuffer.DrainNeverStalls` | backend/internal/audit/buffer.go:177-180 | While a worker is left after close, a step that makes progress and is not a tick is enabled |
| `AuditBuffer.CloseDrains` | backend/internal/audit/buffer.go:112-124 | When the last worker is gone, queue and batches are empty and each accepted entry was handed to a write exactly once, in order |
| `AuditBuffer.WithDefaults` | backend/internal/audit/buffer.go:63-77 | Size, Workers and BatchSize of zero or less become 4096, 2 and 64; positive ones stay |
| `AuditService.Tier2Buffer.constructor` | backend/internal/audit/buffer.go:59-97 | A started buffer is valid and empty with all its workers selecting |
| `AuditService.Tier2Buffer.Offer` | backend/internal/audit/buffer.go:126-139 | A queue of exactly Size drops and counts and changes no more; with room the entry joins the end and nothing is dropped; offered stays accepted plus dropped and the queue within its size |
| `AuditService.Tier2Buffer.EntryReceived` | backend/internal/audit/buffer.go:162-170 | The worker takes the queue's head to the end of its batch and flushes if and only if that makes BatchSize; the buffer stays valid |
| `AuditService.Tier2Buffer.ClosedSeen` | backend/internal/audit/buffer.go:162-166 | On a closed, empty channel the worker flushes and returns |
| `AuditService.Tier2Buffer.Ticked` | backend/internal/audit/buffer.go:171-172 | A tick flushes a non-empty batch |
| `AuditService.Tier2Buffer.WriteReturned` | backend/internal/audit/buffer.go:148-158 | The batch is emptied and counted as written if the write succeeded and as failed if not; accepted stays queued plus held plus written plus failed |
| `AuditService.Tier2Buffer.CloseChannel` | backend/internal/audit/buffer.go:177-178 | Closing twice is closing once |
| `KeysetWalk.VisitedKeysIncrease` | backend/cmd/reindex/main.go:370-431 | Whatever is inserted or deleted between pages, visited keys (created_at, id) strictly increase |
| `KeysetWalk.NoIdIsVisitedTwice` | backend/cmd/reindex/main.go:164-170 | As long as rows keep their created_at between pages, no id is visited twice |
| `KeysetWalk.SelectedIffSearchable` | backend/cmd/reindex/main.go:199-281 | The queries select a row if and only if it is not deleted, scheduled, trashed or archived and belongs to the workspace asked for |
| `KeysetWalk.StableRowsAreVisitedIff` | backend/cmd/reindex/main.go:164-175 | A row present and searchable throughout a completed run is visited if and only if it was created after the epoch, or at it under a non-nil id |
| `KeysetWalk.DueRowsAreVisited` | backend/cmd/reindex/main.go:370-431 | Over an unchanging table a completed run has visited exactly the searchable rows past the zero cursor, in (created_at, id) order |
| `KeysetWalk.PreEpochRowIsSkipped` | backend/cmd/reindex/main.go:172-175 | A selected row from before 1970 is never visited, although the zero cursor is said to sort before every row |
| `KeysetWalk.OnlySearchableRowsAreVisited` | backend/cmd/reindex/main.go:199-281 | No deleted, scheduled, trashed or archived row and none of another workspace is visited |
| `KeysetWalk.UnchangingWalk` | backend/cmd/reindex/main.go:386-430 | Over an unchanging table of n selected rows the walk visits all of them in order and completes with query n/batch + 1, also when n is a multiple of the batch |
| `KeysetWalk.EveryRowIsCounted` | backend/cmd/reindex/main.go:416-422 | indexed + failed equals the visited rows on every path |
| `KeysetWalk.FallbackCounts` | backend/cmd/reindex/main.go:452-459 | The fallback indexes exactly the documents that do not err, and all of them if and only if none does |
| `KeysetWalk.FallbackHolds` | backend/cmd/reindex/main.go:452-459 | A document that does not err is in the index after the fallback, under its own key |
| `KeysetWalk.PageCounts` | backend/cmd/reindex/main.go:442-461 | An accepted batch is indexed whole, a transient refusal fails it whole, and a rejected one fails exactly the documents that err |
| `KeysetWalk.StopsEarlyIff` | backend/cmd/reindex/main.go:386-409 | A run stops early if and only if some turn is cancelled or fails to read before the walk is over |
| `KeysetWalk.CleanRunUpserts` | backend/cmd/reindex/main.go:442-461 | A run without failures has upserted exactly the rows it visited, in order |
| `KeysetWalk.CleanRebuildIsExact` | backend/cmd/reindex/main.go:370-431 | A run without failures over an unchanging table leaves the document of each searchable row past the zero cursor under its type and id, and every other key untouched |
| `KeysetWalk.SecondRebuildChangesNothing` | backend/cmd/reindex/main.go:14-16 | A second run over the same table changes nothing, wherever it stops and whatever its writes meet |
| `KeysetWalk.DryRunWritesNothing` | backend/cmd/reindex/main.go:416-417 | A dry run counts and writes nothing |
| `Reindex.Rebuild` | backend/cmd/reindex/main.go:370-431 | Counts, ending, rows visited and index are those of the walk; every visited row was searchable and is counted once, visited keys increase, and a completed run over an unchanging table has visited every searchable row past the zero cursor |
| `Reindex.WritePage` | backend/cmd/reindex/main.go:442-461 | Every document is counted once: an accepted batch without failures, a transient refusal with nothing indexed, a rejected one with exactly the documents that err; a page without failures has been upserted whole |
| `Reindex.SearchIndex.IndexBatch` | backend/internal/search/service.go:295-315 | A batch is applied whole, refused permanently with nothing applied, or left uncertain |
| `ProjectionExtractor.Extract` | app/src/editor/projection.ts:79-136 | Body, outline and references of the result are the ones specified on the tree |
| `ProjectionExtractor.Extractor.Walk` | app/src/editor/projection.ts:85-125 | The accumulating walk adds exactly the lines, headings and references of the subtree, caps included |
| `ProjectionExtractor.Extractor.WalkChildren` | app/src/editor/projection.ts:120 | The loop over children adds theirs in order |
| `ProjectionExtractor.Extractor.OfferRef` | app/src/editor/projection.ts:91-97 | A reference is kept if and only if its key is new and fewer than 1000 are kept |
| `ProjectionExtractor.Extractor.OfferHeading` | app/src/editor/projection.ts:108-118 | A non-empty heading is kept while fewer than 500 are |
| `ProjectionExtractor.ProjectionsFitTheServer` | app/src/editor/projection.ts:46-51 | Every projection is within 2^20 bytes, 500 headings with levels in 1..6 and texts of 1 to 512 units, and 1000 references |
| `ProjectionExtractor.ProjectionsIgnoreEmbeds` | app/src/editor/projection.ts:10-17 | Documents equal up to what their embeds hold have the same body, and with leaf embeds the same outline |
| `ProjectionReading.ProjectionsReadDocuments` | app/src/editor/projection.ts:79-136 | The outline is the first 500 headings met in document order; the references are those of the embeds met in document order, the first of each key, up to 1000, field by field |
| `ProjectionReading.BodyIsTheTextAtPositions` | app/src/editor/projection.ts:98-125 | Within the byte budget the body is, up to whitespace, the text of all nodes outside embeds in document order |
| `ProjectionReading.LinesOfANode` | app/src/editor/projection.ts:98-125 | A node contributes its own text, then its children's lines, then a newline if it is a paragraph, heading, list item, task item, blockquote or code block |
| `ProjectionPaths.PositionsAre` | app/src/editor/projection.ts:85-125 | The positions read are exactly those with a node and no embed above, in document order |
| `ProjectionPaths.RefsAreAtPositions` | app/src/editor/projection.ts:86-103 | Each embed met yields its type by the schema, refId or else id as its target, and the nearest block id at or above it |
| `ProjectionPaths.HeadingsAreAtPositions` | app/src/editor/projection.ts:108-118 | Each heading met with text yields the nearest block id at or above it, its level kept within 1 and 6, and its text, cut at 64 and 512 units |
| `ProjectionPaths.PlainTextIsAtPositions` | app/src/editor/projection.ts:152-155 | A heading's text is that of the nodes below it in document order, none looked into that has text itself |
| `ProjectionBody.BodyIgnoresEmbeds` | app/src/editor/projection.ts:98-102 | The body is unchanged by anything inside or on an embed but its type |
| `ProjectionBody.BodyIsBounded` | app/src/editor/projection.ts:129-135 | Every body is at most 2^20 bytes and has no run of three newlines |
| `ProjectionBody.BodyLosesOnlyWhitespace` | app/src/editor/projection.ts:132 | Within the byte budget the body is the text outside embeds, in order, up to whitespace |
| `ProjectionBody.CollapseShortensRuns` | app/src/editor/projection.ts:132 | A whole run of newlines becomes two if it has three or more and stays otherwise, wherever it stands |
| `ProjectionBody.CollapseKeepsShortRuns` | app/src/editor/projection.ts:132 | Text without three newlines in a row is left as it is |
| `ProjectionBody.BodyIsTrimmed` | app/src/editor/projection.ts:132 | Before it is cut to its budget a body neither starts nor ends with whitespace |
| `ProjectionBody.TidyLinesAreTheBody` | app/src/editor/projection.ts:132 | Lines without long newline runs or outer whitespace, within the budget, are the body unchanged |
| `ProjectionBody.WhitespaceIff` | app/src/editor/projection.ts:132 | Whitespace is the white space and line terminators of ECMA-262, one by one |
| `ProjectionOutline.OutlineHidesEmbeds` | app/src/editor/projection.ts:108-118 | The outline is blind to embeds if no heading takes in embed text |
| `ProjectionOutline.OutlineHidesEmbedsIff` | app/src/editor/projection.ts:152-155 | Where no cap cuts it, the outline is blind to embeds if and only if no heading takes in embed text |
| `ProjectionOutline.OutlineHidesEmbedsUnderCaps` | app/src/editor/projection.ts:108-118 | Over the caps too, the outline is blind to embeds if, up to the 500th non-empty heading, none takes embed text into its first 512 units |
| `ProjectionOutline.LeafEmbedsLeakNothing` | app/src/editor/projection.ts:152-155 | Embeds that are leaves without text leak nothing |
| `ProjectionOutline.AnEmbedLabelReachesTheOutline` | app/src/editor/projection.ts:10-17 | A label held by an embed inside a heading appears in the outline |
| `ProjectionTree.PlainTextHidesEmbedsIff` | app/src/editor/projection.ts:152-155 | plainText is blind to embeds if and only if no embed it reaches holds text |
| `ProjectionRefs.FirstByKeyPicksEachKeyOnce` | app/src/editor/projection.ts:92-96 | One reference of each key that occurs is picked, and no key twice |
| `ProjectionRefs.FirstByKeyIsInDocumentOrder` | app/src/editor/projection.ts:85-97 | The picked references stand in document order, each at the first occurrence of its key |
| `ProjectionRefs.RefsAreTheFirstDistinctIff` | app/src/editor/projection.ts:92-96 | The kept references are the first 1000 distinct (type, target, block) triples if and only if those have distinct keys |
| `ProjectionRefs.SharedKeyIff` | app/src/editor/projection.ts:92 | Two different triples share a key if and only if one's target runs over a colon into the other's block |
| `ProjectionRefs.TargetsWithoutColonsNeverCollide` | app/src/editor/projection.ts:92 | Targets without colons are deduplicated exactly |
| `ProjectionRefs.AColonDropsAReference` | app/src/editor/projection.ts:92-96 | A document with two different references whose projection keeps only the first |
| `Utf8Clamp.ClampBytes` | app/src/editor/projection.ts:164-175 | The binary search returns the longest UTF-16 prefix whose UTF-8 encoding fits |
| `Utf8Clamp.ClampIsTheLongestFit` | app/src/editor/projection.ts:164-175 | That prefix exists and is unique |
| `Utf8Encoding.ClampFitsTheEncoding` | app/src/editor/projection.ts:164-175 | The clamped text encodes within the budget and no longer prefix does |
| `Utf8Encoding.LengthOfEncoding` | app/src/editor/projection.ts:165-166 | The length the clamp measures is the number of octets of the UTF-8 encoding, lone surrogates read as U+FFFD |
| `Utf8Encoding.RoundTrip` | app/src/editor/projection.ts:165 | Encoded code points decode to themselves |
| `Utf8Clamp.ClampIsIdempotent` | app/src/editor/projection.ts:166 | Text comes back whole if and only if it fits, and clamping twice is clamping once |
| `Utf8Clamp.LongerPrefixesCostMore` | app/src/editor/projection.ts:167-173 | A longer prefix always costs more bytes, also across a cut inside a surrogate pair |
| `Utf8Clamp.CutsInsideAPairIff` | app/src/editor/projection.ts:174 | A cut falls inside a surrogate pair if and only if three bytes are left before the pair |

## Left out

- ProjectionOutline.OutlineHidesEmbedsIff: the "only if" half assumes that no heading exceeds 512 units and at most 500 headings exist, because a cap can hide a leak; over the caps, `OutlineHidesEmbedsUnderCaps` gives the "if" half for what is shown.
- SessionProtocol.PostsAreCleanedUp: assumes that the cleanups' dynamic imports resolve in the order they were requested; the exact condition without that assumption is `OwnDeletes.OwnDeleteIff`. One device token throughout.
- KeysetWalk.CleanRebuildIsExact: an accepted batch counts as applied; the search engine only promises to have queued it (backend/internal/search/service.go:287-294).
- Reindex.Rebuild: a query, scan or iteration that fails part-way is one event that discards the page, as the code does; how far it got is not recorded.
- SocketLink.OpenSocketMirrorsDesire: revocations count as withdrawals by the server; subscriptions the server refuses with an error frame are not modelled.
- Hydration, the legacy token migration, `setUser`, `persistError` and the cached profile.
- Empty token strings: a token is present or absent, and a present one is non-empty.
- Acknowledgement sets (`confirmedChannels`, `joinedRooms`), connection status, listeners and the room events other than the gap announcement, typing timers and presence.
- Listeners that call back into the manager from inside one of its own callbacks.
- Contents of dispatched payloads, and the channel, user, drive and interface stores they feed.
- Optimistic reactions, pins and reply counts (app/src/components/channel/ChannelView.tsx:274-298), which show a change before the server has made it.
- `clear()` of the message store is modelled as an operation but not as a step of the runs in `MessageRuns`, since it comes with a new session and new logs.
- Enqueueing after the audit buffer is closed, which panics; callers stop enqueueing first (backend/internal/audit/buffer.go:112-115). Timeouts, log lines and the grouping by workspace inside a batch write.
- Document construction and validation of the rebuild, access keys, the `-type` selection across sources and legacy pruning.
- Heading levels that are NaN or infinite, and node types that name a property every JavaScript object inherits (such as "constructor").
- Projection sequence numbers and the schema check on the server; the scheduler that decides when to project.
- React screens, REST wrappers, the CRDT provider, sheet and design engines, the composition root, admin handlers and the other commands: rendering and plumbing without state of their own to keep.
