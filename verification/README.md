# xai-oauth: session, takeover and login, verified

A Dafny model of the parts of xai-oauth that decide whether its promises hold: the in-memory OAuth
session shared by concurrent callers, the takeover of a running daemon by its successor, the error
chain from the identity provider (IdP) to the client, the device-code poll loop and the x.ai host pin.
`dafny verify dfyconfig.toml` checks everything.

## What is modelled

* `SessionSpec` has the session's fields and, as functions on values, what each region guarded by
  `Session.mu` does to them. `LiveSession` carries those regions out in place, in an object with the
  program's fields, and composes them into whole calls. `Refinement` proves that each region of the
  object is one step of the interleaving, whatever the shared state, so that any run of any number of
  callers can be played on one object; and that a caller which runs alone does what the object's
  `GetAccessToken` does.
* `Interleaving` runs any number of callers of `/token`, `/handoff` and `/logout` on one session. A
  region that holds `mu`, or the mutex of the singleflight, never blocks inside and is one step; `opMu`
  is held across steps and is a lock. The gaps of the source are step boundaries: behind the first
  freshness check, between the credential snapshot and the IdP call, the call itself, its return, and
  between `wg.Done` and `delete` in the singleflight. The clock, the IdP (any answer, or a panic), the
  success of a response write and the arrival of callers belong to the environment.
* `Invariant` is the inductive invariant; `Reads`, `Outcomes`, `Answers`, `Lifecycle`, `Economy`, `Progress` and
  `Health` draw conclusions about whole runs from it. A run is a sequence of states and actions from a fresh login on.
* `Takeover` is the handoff payload, its reading, the session built from it, and the arithmetic of the
  expiry over many takeovers. `DaemonChain` puts complete interleavings, one for each daemon, behind
  one another, with one IdP that honours a single rotating refresh token (section 6 of RFC 6749).
  `GrantEnd` says when the grant is gone for the whole chain, and `ChainClock` puts the chain on one
  clock and bounds how long tokens are still served.
  `Example` is a world with one endpoint and one JWT for the lemmas that show a concrete input.
* `Server` is the handoff and logout handlers, `TokenRoute` the error mapping from the session to the
  client.
  `Tokens`, `Errors`, `HostPin` and `DevicePoll` are the protocol layer (section 3.5 of RFC 8628 for
  the poll loop; the code adds one second for a slow_down where the RFC asks for five, and the model
  follows the code).

## Assumptions

* A handoff response whose write fails has reached nobody. A successful write may or may not reach a
  successor; what a successor holds it may drop at any time.
* JSON carries every field unchanged. `ValidateXAIURL` is an arbitrary predicate in the session
  (`Oracle.validEndpoint`) that looks at the trimmed text; where the host matters it is tied to the pin
  by `Pinned`. The `exp` claim of a JWT is an arbitrary function of the token.
* The IdP of `DaemonChain` grants and rotates only on its current refresh token and offers no other
  token than the one it has just rotated to. An answer that is lost on the way sets `lost`, and the
  rotation theorem speaks about the time before that.
* Strings have characters below U+0100, only ASCII letters have case, and lengths count characters.

## Where the code differs from what is said about it

* `deviceAuthWindow` is documented as capping `expires_in` at 30 minutes. Its multiplication wraps first:
  an `expires_in` of 18446744074 leaves 0.29 seconds. `DevicePoll.WindowIsTheCap` says exactly when the
  documented cap is what the code computes.
* A logout does not stop a takeover that has drained the session and not yet written its response
  (`GrantEnd.LogoutCannotRecall`; `GrantEnd.LateLogout` is a concrete history). It ends the grant for
  good exactly if the session was ready, or nothing leaves the daemon any more, every other daemon has
  finished with the grant and no successor has a payload (`GrantEnd.LogoutEndsTheGrantExactlyWhen`).
  The death of a ready session, by logout or by a terminal refresh, always ends it
  (`GrantEnd.DeathEndsTheGrant`).
* Rollback after a failed delivery is exact for the credentials; `last_error` is forgotten
  (`Lifecycle.RollbackIsExact`).
* `takeover.go` calls the loss on the way through relative seconds irrelevant. It is less than two
  seconds for each takeover exactly while the expiry is less than 9223372038 seconds ahead
  (`Takeover.RelativeHopDrift`); beyond that it is years (`Takeover.FarExpiryIsCutOff`).
* A takeover can make a token live longer than it was issued for. The successor serves it from its cache
  at or past its expiry exactly if what the successor goes by is later, by more than the refresh skew,
  than both the expiry and the moment the session is built: the seconds that were left when the payload
  was read, counted from the building on, or, if none were left, the token's own `exp` claim
  (`Takeover.ServesStaleExactlyWhen`; `Takeover.ExpiredTokenRevives` is a concrete token). By relative
  seconds this takes delays and roundings of more than the skew (`Takeover.RelativeServesNoStaleToken`).

## Model

| member | source | states |
|---|---|---|
| Invariant.RunInv | internal/session/session.go:30-53 | every state of every run satisfies the invariant that ties opMu, the singleflight entry and its leader, the outstanding snapshot and the credential fields together |
| Invariant.StepKeepsInv | internal/session/session.go:211-436 | every action of any caller, the clock, the IdP or the network keeps the invariant |
| Reads.LinearizableRead | internal/session/session.go:211-238 | a token returned by GetAccessToken was the ready session's token at an instant between the arrival and the return of that call, for leaders, waiters and late joiners |
| Reads.CarriedTokenIsHeld | internal/session/session.go:408-436 | while a singleflight call is in the map, a ready session holds the token the call carries |
| Reads.LooksAreExact | internal/session/session.go:211-283 | the first step of a call and the first under opMu change nothing and end the call with a token that has a known expiry more than five minutes ahead, refuse by state, or go on, to the IdP with exactly the session's refresh token and endpoint |
| Outcomes.EveryOutcomeIsJustified | internal/session/session.go:211-436 | every outcome of every caller was decided, for a reason, by a step of that caller, or by the leader of a call that this caller waited for and that is filled with this outcome; the reasons are: a token of the ready session that was hard-valid, or one just installed; a terminal failure naming the state; unavailable after a handoff or a transient failure without a valid token; a crash after a panic |
| Answers.AnswersHaveTheirEffect | internal/session/session.go:287-389 | in every run a caller that the IdP answered has read the answer at one step and settled at a later one as the kind of answer demands: a grant stored in full in a ready session, both tokens wiped on a condemning answer, credentials left alone otherwise; a panic gives a crash |
| Answers.GrantedSessionsAreRenewed | internal/session/session.go:304-336 | after a grant the session holds the answer's access token, its refresh token or the one presented, and the expiry: clock plus expires_in (modulo 2^64 ns), without it the exp claim, without both unknown; unless it died meanwhile |
| Answers.CondemnedSessionsDie | internal/session/session.go:339-379 | a caller with a condemning answer leaves a dead session, and hears the tier error exactly for a 403 |
| Answers.LoginIsExact | internal/session/session.go:55-81 | a login gives a session exactly with both tokens and a valid endpoint, holding those and expiring as the answer demands |
| Lifecycle.DeathIsAbsorbing | internal/session/session.go:306-337 | a session in reauth_required or tier_denied never leaves these states and has no tokens, whatever refresh or restore is still in flight |
| Lifecycle.NoTokensUnlessReady | internal/session/session.go:166-208 | outside the ready state, handed_off included, both tokens are empty |
| Lifecycle.HandoffIsLinearizable | internal/session/session.go:143-174 | among any other callers, a handoff answers with the session as it was at one instant of that call: all its credentials, gone from there with that step, or the state of a session that was not ready, left alone |
| Lifecycle.RollbackIsExact | internal/session/session.go:176-195 | after a failed delivery every credential field is as before the drain unless somebody logged out meanwhile, and then nothing changes and the session is dead |
| Lifecycle.TerminalErrorsAreTrue | internal/session/session.go:339-379 | a caller told to log in again or denied by tier is told so by a session that is dead from then on |
| Lifecycle.DeathHasACause | internal/session/session.go:339-389 | without a logout and without a condemning IdP answer the session never dies and no caller gets a terminal error, panics and transient failures notwithstanding |
| Economy.OneCallAtATime | internal/session/session.go:260-264 | at most one refresh is unsettled, none while a handoff is taking or carrying its snapshot |
| Economy.NoEarlyRefresh | internal/session/session.go:240-283 | after a login, a takeover or a refresh brought a known expiry, the next request leaves no earlier than five minutes before it, also for callers who saw a stale token earlier |
| Economy.TerminalFailureIsTheLastCall | internal/session/session.go:339-379 | after a refresh that ended the session no request to the IdP begins |
| Economy.OneCallAfterLogout | internal/session/session.go:197-208 | after a logout at most one request begins, by a caller that had copied the credentials before |
| Economy.RequestsStayOnOrigin | internal/protocol/refresh.go:13-35 | every request carries a refresh token over https to a host that is x.ai or a name under it, up to case and one final dot, and the discovery branch is never taken |
| Economy.DefensiveArmsAreDead | internal/session/session.go:287-327 | the missing_refresh arm, and the tier, handed-off and empty-token arms behind the IdP call, are never taken |
| Progress.SomeoneMoves | internal/session/session.go:260-264 | while a caller is not finished, some caller can move |
| Progress.MovesAreBounded | internal/session/session.go:408-436 | without new arrivals callers move at most as often as the work they had left |
| Progress.StuckMeansFinished | internal/session/session.go:423-434 | where nobody can move, everybody has returned, waiters included, and opMu and the singleflight entry are free, also after panics |
| Health.DegradedMeansWhatItSays | internal/session/session.go:111-130 | readiness is "degraded" exactly when the state is ready, the token is not hard-valid and the latest refresh attempt since login, success or rollback that did not panic failed transiently; otherwise the reason is "ready" or the name of the state; a refresh that panics leaves no trace in the report |
| Health.LastErrorIsTrouble | internal/session/session.go:381-388 | last_error of a ready session is non-empty exactly when the latest news from the IdP was a transient failure |
| Health.QuietSessions | internal/session/session.go:153-208 | a handed-off session has nothing left but its notice, and a dead one always has an error to show |
| Invariant.LoginIsSound | internal/session/session.go:55-81 | a session built from a login with tokens that are not blank is ready, and holds usable credentials |
| LiveSession.SessionObject.StillFresh | internal/session/session.go:240-248 | true exactly for a token with a known expiry more than the skew ahead |
| LiveSession.SessionObject.Look | internal/session/session.go:211-229 | refuses by state, hits on a fresh token, misses otherwise, and changes nothing |
| LiveSession.SessionObject.Ready | internal/session/session.go:116-130 | the readiness report of the current fields |
| LiveSession.SessionObject.Status | internal/session/session.go:95-109 | the status report of the current fields that Health.StatusTellsEverything is about |
| Health.StatusTellsEverything | internal/session/session.go:83-109 | in every reachable state the report has the session's state, expiry and error, an error in every state but ready; token_valid is exactly a ready state with a known expiry ahead, last_error of a ready session is exactly trouble with the IdP, and readiness, refusal and a cache hit of a call arriving now can be read off the report |
| LiveSession.SessionObject.Join | internal/session/session.go:408-421 | joins the call in the map or adds one and leads it, as the step of the interleaving does |
| LiveSession.SessionObject.Publish | internal/session/session.go:423-434 | fills in exactly the named call object |
| LiveSession.SessionObject.StoreTokens | internal/session/session.go:306-336 | stores tokens and expiry only into a ready session that still has a refresh token; otherwise reports the state |
| LiveSession.SessionObject.HandleRefreshErr | internal/session/session.go:339-389 | wipes both tokens on a terminal verdict; on a transient one records the message and falls back on a hard-valid token |
| LiveSession.SessionObject.Drain | internal/session/session.go:156-173 | returns all credentials and leaves the drained session, or the state of a session that is not ready, unchanged |
| LiveSession.SessionObject.NoteTransient | internal/session/session.go:381-388 | keeps both tokens, records the message and falls back on a hard-valid token |
| LiveSession.SessionObject.Handoff | internal/session/session.go:143-174 | from the moment opMu is free: the drain, and opMu is free again |
| LiveSession.SessionObject.RestoreHandoff | internal/session/session.go:176-195 | reinstates the snapshot exactly when the session is still handed off |
| LiveSession.SessionObject.Clear | internal/session/session.go:197-208 | leaves the cleared session from any state |
| LiveSession.SessionObject.RefreshIfNeeded | internal/session/session.go:260-337 | an undisturbed refresh does what SoloRefresh says and frees opMu, also when the IdP call panics |
| LiveSession.SessionObject.GetAccessToken | internal/session/session.go:210-238 | an undisturbed call does what SoloGet says, keeps a sound session sound, returns only the token it then holds, and leaves opMu and the singleflight map free and the call object filled in |
| LiveSession.SoloGetServes | internal/session/session.go:210-238 | an undisturbed call keeps the session sound, returns only the token the session now holds, reports terminal errors only from a dead session and leaves a dead one alone |
| Refinement.Advance | internal/session/session.go:143-436 | for any shared state, whatever other callers left behind, and any place a caller can stand, the object's next region does exactly the step of the interleaving |
| Refinement.Play | internal/session/session.go:143-436 | any run of any number of callers, played on one object, leaves it and its callers in the last state of the run, invariant included |
| Refinement.LoneCallIsSoloGet | internal/session/session.go:210-238 | a caller that the interleaving runs alone ends with the session and outcome of the object's GetAccessToken |
| Takeover.TakeoverIsAccepted | cmd/xai-oauth/takeover.go:113-149 | the payload of usable credentials passes parsing and session building with the same tokens and endpoint; no known expiry stays no known expiry |
| Takeover.EverySnapshotIsAccepted | internal/server/server.go:131-149 | the snapshot of any handoff in any run is such a payload |
| Takeover.TakeoverGoesThroughExactlyWhen | cmd/xai-oauth/takeover.go:113-136 | a takeover goes through exactly with both tokens, a valid endpoint and a secret |
| Takeover.RelativeExpiryIsExact | cmd/xai-oauth/takeover.go:139-147 | the successor's expires_in is the whole seconds from the reading to the stamp, or 0; never 0 for an expiry two seconds ahead in the years 0000 to 9999, always 0 for one that is not ahead |
| Takeover.WholeSeconds | cmd/xai-oauth/takeover.go:144-146 | int(d.Seconds()) with its float64: less than a second lost, at most about a microsecond gained, and nothing gained below 104 days |
| Takeover.NearExpiriesAreNotRounded | cmd/xai-oauth/takeover.go:144-146 | while the expiry with all delays is less than 104 days ahead of every reading, the shift is the plain sum of the delays |
| Takeover.RelativeHopDrift | cmd/xai-oauth/takeover.go:139-147 | by relative seconds the expiry moves later by at most the delay (and a rounding beyond 104 days), and earlier by less than two seconds exactly below the saturation bound |
| Takeover.FarExpiryIsCutOff | cmd/xai-oauth/takeover.go:139-147 | a concrete expiry beyond the bound loses more than two years |
| Takeover.FallbackHop | internal/protocol/jwt.go:46-56 | otherwise the successor goes by the exp claim, or knows no expiry |
| Takeover.RelativeDrift | cmd/xai-oauth/serve.go:374-384 | n takeovers by relative seconds move the expiry later by at most the delays and roundings, and earlier by at most 2n seconds unless one is cut off |
| Takeover.OvershootIsTheDelay | internal/session/session.go:71-80 | after any takeovers the believed expiry exceeds the true one by at most the sum of the delays and of the roundings that occurred |
| Takeover.RelativeServesNoStaleToken | internal/session/session.go:240-248 | by relative seconds all the way, with delays and actual roundings of at most five minutes in all, no daemon serves the token from its cache at or past the expiry it was issued with |
| Takeover.ServesStaleExactlyWhen | cmd/xai-oauth/takeover.go:139-147 | after one takeover of any delay the successor, from when it is built on, serves the token at or past its expiry exactly if the seconds left at the reading, counted from the building, or, with none left, the exp claim, are more than the skew beyond both the expiry and the building |
| Takeover.NoStaleTokenFromCache | internal/session/session.go:240-248 | whichever way the takeovers go, with such delays, not at or past the later of expiry and exp claim |
| Takeover.ExpiredTokenRevives | cmd/xai-oauth/takeover.go:144-146 | a concrete token past its expires_in that the successor serves until its exp claim |
| Takeover.OutcomeMatchesState | cmd/xai-oauth/takeover.go:82-110 | a successor acquires a ready session, replaces a dead one and backs off from a handed-off one, each exactly then |
| Takeover.RepliesAreReadExactly | cmd/xai-oauth/takeover.go:82-110 | over all replies: acquired exactly from a 200 with both tokens and a valid endpoint, and as sent; dead exactly on a 409 naming one of the two dead states |
| Server.HandleHandoff | internal/server/server.go:120-167 | undisturbed: conflict without change, delivery with the credentials gone here, or rollback of every credential, and shutdown only after delivery |
| Server.HandleLogout | internal/server/server.go:108-118 | clears the session, leaves the lock and the calls in flight alone, and shuts down |
| TokenRoute.ClientSeesTheOutcome | client/client.go:348-370 | each client sentinel stands for exactly the session outcomes it names; panics count as unavailable, a bad secret is never terminal |
| TokenRoute.RouteIsExact | internal/server/server.go:72-106 | 200, 401, 403 and 503 for exactly the outcomes they stand for, with the error that names the case and a token only with 200 |
| TokenRoute.ClientMapsExactly | client/client.go:348-370 | for any status and error text, which client sentinel it is, up to white space at the ends |
| TokenRoute.ClientTerminalErrorsAreTrue | internal/server/server.go:72-100 | a client told ErrReauthRequired or ErrTierDenied talked to a session that is dead from then on |
| TokenRoute.NoFalseTerminalErrors | client/client.go:137-162 | no client is told so while there was no logout and no condemning IdP answer |
| TokenRoute.ClientTokensAreCurrent | client/client.go:137-162 | a returned token reaches the client unchanged and was current at an instant of the call |
| DaemonChain.SingleRefresher | internal/server/server.go:120-126 | in every history at most one daemon is ready or engaged with the grant, and none is ready while a payload is in delivery or with a successor |
| DaemonChain.OneRequestInTheChain | internal/session/session.go:34-37 | at most one refresh is unsettled in the whole chain |
| DaemonChain.NoLostRotation | internal/session/session.go:143-151 | unless an IdP response was lost, every refresh token presented, drained, carried or held settled is the one the IdP honours |
| DaemonChain.LostMeansLost | internal/protocol/refresh.go:69-82 | a response counts as lost only where the IdP replaced the token and the answer did not bring the new one |
| GrantEnd.DeathEndsTheGrant | internal/session/session.go:197-208 | once a ready session dies, no daemon is ready and no payload is under way ever again |
| GrantEnd.GrantIsGoneExactlyWhen | internal/server/server.go:120-167 | from any point of any history on a daemon can become ready again exactly unless every daemon has finished with the grant (not ready, nothing outgoing, no rollback that would take effect) and no successor has a payload |
| GrantEnd.LogoutEndsTheGrantExactlyWhen | internal/server/server.go:108-118 | a logout is final for the whole chain exactly if the session was ready, or nothing leaves this daemon, the others have finished and no successor has a payload |
| GrantEnd.LogoutCannotRecall | internal/server/server.go:156-166 | from every reachable state with a drained payload on its way out, a continuation behind the logout has a ready daemon with the same tokens |
| GrantEnd.LogoutCanComeTooLate | internal/server/server.go:120-167 | after any login such a state is reached, both with the handoff about to unlock and with its response being written |
| GrantEnd.LateLogout | internal/server/server.go:120-167 | one such history from a concrete login |
| ChainClock.LedgerIsBooked | cmd/xai-oauth/takeover.go:139-147 | in every history on one clock every ready session, snapshot and payload has the token installed last, with a believed expiry bounded by the one given with it, or read off its exp claim at a takeover that found no time left, plus the time payloads were under way since |
| ChainClock.HeldTokensAreServedInTime | internal/session/session.go:240-258 | every token served without a refresh is the one installed last, and is served more than the skew before that bound, or after a failed refresh before the bound itself |
| DevicePoll.PollLoop | internal/protocol/device.go:84-161 | the interval is the clamped start plus the slow_downs up to 30 seconds; at most 1800 requests, the return is bounded, and the result is the last response's, a timeout at the end of the window, or a cancellation |
| DevicePoll.SentExactlyWhenDue | internal/protocol/device.go:95-150 | the requests sent are exactly those that are due: all responses before said to wait, the clock is inside the window and the context lives |
| DevicePoll.FirstGrantWins | internal/protocol/device.go:118-132 | if request k is due and its response has both tokens, the call ends there with exactly these tokens |
| DevicePoll.PollDeviceToken | internal/protocol/device.go:84-161 | for every expires_in, interval and response sequence the call is bounded; it sends exactly the due requests, grants exactly when the last response has both tokens, with those tokens and their lifetime, and times out only when the window is over |
| DevicePoll.WindowIsTheCap | internal/protocol/device.go:164-174 | the window is the signed residue of the nanoseconds modulo 2^64, cut at 1800 seconds; it is the documented cap exactly for values in range, or above it with a residue that is a Duration of at least the cap |
| DevicePoll.HugeExpiryLeavesNoWindow | internal/protocol/device.go:168-174 | a concrete expires_in for which the window is a fraction of a second |
| DevicePoll.ClampPollInterval | internal/protocol/device.go:176-185 | the number from 1 to 30 nearest to the one given |
| Basics.BlankMeansTrimsToNothing | internal/protocol/refresh.go:14 | the model's blank strings are those that TrimSpace makes empty |
| Basics.TrimIsExact | internal/protocol/errors.go:100 | trimming takes away the white space at the ends and nothing else |
| Basics.ItoaIsExact | internal/protocol/errors.go:60 | the digits of a status stand for that status |
| Tokens.Refresh | internal/protocol/refresh.go:12-83 | a successful refresh has two tokens that are not blank |
| Tokens.RequestIsCheckedFirst | internal/protocol/refresh.go:13-31 | before any request: no refresh token or an endpoint that does not hold needs a new login, and discovery is used exactly when there is no endpoint |
| Tokens.TerminalVerdictIffCondemned | internal/protocol/refresh.go:51-75 | the verdict is terminal exactly for a 403, a 200 without access token, or a body under any other status that says invalid_grant or invalid_client, in any case and between any white space; tier exactly for 403 |
| Tokens.FailureTextsAreFixed | internal/protocol/errors.go:50-75 | last_error after a failed refresh is a fixed name and the HTTP status, whatever the IdP wrote |
| Tokens.RefreshKeepsOrRotates | internal/protocol/refresh.go:69-82 | exactly granting answers succeed, with the access token, expires_in and type of the answer, and its refresh token or, without one, the one presented |
| Tokens.ExpiresAtFromToken | internal/protocol/jwt.go:46-56 | the expiry is unknown exactly when neither expires_in nor the exp claim is positive, with the wrapping multiplication |
| Tokens.ExpiryIsExact | internal/protocol/jwt.go:46-56 | receipt plus expires_in, exactly in range and modulo 2^64 ns beyond it; the exp claim without; unknown without both |
| Errors.VerdictIsRoot | internal/session/session.go:339-379 | the two classification passes agree with the sentinel at the end of the unwrap chain |
| Errors.PublicMessage | internal/protocol/errors.go:50-75 | never empty |
| Errors.MessageIsExact | internal/protocol/errors.go:50-75 | only the code of a protocol error with its HTTP status, or the name of the sentinel at the end, is ever shown |
| Errors.SanitizeOAuthErrorCode | internal/protocol/errors.go:97-110 | at most 64 characters, all of them code characters |
| Errors.SanitizingIsExact | internal/protocol/errors.go:97-110 | sanitizing gives a code exactly if it is well-formed (1 to 64 code characters) and the text is that code up to case and white space at the ends |
| Errors.NothingIsLeftExactlyWhen | internal/protocol/errors.go:97-110 | sanitizing leaves nothing exactly if the text spells no well-formed code |
| Errors.CleanCodesPassThrough | internal/protocol/errors.go:97-110 | sanitizing leaves exactly the well-formed codes and the empty one unchanged |
| DevicePoll.Judge | internal/protocol/device.go:118-159 | approves exactly a 200 with both tokens, with its tokens and expires_in |
| DevicePoll.WaitingIsExact | internal/protocol/device.go:135-150 | says to wait or to slow down exactly for those two codes, in any case and between any white space, under a status other than 200 |
| DevicePoll.RejectionsAreExact | internal/protocol/device.go:112-158 | a rejection is transient exactly where nothing readable arrived |
| HostPin.PinIsTheSuffixRule | internal/protocol/pin.go:17-42 | a normalized host is accepted exactly when it is x.ai or non-empty dot-separated labels followed by .x.ai |
| HostPin.EarlyDotTestsAreImplied | internal/protocol/pin.go:27-40 | hosts with two dots in a row or a leading dot fail the label loop as well |
| HostPin.SubdomainsStayPinned | internal/protocol/pin.go:17-42 | a subdomain of an accepted host is accepted |
| HostPin.PinIsExact | internal/protocol/pin.go:21-42 | any host is accepted exactly if, without white space at its ends, up to case and one final dot, it is x.ai or non-empty dot-separated labels followed by .x.ai |
| HostPin.PlainHostIsPinnedExactly | internal/protocol/pin.go:21-42 | a host without outer white space, capitals or final dot is accepted exactly if it is on the origin |
| HostPin.ValidURLIsExact | internal/protocol/pin.go:44-68 | a URL is valid exactly if, trimmed, it has 1 to 2048 characters, parses as https, and its host names the origin |
| HostPin.PinIgnoresCaseAndFinalDot | internal/protocol/pin.go:21-23 | case and one final dot make no difference |

## Left out

- LiveSession.SessionObject.Handoff: starts when opMu is free for it; waiting for opMu, and what others do meanwhile, is in Lifecycle.HandoffIsLinearizable and Refinement.Play.
- LiveSession.SessionObject.RefreshIfNeeded: starts when opMu is free for it and meets nobody else; the same regions among other callers are in Refinement.Advance and Refinement.Play.
- LiveSession.SessionObject.GetAccessToken: starts with opMu and the singleflight map free and meets nobody else; joining and waiting are in Refinement.Advance and Refinement.Play.
- Refinement.LoneCallIsSoloGet: is about one caller alone; Refinement.Play is about all of them.
- Server.HandleHandoff: is about a handoff that meets nobody else; drain, delivery and rollback among other callers are in Lifecycle.HandoffIsLinearizable, Lifecycle.RollbackIsExact, DaemonChain and GrantEnd.
- DevicePoll.PollLoop: does not bound how late a timer fires; the lateness of the last wait appears in the bound on the return.
- LiveSession.SessionObject: call objects are entries of a sequence instead of heap objects, so aliasing of call objects is not modelled; mutual exclusion by mu is expressed by one step for each region.
- Times are unbounded integers; only durations, expires_in and their products have the width of an int64. Monotonic clock readings are left out.
- Context cancellation and timeouts during a refresh are transport failures; a response that is lost is the flag in DaemonChain.
- Listening, probing, unlinking and binding the socket, the wait for a predecessor to leave it, process spawning, signals and shutdown: file system and process I/O.
- The local secret, file modes and proxies: access control by single tests.
- HTTP and JSON encoding, URL parsing, base64 and JWT decoding, SHA-256: library code.
- cmdServe around the takeover, and the wiping of payloads in memory: sequencing of the parts above.
- WaitReady, Transport and the other client calls: they add no state.
