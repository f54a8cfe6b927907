/** The session's data and what each region guarded by Session.mu does to it
    (internal/session/session.go). The class in LiveSession.dfy carries these regions out in
    place; the interleaving model in Interleaving.dfy schedules them. */
module SessionSpec {
  import opened Basics
  import opened Errors
  import opened Tokens

  const REFRESH_SKEW := 5 * MINUTE

  datatype State = Ready | ReauthRequired | TierDenied | HandedOff

  /** The credential fields of a session; also the HandoffData snapshot of them. */
  datatype Creds = Creds(accessToken: string, refreshToken: string, tokenEndpoint: string,
                         expiresAt: int, hasExpiry: bool)

  const NO_CREDS := Creds("", "", "", ZERO_TIME, false)

  datatype Session = Session(creds: Creds, state: State, lastError: string)

  /** The error a GetAccessToken call can end in; Crashed is the panic recovered by singleflight. */
  datatype Failure = NeedsReauth | DeniedTier | Unavailable | Crashed

  datatype Outcome = Token(token: string) | Fail(failure: Failure)

  predicate Dead(s: Session) {
    s.state == ReauthRequired || s.state == TierDenied
  }

  predicate Terminal(f: Failure) {
    f == NeedsReauth || f == DeniedTier
  }

  /** accessStillFreshLocked. */
  predicate Fresh(c: Creds, now: int) {
    c.accessToken != "" && c.hasExpiry && now < c.expiresAt - REFRESH_SKEW
  }

  /** hardValidLocked. */
  predicate HardValid(c: Creds, now: int) {
    c.accessToken != "" && c.hasExpiry && now < c.expiresAt
  }

  // ----- login

  datatype LoginResult = LoginResult(tokens: TokenResponse, tokenEndpoint: string)

  /** NewFromLogin. */
  function NewFromLogin(o: Oracle, login: LoginResult, now: int): Result<Session, string> {
    var tr := login.tokens;
    if tr.accessToken == "" || tr.refreshToken == "" then Err("login missing access or refresh token")
    else if !o.validEndpoint(login.tokenEndpoint) then Err("token_endpoint")
    else
      var e := ExpiresAtFromToken(o, tr.accessToken, tr.expiresIn, now);
      Ok(Session(Creds(tr.accessToken, tr.refreshToken, login.tokenEndpoint, e.at, e.known), Ready, ""))
  }

  // ----- the regions of GetAccessToken and refreshIfNeeded

  datatype Gate = Refused(failure: Failure) | Hit(token: string) | Miss

  /** The state switch and freshness test that open both GetAccessToken and refreshIfNeeded. */
  function CheckGate(s: Session, now: int): Gate {
    match s.state
    case ReauthRequired => Refused(NeedsReauth)
    case TierDenied => Refused(DeniedTier)
    case HandedOff => Refused(Unavailable)
    case Ready => if Fresh(s.creds, now) then Hit(s.creds.accessToken) else Miss
  }

  /** The region for a snapshot without a refresh token. */
  function MissingRefresh(s: Session): Session {
    s.(state := ReauthRequired, lastError := "missing_refresh", creds := s.creds.(accessToken := ""))
  }

  /** The region behind a successful IdP call. */
  function Install(s: Session, tr: TokenResponse, e: Expiry): (Session, Outcome) {
    match s.state
    case ReauthRequired => (s, Fail(NeedsReauth))
    case TierDenied => (s, Fail(DeniedTier))
    case HandedOff => (s, Fail(Unavailable))
    case Ready =>
      if s.creds.refreshToken == "" then
        (s.(state := ReauthRequired, lastError := "logged_out", creds := s.creds.(accessToken := "")),
         Fail(NeedsReauth))
      else
        (Session(Creds(tr.accessToken, tr.refreshToken, s.creds.tokenEndpoint, e.at, e.known), Ready, ""),
         Token(tr.accessToken))
  }

  /** The region of handleRefreshErr, which has sorted the error and rendered its message before:
      terminal errors wipe both tokens whatever the state was; a transient one only records the
      message and falls back on a token that is still hard-valid. */
  function RefreshFailed(s: Session, verdict: Verdict, message: string, now: int): (Session, Outcome) {
    var wiped := s.creds.(accessToken := "", refreshToken := "");
    match verdict
    case ReauthVerdict => (Session(wiped, ReauthRequired, message), Fail(NeedsReauth))
    case TierVerdict => (Session(wiped, TierDenied, message), Fail(DeniedTier))
    case TransientVerdict =>
      (s.(lastError := message),
       if HardValid(s.creds, now) then Token(s.creds.accessToken) else Fail(Unavailable))
  }

  // ----- handoff, rollback, logout

  /** Handoff's region on a ready session. */
  const DRAINED := Session(NO_CREDS, HandedOff, "handed_off")

  /** RestoreHandoff. */
  function Restore(s: Session, d: Creds): Session {
    if s.state != HandedOff then s else Session(d, Ready, "")
  }

  /** Clear. */
  const CLEARED := Session(NO_CREDS, ReauthRequired, "logged_out")

  // ----- reports

  function StateName(st: State): string {
    match st
    case Ready => "ready"
    case ReauthRequired => "reauth_required"
    case TierDenied => "tier_denied"
    case HandedOff => "handed_off"
  }

  const DEGRADED := "degraded"

  /** Ready. */
  function Readiness(s: Session, now: int): (bool, string) {
    if s.state != Ready then (false, StateName(s.state))
    else if HardValid(s.creds, now) || s.lastError == "" then (true, StateName(Ready))
    else (false, DEGRADED)
  }

  datatype StatusReport = StatusReport(state: State, expiresAt: int, hasExpiry: bool, tokenValid: bool,
                                       lastError: string)

  /** Status. */
  function StatusOf(s: Session, now: int): StatusReport {
    var expiresAt := if s.creds.hasExpiry then s.creds.expiresAt else ZERO_TIME;
    StatusReport(s.state, expiresAt, s.creds.hasExpiry, HardValid(s.creds, now), s.lastError)
  }

  // ----- what every reachable session satisfies

  /** Credentials that a later refresh or takeover can work with. */
  ghost predicate Usable(o: Oracle, c: Creds) {
    && !Blank(c.accessToken)
    && !Blank(c.refreshToken)
    && o.validEndpoint(c.tokenEndpoint)
    && (!c.hasExpiry ==> o.jwtExp(c.accessToken) <= 0)
  }

  /** A ready session holds usable credentials; every other session holds no token at all. */
  ghost predicate Sound(o: Oracle, s: Session) {
    if s.state.Ready? then Usable(o, s.creds)
    else s.creds.accessToken == "" && s.creds.refreshToken == ""
  }
}
