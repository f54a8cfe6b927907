/** The session as the program keeps it: an object whose methods update its fields in place
    (internal/session/session.go). Each method below is one region of the source or a whole call
    made of such regions; its contract ties the new fields to the functions of SessionSpec.
    Refinement.dfy ties the regions to the steps of Interleaving. */
module LiveSession {
  import opened Basics
  import opened Errors
  import opened Tokens
  import opened SessionSpec
  import opened Interleaving

  // The only key the session's singleflight is used with.
  const KEY := "token"

  class SessionObject {
    var accessToken: string
    var refreshToken: string
    var tokenEndpoint: string
    var expiresAt: int
    var hasExpiry: bool
    var state: State
    var lastError: string

    // The caller that holds opMu; singleflight.m, from keys to call objects; the call objects.
    var opMu: Option<nat>
    var m: map<string, nat>
    var calls: seq<Call>

    /** The fields under mu, as a value. */
    function Fields(): Session
      reads this
    {
      Session(Creds(accessToken, refreshToken, tokenEndpoint, expiresAt, hasExpiry), state, lastError)
    }

    /** Everything callers share, as a state of the interleaving. */
    function View(now: int): Shared
      reads this
    {
      Shared(Fields(), opMu, if KEY in m then Some(m[KEY]) else None, calls, now)
    }

    constructor FromLogin(s: Session)
      ensures Fields() == s && opMu == None && m == map[] && calls == []
    {
      accessToken, refreshToken := s.creds.accessToken, s.creds.refreshToken;
      tokenEndpoint := s.creds.tokenEndpoint;
      expiresAt, hasExpiry := s.creds.expiresAt, s.creds.hasExpiry;
      state, lastError := s.state, s.lastError;
      opMu, m, calls := None, map[], [];
    }

    // ----- regions that only look

    method StillFresh(now: int) returns (ok: bool)
      ensures ok == Fresh(Fields().creds, now)
    {
      if accessToken == "" {
        return false;
      }
      if !hasExpiry {
        return false;
      }
      ok := now < expiresAt - REFRESH_SKEW;
    }

    method HardValidNow(now: int) returns (valid: bool)
      ensures valid == HardValid(Fields().creds, now)
    {
      if accessToken == "" {
        return false;
      }
      if !hasExpiry {
        return false;
      }
      valid := now < expiresAt;
    }

    method Look(now: int) returns (gate: Gate)
      ensures gate == CheckGate(Fields(), now)
    {
      match state
      case ReauthRequired => gate := Refused(NeedsReauth);
      case TierDenied => gate := Refused(DeniedTier);
      case HandedOff => gate := Refused(Unavailable);
      case Ready =>
        var ok := StillFresh(now);
        gate := if ok then Hit(accessToken) else Miss;
    }

    method Ready(now: int) returns (ready: bool, reason: string)
      ensures (ready, reason) == Readiness(Fields(), now)
    {
      if !state.Ready? {
        return false, StateName(state);
      }
      var valid := HardValidNow(now);
      if valid || lastError == "" {
        return true, StateName(State.Ready);
      }
      return false, DEGRADED;
    }

    method Status(now: int) returns (st: StatusReport)
      ensures st == StatusOf(Fields(), now)
    {
      var valid := HardValidNow(now);
      st := StatusReport(state, ZERO_TIME, hasExpiry, valid, lastError);
      if hasExpiry {
        st := st.(expiresAt := expiresAt);
      }
    }

    // ----- the lock and the singleflight

    method LockOp(t: nat)
      requires opMu.None?
      modifies `opMu
      ensures opMu == Some(t)
    {
      opMu := Some(t);
    }

    method UnlockOp()
      modifies `opMu
      ensures opMu == None
    {
      opMu := None;
    }

    /** The first region of singleflight.Do. */
    method Join(t: nat, ghost now: int) returns (pc: PC)
      modifies `m, `calls
      ensures (View(now), pc) == JoinFlight(old(View(now)), t)
    {
      if KEY in m {
        pc := Wait(m[KEY]);
      } else {
        var c := |calls|;
        calls := calls + [Call(t, None)];
        m := m[KEY := c];
        pc := Lead(c);
      }
    }

    /** Filling in the call object and wg.Done. */
    method Publish(c: nat, out: Outcome)
      requires c < |calls|
      modifies `calls
      ensures calls == Finish(old(calls), c, out)
    {
      calls := calls[c := calls[c].(result := Some(out))];
    }

    /** The deferred delete. */
    method Forget()
      modifies `m
      ensures KEY !in m
    {
      m := m - {KEY};
    }

    // ----- regions of refreshIfNeeded and handleRefreshErr

    method NoteMissingRefresh()
      modifies `state, `lastError, `accessToken
      ensures Fields() == MissingRefresh(old(Fields()))
    {
      state := ReauthRequired;
      lastError := "missing_refresh";
      accessToken := "";
    }

    method StoreTokens(tr: TokenResponse, e: Expiry) returns (out: Outcome)
      modifies `accessToken, `refreshToken, `expiresAt, `hasExpiry, `state, `lastError
      ensures (Fields(), out) == Install(old(Fields()), tr, e)
    {
      match state {
        case ReauthRequired => return Fail(NeedsReauth);
        case TierDenied => return Fail(DeniedTier);
        case HandedOff => return Fail(Unavailable);
        case Ready =>
      }
      if refreshToken == "" {
        state := ReauthRequired;
        lastError := "logged_out";
        accessToken := "";
        return Fail(NeedsReauth);
      }
      accessToken := tr.accessToken;
      refreshToken := tr.refreshToken;
      expiresAt := e.at;
      hasExpiry := e.known;
      state := State.Ready;
      lastError := "";
      out := Token(accessToken);
    }

    method WipeTokens(next: State, message: string)
      modifies `accessToken, `refreshToken, `state, `lastError
      ensures Fields() == Session(old(Fields()).creds.(accessToken := "", refreshToken := ""), next, message)
    {
      state := next;
      lastError := message;
      accessToken := "";
      refreshToken := "";
    }

    method NoteTransient(message: string, now: int) returns (out: Outcome)
      modifies `lastError
      ensures (Fields(), out) == RefreshFailed(old(Fields()), TransientVerdict, message, now)
    {
      lastError := message;
      var valid := HardValidNow(now);
      out := if valid then Token(accessToken) else Fail(Unavailable);
    }

    /** handleRefreshErr, with its two passes over the error. */
    method HandleRefreshErr(err: Error, now: int) returns (out: Outcome)
      modifies `accessToken, `refreshToken, `state, `lastError
      ensures (Fields(), out) == RefreshFailed(old(Fields()), RefreshVerdict(err), PublicMessage(err), now)
    {
      var pub := PublicMessage(err);
      var pe := AsProtocol(err);
      if pe.Some? && pe.value.kind == "reauth" {
        WipeTokens(ReauthRequired, pub);
        return Fail(NeedsReauth);
      }
      if pe.Some? && pe.value.kind == "tier" {
        WipeTokens(TierDenied, pub);
        return Fail(DeniedTier);
      }
      if Is(err, ErrReauthRequired) {
        WipeTokens(ReauthRequired, pub);
        return Fail(NeedsReauth);
      }
      if Is(err, ErrTierDenied) {
        WipeTokens(TierDenied, pub);
        return Fail(DeniedTier);
      }
      out := NoteTransient(pub, now);
    }

    // ----- handoff, rollback, logout

    method Drop(next: State, message: string)
      modifies `accessToken, `refreshToken, `tokenEndpoint, `expiresAt, `hasExpiry, `state, `lastError
      ensures Fields() == Session(NO_CREDS, next, message)
    {
      accessToken := "";
      refreshToken := "";
      tokenEndpoint := "";
      expiresAt := ZERO_TIME;
      hasExpiry := false;
      state := next;
      lastError := message;
    }

    /** Handoff's region, opMu held. */
    method Drain() returns (d: Option<Creds>, found: State)
      modifies `accessToken, `refreshToken, `tokenEndpoint, `expiresAt, `hasExpiry, `state, `lastError
      ensures old(state).Ready? ==> d == Some(old(Fields()).creds) && found == HandedOff && Fields() == DRAINED
      ensures !old(state).Ready? ==> d == None && found == old(state) && Fields() == old(Fields())
    {
      if !state.Ready? {
        return None, state;
      }
      d := Some(Creds(accessToken, refreshToken, tokenEndpoint, expiresAt, hasExpiry));
      Drop(HandedOff, "handed_off");
      found := HandedOff;
    }

    /** Handoff, from the moment opMu is free for it. */
    method Handoff(t: nat) returns (d: Option<Creds>, found: State)
      requires opMu.None?
      modifies `accessToken, `refreshToken, `tokenEndpoint, `expiresAt, `hasExpiry, `state, `lastError, `opMu
      ensures opMu == None
      ensures old(state).Ready? ==> d == Some(old(Fields()).creds) && found == HandedOff && Fields() == DRAINED
      ensures !old(state).Ready? ==> d == None && found == old(state) && Fields() == old(Fields())
    {
      LockOp(t);
      d, found := Drain();
      UnlockOp();
    }

    method RestoreHandoff(d: Option<Creds>)
      modifies `accessToken, `refreshToken, `tokenEndpoint, `expiresAt, `hasExpiry, `state, `lastError
      ensures Fields() == if d.None? then old(Fields()) else Restore(old(Fields()), d.value)
    {
      if d.None? {
        return;
      }
      if !state.HandedOff? {
        return;
      }
      accessToken := d.value.accessToken;
      refreshToken := d.value.refreshToken;
      tokenEndpoint := d.value.tokenEndpoint;
      expiresAt := d.value.expiresAt;
      hasExpiry := d.value.hasExpiry;
      state := State.Ready;
      lastError := "";
    }

    method Clear()
      modifies `accessToken, `refreshToken, `tokenEndpoint, `expiresAt, `hasExpiry, `state, `lastError
      ensures Fields() == CLEARED
    {
      Drop(ReauthRequired, "logged_out");
    }

    // ----- whole calls that meet nobody else

    /** refreshIfNeeded. The clock reads t1 at its own look and t2 once the IdP call is over. */
    method RefreshIfNeeded(o: Oracle, t: nat, t1: int, t2: int, answer: IdpAnswer) returns (out: Outcome)
      requires opMu.None?
      modifies `accessToken, `refreshToken, `expiresAt, `hasExpiry, `state, `lastError, `opMu
      ensures opMu == None
      ensures (Fields(), out) == SoloRefresh(o, old(Fields()), t1, t2, answer)
    {
      LockOp(t);
      var gate := Look(t1);
      match gate {
        case Refused(f) =>
          out := Fail(f);
        case Hit(tok) =>
          out := Token(tok);
        case Miss =>
          var rt, ep := refreshToken, tokenEndpoint;
          if rt == "" {
            NoteMissingRefresh();
            out := Fail(NeedsReauth);
          } else {
            match answer {
              case Panicked =>
                out := Fail(Crashed);
              case Answered(discovery, http) =>
                match Refresh(o, ep, rt, discovery, http) {
                  case Ok(tr) =>
                    out := StoreTokens(tr, ExpiresAtFromToken(o, tr.accessToken, tr.expiresIn, t2));
                  case Err(e) =>
                    out := HandleRefreshErr(e, t2);
                }
            }
          }
      }
      UnlockOp();
    }

    /** GetAccessToken and singleflight.Do: opMu and the singleflight entry are free again at the end,
        even when the refresh panics, and every call object made on the way is filled in. */
    method GetAccessToken(o: Oracle, t: nat, t0: int, t1: int, t2: int, answer: IdpAnswer) returns (out: Outcome)
      requires opMu.None? && KEY !in m
      modifies this
      ensures opMu == None && KEY !in m
      ensures (Fields(), out) == SoloGet(o, old(Fields()), t0, t1, t2, answer)
      ensures Sound(o, old(Fields())) ==>
                && Sound(o, Fields())
                && (out.Token? ==> state.Ready? && accessToken == out.token)
                && (out.Fail? && Terminal(out.failure) ==> Dead(Fields()))
      ensures calls == old(calls) || calls == old(calls) + [Call(t, Some(out))]
    {
      if Sound(o, Fields()) {
        SoloGetServes(o, Fields(), t0, t1, t2, answer);
      }
      var gate := Look(t0);
      match gate {
        case Refused(f) => return Fail(f);
        case Hit(tok) => return Token(tok);
        case Miss =>
      }
      var pc := Join(t, t0);
      out := RefreshIfNeeded(o, t, t1, t2, answer);
      Publish(pc.c, out);
      Forget();
    }
  }

  /** What refreshIfNeeded does to a session nobody else touches. */
  function SoloRefresh(o: Oracle, s: Session, t1: int, t2: int, answer: IdpAnswer): (Session, Outcome) {
    match CheckGate(s, t1)
    case Refused(f) => (s, Fail(f))
    case Hit(tok) => (s, Token(tok))
    case Miss =>
      if s.creds.refreshToken == "" then (MissingRefresh(s), Fail(NeedsReauth))
      else
        match answer
        case Panicked => (s, Fail(Crashed))
        case Answered(discovery, http) =>
          match Refresh(o, s.creds.tokenEndpoint, s.creds.refreshToken, discovery, http)
          case Ok(tr) => Install(s, tr, ExpiresAtFromToken(o, tr.accessToken, tr.expiresIn, t2))
          case Err(e) => RefreshFailed(s, RefreshVerdict(e), PublicMessage(e), t2)
  }

  function SoloGet(o: Oracle, s: Session, t0: int, t1: int, t2: int, answer: IdpAnswer): (Session, Outcome) {
    match CheckGate(s, t0)
    case Refused(f) => (s, Fail(f))
    case Hit(tok) => (s, Token(tok))
    case Miss => SoloRefresh(o, s, t1, t2, answer)
  }

  /** An undisturbed call keeps the session sound; a token it returns is the one the session now
      holds, and a terminal error comes from a session that is now dead. */
  lemma SoloGetServes(o: Oracle, s: Session, t0: int, t1: int, t2: int, answer: IdpAnswer)
    requires Sound(o, s)
    ensures var (s', out) := SoloGet(o, s, t0, t1, t2, answer);
            && Sound(o, s')
            && (out.Token? ==> s'.state.Ready? && s'.creds.accessToken == out.token)
            && (out.Fail? && Terminal(out.failure) ==> Dead(s'))
            && (Dead(s) ==> s' == s)
  {
  }
}
