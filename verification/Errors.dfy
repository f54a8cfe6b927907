/** Protocol errors and their classification (internal/protocol/errors.go). */
module Errors {
  import opened Basics

  datatype Sentinel = ErrReauthRequired | ErrTierDenied | ErrUnavailable | ErrUnauthorized

  /** A non-nil Go error: a *protocol.Error, a sentinel, one error wrapping another with %w,
      or an error of some other package that wraps nothing. */
  datatype Error =
    | Protocol(code: string, message: string, httpStatus: int, kind: string)
    | Plain(sentinel: Sentinel)
    | Wrapped(context: string, inner: Error)
    | Opaque(text: string)

  function NewError(code: string, msg: string, kind: string): Error {
    Protocol(code, if msg != "" && msg != code then msg else code, 0, kind)
  }

  function WithStatus(code: string, status: nat): (r: string)
    ensures r != ""
  {
    code + " (HTTP " + Itoa(status) + ")"
  }

  function WrapHTTP(code: string, status: nat, kind: string): Error {
    Protocol(code, WithStatus(code, status), status, kind)
  }

  /** errors.Unwrap. */
  function Unwrap(e: Error): Option<Error> {
    match e
    case Protocol(_, _, _, kind) =>
      if kind == "reauth" then Some(Plain(ErrReauthRequired))
      else if kind == "tier" then Some(Plain(ErrTierDenied))
      else if kind == "transient" then Some(Plain(ErrUnavailable))
      else None
    case Plain(_) => None
    case Wrapped(_, inner) => Some(inner)
    case Opaque(_) => None
  }

  function Height(e: Error): nat {
    match e
    case Protocol(_, _, _, _) => 1
    case Plain(_) => 0
    case Wrapped(_, inner) => 2 + Height(inner)
    case Opaque(_) => 0
  }

  /** errors.Is(e, target). */
  predicate Is(e: Error, target: Sentinel)
    decreases Height(e)
  {
    e == Plain(target) ||
    match Unwrap(e)
    case None => false
    case Some(inner) => Is(inner, target)
  }

  /** errors.As(e, &pe): the first *protocol.Error met while unwrapping. */
  function AsProtocol(e: Error): (r: Option<Error>)
    ensures r.Some? ==> r.value.Protocol?
    decreases Height(e)
  {
    if e.Protocol? then Some(e)
    else
      match Unwrap(e)
      case None => None
      case Some(inner) => AsProtocol(inner)
  }

  /** The text stored in last_error. */
  function PublicMessage(e: Error): (r: string)
    ensures r != ""
  {
    var pe := AsProtocol(e);
    if pe.Some? && pe.value.code != "" then
      if pe.value.httpStatus > 0 then WithStatus(pe.value.code, pe.value.httpStatus) else pe.value.code
    else if Is(e, ErrReauthRequired) then "reauth_required"
    else if Is(e, ErrTierDenied) then "tier_denied"
    else if Is(e, ErrUnavailable) then "unavailable"
    else "error"
  }

  datatype Verdict = ReauthVerdict | TierVerdict | TransientVerdict

  /** How handleRefreshErr sorts an error: first by the kind of the protocol error inside it,
      then by the sentinels it wraps (internal/session/session.go, lines 340-379). */
  function RefreshVerdict(e: Error): Verdict {
    var pe := AsProtocol(e);
    if pe.Some? && pe.value.kind == "reauth" then ReauthVerdict
    else if pe.Some? && pe.value.kind == "tier" then TierVerdict
    else if Is(e, ErrReauthRequired) then ReauthVerdict
    else if Is(e, ErrTierDenied) then TierVerdict
    else TransientVerdict
  }

  /** The sentinel at the end of the unwrap chain, if it ends in one. */
  function Root(e: Error): Option<Sentinel>
    decreases Height(e)
  {
    match Unwrap(e)
    case Some(inner) => Root(inner)
    case None => if e.Plain? then Some(e.sentinel) else None
  }

  lemma {:induction false} IsMeansRoot(e: Error, target: Sentinel)
    ensures Is(e, target) <==> Root(e) == Some(target)
    decreases Height(e)
  {
    match Unwrap(e)
    case None =>
    case Some(inner) => IsMeansRoot(inner, target);
  }

  lemma {:induction false} ProtocolKindDecidesRoot(e: Error)
    requires AsProtocol(e).Some?
    ensures Root(e) == Root(AsProtocol(e).value)
    decreases Height(e)
  {
    if !e.Protocol? {
      ProtocolKindDecidesRoot(Unwrap(e).value);
    }
  }

  /** The two passes of handleRefreshErr never disagree: the verdict is the sentinel at the end
      of the unwrap chain, and everything without a terminal sentinel is transient. */
  lemma VerdictIsRoot(e: Error)
    ensures RefreshVerdict(e) == ReauthVerdict <==> Root(e) == Some(ErrReauthRequired)
    ensures RefreshVerdict(e) == TierVerdict <==> Root(e) == Some(ErrTierDenied)
  {
    IsMeansRoot(e, ErrReauthRequired);
    IsMeansRoot(e, ErrTierDenied);
    if AsProtocol(e).Some? {
      ProtocolKindDecidesRoot(e);
      assert Root(Plain(ErrReauthRequired)) == Some(ErrReauthRequired);
      assert Root(Plain(ErrTierDenied)) == Some(ErrTierDenied);
    }
  }

  /** What is shown of an error is the code of the protocol error inside it, with the HTTP status if it
      has one, or else the name of the sentinel at its end; no other text of the error gets out. */
  lemma MessageIsExact(e: Error)
    ensures var pe := AsProtocol(e);
            PublicMessage(e) ==
            if pe.Some? && pe.value.code != "" then
              (if pe.value.httpStatus > 0 then pe.value.code + " (HTTP " + Itoa(pe.value.httpStatus) + ")"
               else pe.value.code)
            else if Root(e) == Some(ErrReauthRequired) then "reauth_required"
            else if Root(e) == Some(ErrTierDenied) then "tier_denied"
            else if Root(e) == Some(ErrUnavailable) then "unavailable"
            else "error"
  {
    IsMeansRoot(e, ErrReauthRequired);
    IsMeansRoot(e, ErrTierDenied);
    IsMeansRoot(e, ErrUnavailable);
  }

  const MAX_ERROR_CODE_LEN := 64

  predicate IsCodeChar(c: char) {
    'a' <= c <= 'z' || '0' <= c <= '9' || c == '_'
  }

  /** sanitizeOAuthErrorCode, on characters below U+0100. */
  function SanitizeOAuthErrorCode(raw: string): (r: string)
    ensures |r| <= MAX_ERROR_CODE_LEN
    ensures forall c :: c in r ==> IsCodeChar(c)
  {
    var code := Trim(ToLower(raw));
    if code == "" || |code| > MAX_ERROR_CODE_LEN then ""
    else if forall i :: 0 <= i < |code| ==> IsCodeChar(code[i]) then code
    else ""
  }

  /** raw is code, but for case and for white space at the ends. */
  ghost predicate Spells(raw: string, code: string) {
    exists t :: TrimsTo(raw, t) && ToLower(t) == code
  }

  /** 1 to 64 lower-case letters, digits and underscores. */
  predicate WellFormed(code: string) {
    1 <= |code| <= 64 && forall i :: 0 <= i < |code| ==> IsCodeChar(code[i])
  }

  lemma SpellingIsUnique(raw: string, code: string)
    ensures Spells(raw, code) <==> code == Trim(ToLower(raw))
  {
    var t := Trim(raw);
    TrimIsExact(raw, t);
    LowerKeepsTrimming(raw, t);
    TrimIsExact(ToLower(raw), ToLower(t));
    if Spells(raw, code) {
      var u :| TrimsTo(raw, u) && ToLower(u) == code;
      TrimIsUnique(raw, t, u);
    }
  }

  /** Sanitizing gives the code that the text spells, if it spells a well-formed one, and nothing
      otherwise. */
  lemma SanitizingIsExact(raw: string, code: string)
    requires code != ""
    ensures SanitizeOAuthErrorCode(raw) == code <==> WellFormed(code) && Spells(raw, code)
  {
    SpellingIsUnique(raw, code);
  }

  lemma NothingIsLeftExactlyWhen(raw: string)
    ensures SanitizeOAuthErrorCode(raw) == "" <==> forall code :: Spells(raw, code) ==> !WellFormed(code)
  {
    forall code ensures Spells(raw, code) <==> code == Trim(ToLower(raw)) {
      SpellingIsUnique(raw, code);
    }
    var c := Trim(ToLower(raw));
    assert Spells(raw, c);
  }

  /** Sanitizing leaves exactly the well-formed codes, and nothing, as they are. */
  lemma CleanCodesPassThrough(raw: string)
    ensures SanitizeOAuthErrorCode(raw) == raw <==> raw == "" || WellFormed(raw)
  {
    if raw == "" || WellFormed(raw) {
      assert ToLower(raw) == raw;
      TrimLeavesTidyAlone(raw);
    }
    var r := SanitizeOAuthErrorCode(raw);
    assert forall i :: 0 <= i < |r| ==> r[i] in r;
  }
}
