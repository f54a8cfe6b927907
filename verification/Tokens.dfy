/** Token endpoint answers: expiry (internal/protocol/jwt.go) and the refresh call
    (internal/protocol/refresh.go). */
module Tokens {
  import opened Basics
  import opened Errors
  import opened HostPin

  /** What the session asks of code it does not look into: whether ValidateXAIURL accepts an
      endpoint, and the exp claim of a JWT in seconds (0 when there is none). */
  datatype Oracle = Oracle(validEndpoint: string -> bool, jwtExp: string -> int)

  /** validEndpoint is the host pin over some URL parser. */
  ghost predicate Pinned(o: Oracle, parse: string -> Option<URL>) {
    forall raw :: o.validEndpoint(raw) <==> ValidXAIURL(parse, raw)
  }

  /** ValidateXAIURL trims before it looks. */
  ghost predicate TrimsFirst(o: Oracle) {
    forall raw {:trigger Trim(raw)} :: o.validEndpoint(raw) ==> Trim(raw) != "" && o.validEndpoint(Trim(raw))
  }

  lemma PinnedTrimsFirst(o: Oracle, parse: string -> Option<URL>)
    requires Pinned(o, parse)
    ensures TrimsFirst(o)
  {
  }

  datatype TokenResponse = TokenResponse(accessToken: string, refreshToken: string, expiresIn: Int64, tokenType: string)

  datatype Expiry = Expiry(at: int, known: bool)

  /** ExpiresAtFromToken; the Duration multiplication wraps like an int64. */
  function ExpiresAtFromToken(o: Oracle, accessToken: string, expiresIn: Int64, receivedAt: int): (e: Expiry)
    ensures !e.known <==> expiresIn <= 0 && o.jwtExp(accessToken) <= 0
  {
    if expiresIn > 0 then Expiry(receivedAt + Wrap64(expiresIn * SECOND), true)
    else if o.jwtExp(accessToken) > 0 then Expiry(o.jwtExp(accessToken) * SECOND, true)
    else Expiry(ZERO_TIME, false)
  }

  /** What the expiry of a token received at the given time has to be: so many seconds later, with the
      product taken modulo 2^64; without positive seconds the exp claim; without either, unknown. */
  ghost predicate Expires(o: Oracle, accessToken: string, expiresIn: Int64, receivedAt: int, at: int, known: bool) {
    if 1 <= expiresIn <= MAX_SECONDS then known && at == receivedAt + expiresIn * SECOND
    else if expiresIn > MAX_SECONDS then
      && known && MIN_INT64 <= at - receivedAt <= MAX_INT64
      && (at - receivedAt) % 0x1_0000_0000_0000_0000 == (expiresIn * SECOND) % 0x1_0000_0000_0000_0000
    else if o.jwtExp(accessToken) > 0 then known && at == o.jwtExp(accessToken) * SECOND
    else !known
  }

  lemma ExpiryIsExact(o: Oracle, accessToken: string, expiresIn: Int64, receivedAt: int)
    ensures var e := ExpiresAtFromToken(o, accessToken, expiresIn, receivedAt);
            Expires(o, accessToken, expiresIn, receivedAt, e.at, e.known)
  {
    if expiresIn > MAX_SECONDS {
      WrapIsResidue(expiresIn * SECOND);
      ResidueOfWrap(expiresIn * SECOND);
    }
  }

  /** A response body, as the two JSON decodings of refresh.go see it. */
  datatype Body = Body(oauthError: Option<string>, token: Option<TokenResponse>)

  datatype HttpReply = TransportFailed | HttpReply(status: nat, body: Body)

  /** All that a refresh call hears from outside. discovery is consulted only when the session
      has no endpoint. A panic inside the call is an outcome of its own. */
  datatype IdpAnswer =
    | Answered(discovery: Result<string, Error>, http: HttpReply)
    | Panicked

  const REAUTH_CODES := ["invalid_grant", "invalid_client"]

  function ParseOAuthError(b: Body): string {
    if b.oauthError.None? then "" else SanitizeOAuthErrorCode(b.oauthError.value)
  }

  /** The OAuth error in the body is this code, but for case and for white space at the ends. */
  ghost predicate SaysError(b: Body, code: string) {
    b.oauthError.Some? && Spells(b.oauthError.value, code)
  }

  lemma ParsedErrorIsSaid(b: Body, code: string)
    requires WellFormed(code)
    ensures ParseOAuthError(b) == code <==> SaysError(b, code)
  {
    if b.oauthError.Some? {
      SanitizingIsExact(b.oauthError.value, code);
    }
  }

  /** protocol.Refresh. */
  function Refresh(o: Oracle, tokenEndpoint: string, refreshToken: string,
                   discovery: Result<string, Error>, http: HttpReply): (r: Result<TokenResponse, Error>)
    ensures r.Ok? ==> !Blank(r.value.accessToken) && !Blank(r.value.refreshToken)
  {
    if Blank(refreshToken) then Err(NewError("missing_refresh", "missing refresh_token", "reauth"))
    else
      var endpoint := Trim(tokenEndpoint);
      if endpoint == "" && discovery.Err? then Err(discovery.error)
      else
        var target := if endpoint == "" then discovery.value else endpoint;
        if !o.validEndpoint(target) then
          Err(NewError("discovery_invalid", "token_endpoint failed validation", "reauth"))
        else RefreshReply(refreshToken, http)
  }

  /** The part of Refresh behind the HTTP request. */
  function RefreshReply(refreshToken: string, http: HttpReply): (r: Result<TokenResponse, Error>)
    requires !Blank(refreshToken)
    ensures r.Ok? ==> !Blank(r.value.accessToken) && !Blank(r.value.refreshToken)
  {
    match http
    case TransportFailed => Err(NewError("refresh_failed", "token refresh request failed", "transient"))
    case HttpReply(status, body) =>
      if status == 403 then Err(Protocol("tier_denied", "xai_oauth_tier_denied (HTTP 403)", 403, "tier"))
      else if status != 200 then
        Err(WrapHTTP("refresh_failed", status, if ParseOAuthError(body) in REAUTH_CODES then "reauth" else "transient"))
      else
        match body.token
        case None => Err(NewError("refresh_failed", "invalid refresh JSON", "transient"))
        case Some(tr) =>
          if Blank(tr.accessToken) then
            Err(NewError("missing_access", "refresh response missing access_token", "reauth"))
          else
            Ok(tr.(refreshToken := if Blank(tr.refreshToken) then refreshToken else tr.refreshToken,
                   tokenType := if tr.tokenType == "" then "Bearer" else tr.tokenType))
  }

  ghost predicate RejectsGrant(b: Body) {
    SaysError(b, "invalid_grant") || SaysError(b, "invalid_client")
  }

  lemma RejectionIsParsed(b: Body)
    ensures ParseOAuthError(b) in REAUTH_CODES <==> RejectsGrant(b)
  {
    ParsedErrorIsSaid(b, "invalid_grant");
    ParsedErrorIsSaid(b, "invalid_client");
  }

  /** Before any request: without a refresh token, and with an endpoint that does not hold, a new login is
      needed; the endpoint is discovered exactly if there is none, and a failed discovery is the error. */
  lemma RequestIsCheckedFirst(o: Oracle, ep: string, text: string, rt: string, discovery: Result<string, Error>,
                              http: HttpReply)
    requires TrimsTo(ep, text)
    ensures var r := Refresh(o, ep, rt, discovery, http);
            if Blank(rt) then
              r.Err? && PublicMessage(r.error) == "missing_refresh" && Root(r.error) == Some(ErrReauthRequired)
            else if text == "" && discovery.Err? then r == Err(discovery.error)
            else if !o.validEndpoint(if text == "" then discovery.value else text) then
              r.Err? && PublicMessage(r.error) == "discovery_invalid" && Root(r.error) == Some(ErrReauthRequired)
            else r == RefreshReply(rt, http)
  {
    TrimIsExact(ep, text);
    assert Root(Plain(ErrReauthRequired)) == Some(ErrReauthRequired);
  }

  /** Answers that end the session: a 403, a 200 without an access token, or any other failure whose
      body says, in any case and between any white space, invalid_grant or invalid_client. */
  ghost predicate Condemns(answer: IdpAnswer) {
    answer.Answered? && answer.http.HttpReply? &&
    var body := answer.http.body;
    if answer.http.status == 403 then true
    else if answer.http.status == 200 then body.token.Some? && Blank(body.token.value.accessToken)
    else RejectsGrant(body)
  }

  /** With a valid endpoint and a refresh token in hand, discovery is never consulted and the
      verdict on a failed refresh is terminal exactly for the condemning answers. */
  lemma TerminalVerdictIffCondemned(o: Oracle, ep: string, rt: string, discovery: Result<string, Error>,
                                    http: HttpReply)
    requires TrimsFirst(o) && o.validEndpoint(ep) && !Blank(rt)
    ensures var r := Refresh(o, ep, rt, discovery, http);
            && r == RefreshReply(rt, http)
            && (r.Err? && RefreshVerdict(r.error) != TransientVerdict <==> Condemns(Answered(discovery, http)))
            && (r.Err? && RefreshVerdict(r.error) == TierVerdict <==> http.HttpReply? && http.status == 403)
  {
    var r := Refresh(o, ep, rt, discovery, http);
    if r.Err? {
      VerdictIsRoot(r.error);
    }
    if http.HttpReply? {
      RejectionIsParsed(http.body);
    }
  }

  /** The answer grants a new access token. */
  predicate Grants(answer: IdpAnswer) {
    answer.Answered? && answer.http.HttpReply? && answer.http.status == 200
    && answer.http.body.token.Some? && !Blank(answer.http.body.token.value.accessToken)
  }

  /** The refresh token that comes with a grant, if one does. */
  function Offer(answer: IdpAnswer): Option<string> {
    if Grants(answer) && !Blank(answer.http.body.token.value.refreshToken)
    then Some(answer.http.body.token.value.refreshToken) else None
  }

  /** Exactly the granting answers refresh the session, with the access token and the expires_in of the
      answer, and with the refresh token in the answer or, when there is none, the one presented. */
  lemma RefreshKeepsOrRotates(o: Oracle, ep: string, rt: string, discovery: Result<string, Error>, http: HttpReply)
    requires TrimsFirst(o) && o.validEndpoint(ep) && !Blank(rt)
    ensures var r := Refresh(o, ep, rt, discovery, http);
            var answer := Answered(discovery, http);
            && (r.Ok? <==> Grants(answer))
            && (r.Ok? ==>
                  && r.value.accessToken == http.body.token.value.accessToken
                  && r.value.expiresIn == http.body.token.value.expiresIn
                  && r.value.tokenType == (if http.body.token.value.tokenType == "" then "Bearer"
                                           else http.body.token.value.tokenType)
                  && r.value.refreshToken == if Offer(answer).Some? then Offer(answer).value else rt)
  {
  }

  /** What last_error says after a failed refresh: a fixed name and the HTTP status, and nothing of what
      the IdP wrote. */
  lemma FailureTextsAreFixed(o: Oracle, ep: string, rt: string, discovery: Result<string, Error>, http: HttpReply)
    requires TrimsFirst(o) && o.validEndpoint(ep) && !Blank(rt)
    requires Refresh(o, ep, rt, discovery, http).Err?
    ensures PublicMessage(Refresh(o, ep, rt, discovery, http).error) ==
            if http.TransportFailed? then "refresh_failed"
            else if http.status == 200 then (if http.body.token.Some? then "missing_access" else "refresh_failed")
            else if http.status == 403 then "tier_denied" + " (HTTP " + Itoa(403) + ")"
            else if http.status == 0 then "refresh_failed"
            else "refresh_failed" + " (HTTP " + Itoa(http.status) + ")"
  {
    TerminalVerdictIffCondemned(o, ep, rt, discovery, http);
  }
}
