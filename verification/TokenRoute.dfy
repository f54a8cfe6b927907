/** GET /token from the session's outcome to the client's error (internal/server/server.go and
    client/client.go). */
module TokenRoute {
  import opened Basics
  import opened Tokens
  import opened SessionSpec
  import opened Interleaving
  import opened Invariant
  import opened Lifecycle
  import opened Reads

  datatype TokenReply = TokenReply(status: nat, error: string, accessToken: string)

  /** handleToken. The session's outcome counts only for callers with the right secret. */
  function HandleToken(authorized: bool, out: Outcome): TokenReply {
    if !authorized then TokenReply(401, "unauthorized", "")
    else
      match out
      case Token(tok) => TokenReply(200, "", tok)
      case Fail(NeedsReauth) => TokenReply(401, "reauth_required", "")
      case Fail(DeniedTier) => TokenReply(403, "tier_denied", "")
      case Fail(Unavailable) => TokenReply(503, "unavailable", "")
      case Fail(Crashed) => TokenReply(503, "unavailable", "")
  }

  datatype ClientError = ClientReauthRequired | ClientUnauthorized | ClientTierDenied | ClientUnavailable | ClientOther

  /** mapHTTPError, up to the message. */
  function MapHTTPError(status: nat, error: string): ClientError {
    var code := Trim(error);
    if status == 401 && code == "reauth_required" then ClientReauthRequired
    else if status == 401 && (code == "unauthorized" || code == "") then ClientUnauthorized
    else if status == 403 && code == "tier_denied" then ClientTierDenied
    else if status == 503 || code == "unavailable" then ClientUnavailable
    else ClientOther
  }

  /** Client.Get on a reply that arrives and decodes. */
  function ClientGet(r: TokenReply): Result<string, ClientError> {
    if r.status == 200 then
      if Blank(r.accessToken) then Err(ClientOther) else Ok(r.accessToken)
    else Err(MapHTTPError(r.status, r.error))
  }

  /** The route answers 200 exactly with a token, 401 exactly to a wrong secret or from a session that
      needs a login, 403 exactly from a denied one, and 503 exactly where a later try may succeed; the
      error names the case, and no token leaves with it. */
  lemma RouteIsExact(authorized: bool, out: Outcome)
    ensures var r := HandleToken(authorized, out);
            && (r.status == 200 <==> authorized && out.Token?)
            && (r.status == 401 <==> !authorized || out == Fail(NeedsReauth))
            && (r.status == 403 <==> authorized && out == Fail(DeniedTier))
            && (r.status == 503 <==> authorized && (out == Fail(Unavailable) || out == Fail(Crashed)))
            && (!authorized ==> r.error == "unauthorized")
            && (r.status == 401 && authorized ==> r.error == "reauth_required")
            && (r.status == 403 ==> r.error == "tier_denied")
            && (r.status == 503 ==> r.error == "unavailable")
            && r.accessToken == if r.status == 200 then out.token else ""
  {
  }

  /** The client's reading of any reply other than a 200, by the status and by the error without the
      white space at its ends. */
  lemma ClientMapsExactly(status: nat, error: string, code: string)
    requires TrimsTo(error, code)
    ensures var e := MapHTTPError(status, error);
            && (e == ClientReauthRequired <==> status == 401 && code == "reauth_required")
            && (e == ClientUnauthorized <==> status == 401 && (code == "unauthorized" || code == ""))
            && (e == ClientTierDenied <==> status == 403 && code == "tier_denied")
            && (e == ClientUnavailable <==> status == 503 || code == "unavailable")
  {
    TrimIsExact(error, code);
    assert "reauth_required"[0] == 'r' && "tier_denied"[0] == 't';
    assert |"unauthorized"| == 12 && |"unavailable"| == 11;
  }

  lemma TrimmedCodes()
    ensures forall out :: Trim(HandleToken(true, out).error) == HandleToken(true, out).error
    ensures forall out :: Trim(HandleToken(false, out).error) == HandleToken(false, out).error
  {
    TrimLeavesTidyAlone("unauthorized");
    TrimLeavesTidyAlone("reauth_required");
    TrimLeavesTidyAlone("tier_denied");
    TrimLeavesTidyAlone("unavailable");
    TrimLeavesTidyAlone("");
  }

  /** The client's verdict is the session's: each sentinel stands for exactly the outcomes it names,
      a recovered panic counts as unavailable, and a rejected secret is never a terminal error. */
  lemma ClientSeesTheOutcome(authorized: bool, out: Outcome)
    requires out.Token? ==> !Blank(out.token)
    ensures var r := ClientGet(HandleToken(authorized, out));
            && (r == Err(ClientUnauthorized) <==> !authorized)
            && (r == Err(ClientReauthRequired) <==> authorized && out == Fail(NeedsReauth))
            && (r == Err(ClientTierDenied) <==> authorized && out == Fail(DeniedTier))
            && (r == Err(ClientUnavailable) <==> authorized && (out == Fail(Unavailable) || out == Fail(Crashed)))
            && (r.Ok? <==> authorized && out.Token?)
            && (r.Ok? ==> out == Token(r.value))
  {
    TrimmedCodes();
    assert "reauth_required"[0] == 'r' && "unauthorized"[0] == 'u';
  }

  /** End to end: under every interleaving, a client told that the session is over, or that the
      account is denied, talked to a session that is dead at that moment and ever after. */
  lemma ClientTerminalErrorsAreTrue(o: Oracle, tr: Trace, t: nat, authorized: bool, out: Outcome, i: nat, j: nat)
    requires IsRun(o, tr) && i <= j < |tr.states| && t < |tr.states[i].threads|
    requires tr.states[i].threads[t] == GetDone(out)
    requires ClientGet(HandleToken(authorized, out)).Err?
    requires var e := ClientGet(HandleToken(authorized, out)).error; e == ClientReauthRequired || e == ClientTierDenied
    ensures Dead(tr.states[j].sh.session)
  {
    TrimmedCodes();
    assert out.Fail? && Terminal(out.failure);
    TerminalErrorsAreTrue(o, tr, t, out.failure, i, j);
  }

  /** And nobody is told so while there was no logout and no condemning answer from the IdP. */
  lemma NoFalseTerminalErrors(o: Oracle, tr: Trace, t: nat, authorized: bool, out: Outcome, i: nat)
    requires TrimsFirst(o)
    requires IsRun(o, tr) && i < |tr.states| && NothingFatal(tr, i) && t < |tr.states[i].threads|
    requires tr.states[i].threads[t] == GetDone(out)
    ensures ClientGet(HandleToken(authorized, out)) != Err(ClientReauthRequired)
    ensures ClientGet(HandleToken(authorized, out)) != Err(ClientTierDenied)
  {
    TrimmedCodes();
    DeathHasACause(o, tr, i);
    assert !CarriesTerminal(OutcomeOf(tr.states[i].threads[t]));
  }

  /** A token that a call returns reaches an authorized client unchanged, and it was the ready
      session's token at some instant of the call. */
  lemma ClientTokensAreCurrent(o: Oracle, tr: Trace, t: nat, i: nat, j: nat, tok: string)
    requires IsRun(o, tr) && ReadSpans(tr, t, i, j, tok)
    ensures ClientGet(HandleToken(true, Token(tok))) == Ok(tok)
    ensures exists k :: i < k <= j && Holding(tr.states[k].sh, tok)
  {
    LinearizableRead(o, tr, t, i, j, tok);
    var k :| i < k <= j && Holding(tr.states[k].sh, tok);
    RunInv(o, tr, k);
  }
}
