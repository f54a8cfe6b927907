/** The takeover of a running daemon's session: the handoff response, its reading by the successor,
    the session the successor builds from it, and what repeated takeovers do to the expiry
    (internal/server/server.go, cmd/xai-oauth/takeover.go, cmd/xai-oauth/serve.go). JSON carries
    every field over unchanged. */
module Takeover {
  import opened Basics
  import opened Tokens
  import opened SessionSpec
  import opened Interleaving
  import opened Invariant
  import opened Example

  // ----- the response body

  /** The body of a handoff response; expiresAt is the RFC 3339 stamp in whole Unix seconds. */
  datatype HandoffBody = HandoffBody(accessToken: string, refreshToken: string, tokenEndpoint: string,
                                     hasExpiry: bool, expiresAt: Option<int>)

  function BodyOf(d: Creds): HandoffBody {
    HandoffBody(d.accessToken, d.refreshToken, d.tokenEndpoint, d.hasExpiry,
                if d.hasExpiry then Some(d.expiresAt / SECOND) else None)
  }

  // Years 0000 to 9999 are the ones whose stamps time.Parse reads back.
  const FIRST_STAMP := -62_167_219_200
  const END_OF_STAMPS := 253_402_300_800

  predicate Readable(stamp: int) {
    FIRST_STAMP <= stamp < END_OF_STAMPS
  }

  // ----- the successor reads it

  /** The payload handed on inside the successor (loginHandoff). */
  datatype LoginHandoff = LoginHandoff(secret: string, accessToken: string, refreshToken: string,
                                       tokenEndpoint: string, expiresIn: Int64)

  /** time.Until: the difference saturates at the ends of int64. */
  function Until(t: int, now: int): Int64 {
    if t - now < MIN_INT64 then MIN_INT64 else if t - now > MAX_INT64 then MAX_INT64 else t - now
  }

  /** The largest power of two that is at most n. */
  function PowerBelow(n: nat): (p: nat)
    requires n > 0
    ensures p <= n < 2 * p
  {
    if n == 1 then 1 else 2 * PowerBelow(n / 2)
  }

  // How far the float64 in d.Seconds() can go beyond d, in nanoseconds, and up to how many whole
  // seconds it never does.
  const ROUNDING := 1024
  const EXACT_SECONDS := 9_007_199

  /** What the float64 can have added to a duration that came out as this many seconds. */
  function Gained(seconds: int): int {
    if seconds < EXACT_SECONDS then 0 else ROUNDING
  }

  /** int(d.Seconds()) for a d that is not negative: the float64 of whole seconds and nanoseconds has 53
      bits, so it reaches the next second when what is missing is at most half a unit in the last place. */
  function WholeSeconds(d: Int64): (r: int)
    requires d >= 0
    ensures 0 <= r <= MAX_SECONDS
    ensures d - SECOND < r * SECOND <= d + Gained(r)
    ensures r == d / SECOND || (r == d / SECOND + 1 && d % SECOND >= SECOND - ROUNDING)
  {
    var seconds, missing := d / SECOND, SECOND - d % SECOND;
    if seconds > 0 && missing * 0x20_0000_0000_0000 <= PowerBelow(seconds) * SECOND then seconds + 1 else seconds
  }

  /** The expires_in left of a stamp; 0 when it is absent, unreadable or not ahead of now. */
  function RelativeExpiry(b: HandoffBody, now: int): (r: Int64)
    ensures 0 <= r <= MAX_SECONDS
  {
    if b.hasExpiry && b.expiresAt.Some? && Readable(b.expiresAt.value) then
      WholeSeconds(Max(0, Until(b.expiresAt.value * SECOND, now)))
    else 0
  }

  /** parseHandoffResponse, on a body that decodes. */
  function ParseHandoff(o: Oracle, b: HandoffBody, now: int): Result<LoginHandoff, string> {
    if Blank(b.accessToken) || Blank(b.refreshToken) then Err("handoff response missing tokens")
    else if !o.validEndpoint(b.tokenEndpoint) then Err("token_endpoint")
    else Ok(LoginHandoff("", b.accessToken, b.refreshToken, b.tokenEndpoint, RelativeExpiry(b, now)))
  }

  /** handoffToLoginResult. */
  function ToLoginResult(h: LoginHandoff): LoginResult {
    LoginResult(TokenResponse(h.accessToken, h.refreshToken, h.expiresIn, "Bearer"), h.tokenEndpoint)
  }

  /** sessionFromHandoff: the daemon child's way to a session; cmdServe takes the same
      NewFromLogin without the secret test when it stays in the foreground. */
  function SessionFromHandoff(o: Oracle, h: LoginHandoff, now: int): Result<Session, string> {
    if Blank(h.secret) then Err("login handoff missing secret")
    else NewFromLogin(o, ToLoginResult(h), now)
  }

  /** One takeover: the payload is parsed at one time and the session built at a later one. */
  datatype Hop = Hop(secret: string, parsedAt: int, builtAt: int)

  ghost predicate Takes(hop: Hop) {
    !Blank(hop.secret) && hop.parsedAt <= hop.builtAt
  }

  /** What the successor holds after the whole path. */
  function TakeOver(o: Oracle, d: Creds, hop: Hop): Result<Session, string> {
    match ParseHandoff(o, BodyOf(d), hop.parsedAt)
    case Err(e) => Err(e)
    case Ok(h) => SessionFromHandoff(o, h.(secret := hop.secret), hop.builtAt)
  }

  /** Every payload of usable credentials is accepted and gives the same tokens and endpoint, in a
      ready session that is usable again; a session without a known expiry stays without one. */
  lemma TakeoverIsAccepted(o: Oracle, d: Creds, hop: Hop)
    requires Usable(o, d) && !Blank(hop.secret)
    ensures var r := TakeOver(o, d, hop);
            && r.Ok?
            && r.value.state.Ready? && r.value.lastError == ""
            && r.value.creds.accessToken == d.accessToken
            && r.value.creds.refreshToken == d.refreshToken
            && r.value.creds.tokenEndpoint == d.tokenEndpoint
            && (!d.hasExpiry ==> !r.value.creds.hasExpiry && r.value.creds.expiresAt == ZERO_TIME)
            && Usable(o, r.value.creds)
  {
  }

  /** The payload of a snapshot taken anywhere in any run is such a payload. */
  lemma EverySnapshotIsAccepted(o: Oracle, tr: Trace, i: nat, t: nat, hop: Hop)
    requires IsRun(o, tr) && i < |tr.states| && t < |tr.states[i].threads|
    requires SnapshotOf(tr.states[i].threads[t]).Some? && !Blank(hop.secret)
    ensures var d := SnapshotOf(tr.states[i].threads[t]).value;
            var r := TakeOver(o, d, hop);
            && r.Ok?
            && r.value.creds.accessToken == d.accessToken
            && r.value.creds.refreshToken == d.refreshToken
            && r.value.creds.tokenEndpoint == d.tokenEndpoint
  {
    RunInv(o, tr, i);
    assert ThreadOK(o, tr.states[i].sh, t, tr.states[i].threads[t]);
    TakeoverIsAccepted(o, SnapshotOf(tr.states[i].threads[t]).value, hop);
  }

  // ----- what a takeover does to the expiry

  /** The successor goes by relative seconds, not by the token's own exp claim: the expiry has a stamp
      that can be read back, and that stamp (whole seconds) is at least a second ahead of the reading. */
  predicate GoesByRelative(d: Creds, hop: Hop) {
    && d.hasExpiry
    && Readable(d.expiresAt / SECOND)
    && d.expiresAt / SECOND * SECOND - hop.parsedAt >= SECOND
  }

  /** The seconds it goes by: from the reading to the stamp, as far as an int64 of nanoseconds reaches. */
  function SecondsLeft(d: Creds, hop: Hop): int {
    if GoesByRelative(d, hop) then WholeSeconds(Min(MAX_INT64, d.expiresAt / SECOND * SECOND - hop.parsedAt)) else 0
  }

  /** The expires_in that the successor reads off the response is exactly that. An expiry two seconds
      ahead, in the years 0000 to 9999, is never dropped; one that is not ahead always is. */
  lemma RelativeExpiryIsExact(o: Oracle, d: Creds, hop: Hop)
    requires Usable(o, d)
    ensures var r := ParseHandoff(o, BodyOf(d), hop.parsedAt);
            r.Ok? && r.value.expiresIn == SecondsLeft(d, hop)
    ensures SecondsLeft(d, hop) > 0 <==> GoesByRelative(d, hop)
    ensures (&& d.hasExpiry
             && -62_167_219_200 * SECOND <= d.expiresAt < 253_402_300_800 * SECOND
             && d.expiresAt - hop.parsedAt >= 2 * SECOND) ==> GoesByRelative(d, hop)
    ensures d.expiresAt <= hop.parsedAt ==> !GoesByRelative(d, hop)
  {
  }

  function Delay(hop: Hop): int {
    hop.builtAt - hop.parsedAt
  }

  /** What the conversion to float64 can have added on the way. */
  function Rounding(d: Creds, hop: Hop): int {
    Gained(SecondsLeft(d, hop))
  }

  /** The relative way never moves the expiry later than the time between parsing and building (and a
      rounding, if it is far ahead), and earlier by less than two seconds exactly when the expiry is
      less than 9 223 372 038 seconds ahead, where the subtraction of times saturates. No
      multiplication wraps on this path. */
  lemma RelativeHopDrift(o: Oracle, d: Creds, hop: Hop)
    requires Usable(o, d) && Takes(hop) && GoesByRelative(d, hop)
    ensures var e := TakeOver(o, d, hop).value.creds;
            && e.hasExpiry
            && e.expiresAt <= d.expiresAt + Delay(hop) + Rounding(d, hop)
            && (d.expiresAt + Delay(hop) - 2 * SECOND < e.expiresAt
                <==> d.expiresAt - hop.parsedAt < (MAX_SECONDS + 2) * SECOND)
  {
  }

  /** Beyond the bound the loss is real: of an expiry in the year 2321 (a far-off exp claim, say) that
      is read in 2027, the successor keeps what fits in an int64 of nanoseconds and loses more than
      two years. */
  lemma FarExpiryIsCutOff(o: Oracle, d: Creds, hop: Hop)
    requires Usable(o, d) && Takes(hop) && d.hasExpiry
    requires d.expiresAt == 11_100_000_000 * SECOND && hop.parsedAt == 1_800_000_000 * SECOND
    ensures GoesByRelative(d, hop)
    ensures TakeOver(o, d, hop).value.creds.expiresAt == d.expiresAt + Delay(hop) - 76_627_964 * SECOND
  {
  }

  /** Otherwise the successor trusts the exp claim of the access token, or knows no expiry. */
  lemma FallbackHop(o: Oracle, d: Creds, hop: Hop)
    requires Usable(o, d) && Takes(hop) && !GoesByRelative(d, hop)
    ensures var e := TakeOver(o, d, hop).value.creds;
            if o.jwtExp(d.accessToken) > 0 then e.hasExpiry && e.expiresAt == o.jwtExp(d.accessToken) * SECOND
            else !e.hasExpiry
  {
  }

  // ----- many takeovers in a row, with no refresh in between

  ghost predicate AllTake(hops: seq<Hop>) {
    forall i :: 0 <= i < |hops| ==> Takes(hops[i])
  }

  ghost function AfterTakeovers(o: Oracle, d: Creds, hops: seq<Hop>): (e: Creds)
    requires Usable(o, d) && AllTake(hops)
    ensures Usable(o, e)
    ensures e.accessToken == d.accessToken && e.refreshToken == d.refreshToken && e.tokenEndpoint == d.tokenEndpoint
  {
    if hops == [] then d
    else
      var front := hops[..|hops| - 1];
      var before := AfterTakeovers(o, d, front);
      assert Takes(hops[|hops| - 1]);
      TakeoverIsAccepted(o, before, hops[|hops| - 1]);
      TakeOver(o, before, hops[|hops| - 1]).value.creds
  }

  function TotalDelay(hops: seq<Hop>): int {
    if hops == [] then 0 else TotalDelay(hops[..|hops| - 1]) + Delay(hops[|hops| - 1])
  }

  ghost function TotalRounding(o: Oracle, d: Creds, hops: seq<Hop>): int
    requires Usable(o, d) && AllTake(hops)
  {
    if hops == [] then 0
    else
      var front := hops[..|hops| - 1];
      TotalRounding(o, d, front) + Rounding(AfterTakeovers(o, d, front), hops[|hops| - 1])
  }

  /** How much later than it should be the last daemon can believe the expiry to be. */
  ghost function TotalShift(o: Oracle, d: Creds, hops: seq<Hop>): int
    requires Usable(o, d) && AllTake(hops)
  {
    TotalDelay(hops) + TotalRounding(o, d, hops)
  }

  lemma {:induction false} ShiftsAddUp(o: Oracle, d: Creds, hops: seq<Hop>)
    requires Usable(o, d) && AllTake(hops)
    ensures TotalDelay(hops) >= 0 && TotalRounding(o, d, hops) >= 0
  {
    if hops != [] {
      assert Takes(hops[|hops| - 1]);
      ShiftsAddUp(o, d, hops[..|hops| - 1]);
    }
  }

  /** The latest moment at which the token itself can be said to expire. */
  function TrueExpiry(o: Oracle, d: Creds): int {
    if o.jwtExp(d.accessToken) > 0 then Max(d.expiresAt, o.jwtExp(d.accessToken) * SECOND) else d.expiresAt
  }

  /** However many takeovers there are, the last daemon believes in an expiry no later than the true
      one plus the delays it has gone through, and what was gained by rounding. */
  lemma {:induction false} OvershootIsTheDelay(o: Oracle, d: Creds, hops: seq<Hop>)
    requires Usable(o, d) && AllTake(hops) && d.hasExpiry
    ensures var e := AfterTakeovers(o, d, hops);
            e.hasExpiry ==> e.expiresAt <= TrueExpiry(o, d) + TotalShift(o, d, hops)
  {
    if hops != [] {
      var front, hop := hops[..|hops| - 1], hops[|hops| - 1];
      assert Takes(hop);
      OvershootIsTheDelay(o, d, front);
      ShiftsAddUp(o, d, hops);
      var before := AfterTakeovers(o, d, front);
      if GoesByRelative(before, hop) {
        RelativeHopDrift(o, before, hop);
      } else {
        FallbackHop(o, before, hop);
      }
    }
  }

  /** Every takeover on the way goes by relative seconds. */
  ghost predicate RelativeAllTheWay(o: Oracle, d: Creds, hops: seq<Hop>)
    requires Usable(o, d) && AllTake(hops)
  {
    hops == [] ||
    (var front, hop := hops[..|hops| - 1], hops[|hops| - 1];
     && RelativeAllTheWay(o, d, front)
     && GoesByRelative(AfterTakeovers(o, d, front), hop))
  }

  /** No takeover on the way meets an expiry so far ahead that the subtraction of times saturates. */
  ghost predicate NeverCutOff(o: Oracle, d: Creds, hops: seq<Hop>)
    requires Usable(o, d) && AllTake(hops)
  {
    hops == [] ||
    (var front, hop := hops[..|hops| - 1], hops[|hops| - 1];
     && NeverCutOff(o, d, front)
     && AfterTakeovers(o, d, front).expiresAt - hop.parsedAt < (MAX_SECONDS + 2) * SECOND)
  }

  /** By relative seconds, n takeovers move the expiry later by the delays and roundings at most, and
      earlier by less than two seconds each unless one is cut off; the exp claim of the token does not
      matter. */
  lemma {:induction false} RelativeDrift(o: Oracle, d: Creds, hops: seq<Hop>)
    requires Usable(o, d) && AllTake(hops) && d.hasExpiry && RelativeAllTheWay(o, d, hops)
    ensures var e := AfterTakeovers(o, d, hops);
            && e.hasExpiry
            && e.expiresAt <= d.expiresAt + TotalShift(o, d, hops)
            && (NeverCutOff(o, d, hops) ==> d.expiresAt + TotalDelay(hops) - 2 * |hops| * SECOND <= e.expiresAt)
  {
    if hops != [] {
      var front, hop := hops[..|hops| - 1], hops[|hops| - 1];
      assert Takes(hop);
      RelativeDrift(o, d, front);
      RelativeHopDrift(o, AfterTakeovers(o, d, front), hop);
    }
  }

  /** Nothing is gained by rounding while the expiry, delays included, is less than 104 days ahead of
      every reading. */
  lemma {:induction false} NearExpiriesAreNotRounded(o: Oracle, d: Creds, hops: seq<Hop>, limit: int)
    requires Usable(o, d) && AllTake(hops) && d.hasExpiry && RelativeAllTheWay(o, d, hops)
    requires d.expiresAt + TotalDelay(hops) <= limit
    requires forall i :: 0 <= i < |hops| ==> limit - hops[i].parsedAt < EXACT_SECONDS * SECOND
    ensures TotalShift(o, d, hops) == TotalDelay(hops)
  {
    if hops != [] {
      var front, hop := hops[..|hops| - 1], hops[|hops| - 1];
      assert Takes(hop);
      NearExpiriesAreNotRounded(o, d, front, limit);
      RelativeDrift(o, d, front);
      NearExpiryIsNotRounded(AfterTakeovers(o, d, front), hop);
    }
  }

  lemma NearExpiryIsNotRounded(d: Creds, hop: Hop)
    requires d.expiresAt - hop.parsedAt < EXACT_SECONDS * SECOND
    ensures Rounding(d, hop) == 0
  {
  }

  /** By relative seconds all the way, and with delays (and roundings, where there are any) that add up
      to no more than the refresh skew, no daemon in the chain serves the token from its cache at or
      past the expiry it was issued with. */
  lemma RelativeServesNoStaleToken(o: Oracle, d: Creds, hops: seq<Hop>, now: int)
    requires Usable(o, d) && AllTake(hops) && d.hasExpiry && RelativeAllTheWay(o, d, hops)
    requires TotalShift(o, d, hops) <= REFRESH_SKEW
    requires Fresh(AfterTakeovers(o, d, hops), now)
    ensures now < d.expiresAt
  {
    RelativeDrift(o, d, hops);
  }

  /** What the successor holds after one takeover. */
  ghost function Successor(o: Oracle, d: Creds, hop: Hop): Creds
    requires Usable(o, d) && Takes(hop)
  {
    TakeoverIsAccepted(o, d, hop);
    TakeOver(o, d, hop).value.creds
  }

  /** From when it is built on, the successor serves the token from its cache at some moment at or past
      the token's expiry. */
  ghost predicate ServesStale(o: Oracle, d: Creds, hop: Hop)
    requires Usable(o, d) && Takes(hop)
  {
    exists now :: hop.builtAt <= now && d.expiresAt <= now && Fresh(Successor(o, d, hop), now)
  }

  /** After one takeover, whatever its delay, the successor serves the token at or past its expiry
      exactly if the seconds left when the payload was read, counted from the building on, reach beyond
      both the expiry and the building by more than the skew; or, with no such seconds left, the
      token's own exp claim does. */
  lemma ServesStaleExactlyWhen(o: Oracle, d: Creds, hop: Hop)
    requires Usable(o, d) && Takes(hop) && d.hasExpiry
    ensures var limit := Max(d.expiresAt, hop.builtAt) + REFRESH_SKEW;
            ServesStale(o, d, hop) <==>
              if GoesByRelative(d, hop) then hop.builtAt + SecondsLeft(d, hop) * SECOND > limit
              else o.jwtExp(d.accessToken) > 0 && o.jwtExp(d.accessToken) * SECOND > limit
  {
    var e, first := Successor(o, d, hop), Max(d.expiresAt, hop.builtAt);
    assert ServesStale(o, d, hop) <==> Fresh(e, first) by {
      assert Fresh(e, first) ==> hop.builtAt <= first && d.expiresAt <= first;
    }
    if GoesByRelative(d, hop) {
      RelativeHopIsExact(o, d, hop);
    } else {
      FallbackHop(o, d, hop);
    }
  }

  lemma RelativeHopIsExact(o: Oracle, d: Creds, hop: Hop)
    requires Usable(o, d) && Takes(hop) && GoesByRelative(d, hop)
    ensures var e := Successor(o, d, hop);
            e.hasExpiry && e.expiresAt == hop.builtAt + SecondsLeft(d, hop) * SECOND
  {
  }

  /** While the delays and roundings add up to no more than the refresh skew, no daemon in the chain
      serves the token from its cache at or past its true expiry. */
  lemma NoStaleTokenFromCache(o: Oracle, d: Creds, hops: seq<Hop>, now: int)
    requires Usable(o, d) && AllTake(hops) && d.hasExpiry
    requires TotalShift(o, d, hops) <= REFRESH_SKEW
    requires Fresh(AfterTakeovers(o, d, hops), now)
    ensures now < TrueExpiry(o, d)
  {
    OvershootIsTheDelay(o, d, hops);
  }

  lemma ClaimRevives(o: Oracle, d: Creds, hop: Hop)
    requires Usable(o, d) && Takes(hop) && d.hasExpiry && d.expiresAt <= hop.parsedAt
    requires o.jwtExp(d.accessToken) > 0 && o.jwtExp(d.accessToken) * SECOND > hop.builtAt + REFRESH_SKEW
    ensures TakeOver(o, d, hop).Ok? && Fresh(TakeOver(o, d, hop).value.creds, hop.builtAt)
    ensures ServesStale(o, d, hop)
  {
    FallbackHop(o, d, hop);
    TakeoverIsAccepted(o, d, hop);
    ServesStaleExactlyWhen(o, d, hop);
  }

  const EXAMPLE_CREDS := Creds(JWT, "rt", ENDPOINT, (EXP - 9_000) * SECOND, true)
  const EXAMPLE_HOP := Hop("secret", (EXP - 8_000) * SECOND, (EXP - 8_000) * SECOND)

  lemma ExampleIsUsable()
    ensures Usable(World(), EXAMPLE_CREDS) && Takes(EXAMPLE_HOP)
    ensures World().jwtExp(EXAMPLE_CREDS.accessToken) == EXP
  {
    WorldIsPinned();
    JwtIsNotBlank();
    assert "rt"[0] == 'r' && "secret"[0] == 's';
  }

  /** The exp claim has to count as true expiry: a token already expired by its expires_in when the
      payload is read lives on in the successor until the claim. */
  lemma ExpiredTokenRevives()
    ensures Usable(World(), EXAMPLE_CREDS) && Takes(EXAMPLE_HOP)
    ensures !HardValid(EXAMPLE_CREDS, EXAMPLE_HOP.parsedAt)
    ensures var r := TakeOver(World(), EXAMPLE_CREDS, EXAMPLE_HOP); r.Ok? && Fresh(r.value.creds, EXAMPLE_HOP.builtAt)
    ensures ServesStale(World(), EXAMPLE_CREDS, EXAMPLE_HOP)
  {
    ExampleIsUsable();
    ClaimRevives(World(), EXAMPLE_CREDS, EXAMPLE_HOP);
  }

  // ----- the outcome matrix

  /** A response of the daemon to POST /handoff, as attemptHandoff reads it. */
  datatype HandoffReply = HandoffReply(status: nat, body: Option<HandoffBody>, state: string)

  datatype TakeoverOutcome = Acquired(handoff: LoginHandoff) | DeadSession | BackOff(reason: string)

  /** attemptHandoff behind the HTTP exchange. */
  function ReadReply(o: Oracle, r: HandoffReply, now: int): TakeoverOutcome {
    if r.status == 200 then
      if r.body.None? then BackOff("invalid handoff JSON")
      else
        match ParseHandoff(o, r.body.value, now)
        case Ok(h) => Acquired(h)
        case Err(e) => BackOff(e)
    else if r.status == 401 then BackOff("socket is already in use")
    else if r.status == 409 then
      if r.state == StateName(ReauthRequired) || r.state == StateName(TierDenied) then DeadSession
      else BackOff("another takeover is in progress")
    else if r.status == 404 || r.status == 405 then BackOff("daemon predates session takeover")
    else BackOff("daemon returned another status")
  }

  /** Over all replies: a session is acquired exactly from a 200 with both tokens and a valid endpoint, and
      then as it was sent; the daemon is replaced exactly on a 409 naming one of the two dead states; in
      every other case the successor backs off. */
  lemma RepliesAreReadExactly(o: Oracle, r: HandoffReply, now: int)
    ensures var out := ReadReply(o, r, now);
            && (out.Acquired? <==>
                  && r.status == 200 && r.body.Some?
                  && !Blank(r.body.value.accessToken) && !Blank(r.body.value.refreshToken)
                  && o.validEndpoint(r.body.value.tokenEndpoint))
            && (out.Acquired? ==>
                  && out.handoff.accessToken == r.body.value.accessToken
                  && out.handoff.refreshToken == r.body.value.refreshToken
                  && out.handoff.tokenEndpoint == r.body.value.tokenEndpoint)
            && (out.DeadSession? <==> r.status == 409 && (r.state == "reauth_required" || r.state == "tier_denied"))
  {
  }

  /** A takeover goes through exactly with both tokens, a valid endpoint and a secret. */
  lemma TakeoverGoesThroughExactlyWhen(o: Oracle, d: Creds, hop: Hop)
    ensures TakeOver(o, d, hop).Ok? <==>
              && !Blank(d.accessToken) && !Blank(d.refreshToken)
              && o.validEndpoint(d.tokenEndpoint) && !Blank(hop.secret)
  {
  }

  /** What handleHandoff writes for a session in state s, when the write succeeds. */
  function HandoffResponse(s: Session): HandoffReply {
    if s.state.Ready? then HandoffReply(200, Some(BodyOf(s.creds)), "")
    else HandoffReply(409, None, StateName(s.state))
  }

  /** The two ends agree: a successor acquires the session exactly when it was ready, replaces the
      daemon exactly when its session is dead, and backs off exactly during another takeover. */
  lemma OutcomeMatchesState(o: Oracle, s: Session, now: int)
    requires Sound(o, s)
    ensures var out := ReadReply(o, HandoffResponse(s), now);
            && (out.Acquired? <==> s.state.Ready?)
            && (out.DeadSession? <==> Dead(s))
            && (out.BackOff? <==> s.state.HandedOff?)
            && (out.Acquired? ==>
                  && out.handoff.accessToken == s.creds.accessToken
                  && out.handoff.refreshToken == s.creds.refreshToken
                  && out.handoff.tokenEndpoint == s.creds.tokenEndpoint)
  {
  }
}
