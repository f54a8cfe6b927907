/** One concrete world for the example lemmas: a URL on the x.ai origin and a JWT with an exp claim. */
module Example {
  import opened Basics
  import opened HostPin
  import opened Tokens

  const HOST := "auth.x.ai"
  const ENDPOINT := "https://" + HOST + "/oauth2/token"

  // base64url for {"alg":"none"} and {"exp":1800010000}, and no signature.
  const HEADER := "eyJhbGciOiJub25lIn0"
  const CLAIMS := "eyJleHAiOjE4MDAwMTAwMDB9"
  const JWT := HEADER + "." + CLAIMS + "."
  const EXP := 1_800_010_000

  /** url.Parse, as far as it is needed here. */
  function Parse(raw: string): Option<URL> {
    if raw == ENDPOINT then Some(URL("https", HOST)) else None
  }

  /** JWTExp, likewise. */
  function Claim(accessToken: string): int {
    if accessToken == JWT then EXP else 0
  }

  function World(): Oracle {
    Oracle(raw => ValidXAIURL(Parse, raw), Claim)
  }

  lemma HostIsTidy()
    ensures ToLower(HOST) == HOST && Trim(HOST) == HOST
  {
    TrimLeavesTidyAlone(HOST);
    assert ToLower(HOST) == HOST;
  }

  lemma HostIsOnOrigin()
    ensures OnOrigin(HOST)
  {
    assert HOST[|HOST| - 5..] == ORIGIN_SUFFIX;
    var p := HOST[..|HOST| - 5];
    assert p == "auth";
    assert forall i :: 0 <= i < |p| ==> p[i] != '.';
  }

  lemma EndpointIsValid()
    ensures ValidXAIURL(Parse, ENDPOINT)
  {
    TrimLeavesTidyAlone(ENDPOINT);
    HostIsTidy();
    HostIsOnOrigin();
    TrimIsExact(ENDPOINT, ENDPOINT);
    ValidURLIsExact(Parse, ENDPOINT, ENDPOINT);
  }

  lemma PinMakesAnOracle(parse: string -> Option<URL>, jwtExp: string -> int)
    ensures Pinned(Oracle(raw => ValidXAIURL(parse, raw), jwtExp), parse)
  {
  }

  lemma JwtIsNotBlank()
    ensures !Blank(JWT)
  {
    assert JWT[|JWT| - 1] == '.';
  }

  /** The endpoint is valid here, by the pin itself. */
  lemma WorldIsPinned()
    ensures Pinned(World(), Parse)
    ensures World().validEndpoint(ENDPOINT)
  {
    PinMakesAnOracle(Parse, Claim);
    EndpointIsValid();
  }
}
