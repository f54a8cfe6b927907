/** The device-code poll loop (internal/protocol/device.go). The world plays one round per
    iteration: how long the request takes, what comes back, and how late the timer fires. */
module DevicePoll {
  import opened Basics
  import opened Errors
  import opened Tokens

  const MAX_WINDOW := 30 * MINUTE
  const MAX_INTERVAL := 30
  const REQUEST_TIMEOUT := 20 * SECOND

  /** deviceAuthWindow: the multiplication wraps before the cap is applied. */
  function DeviceAuthWindow(expiresIn: Int64): (w: Int64)
    ensures w <= MAX_WINDOW
  {
    var w := Wrap64(expiresIn * SECOND);
    if w > MAX_WINDOW then MAX_WINDOW else w
  }

  function Distance(x: int, y: int): int {
    if x <= y then y - x else x - y
  }

  /** The number from 1 to 30 nearest to the one given. */
  function ClampPollInterval(seconds: int): (r: int)
    ensures 1 <= r <= 30
    ensures forall x :: 1 <= x <= 30 ==> Distance(r, seconds) <= Distance(x, seconds)
  {
    if seconds < 1 then 1 else if seconds > MAX_INTERVAL then MAX_INTERVAL else seconds
  }

  /** The documented window, expires_in capped at 30 minutes, is what the code waits exactly when
      expires_in is in range for a Duration, or is above that range and its nanoseconds leave a residue
      modulo 2^64 that is itself a Duration of at least the cap. */
  lemma WindowIsTheCap(expiresIn: Int64)
    ensures DeviceAuthWindow(expiresIn) == Min(expiresIn * SECOND, 1800 * SECOND) <==>
              || -MAX_SECONDS <= expiresIn <= MAX_SECONDS
              || (&& expiresIn > MAX_SECONDS
                  && 1800 * SECOND <= (expiresIn * SECOND) % 0x1_0000_0000_0000_0000 < 0x8000_0000_0000_0000)
    ensures var r := (expiresIn * SECOND) % 0x1_0000_0000_0000_0000;
            DeviceAuthWindow(expiresIn) ==
            Min(if r < 0x8000_0000_0000_0000 then r else r - 0x1_0000_0000_0000_0000, 1800 * SECOND)
  {
    WrapIsResidue(expiresIn * SECOND);
  }

  /** An expires_in of 584 years leaves less than a third of a second. */
  lemma HugeExpiryLeavesNoWindow()
    ensures DeviceAuthWindow(18_446_744_074) == 290_448_384
  {
  }

  datatype Judgement = Approved(tr: TokenResponse) | Pending | SlowDown | Rejected(error: Error)

  /** A 200 with both tokens. */
  predicate GrantsBoth(http: HttpReply) {
    && http.HttpReply? && http.status == 200 && http.body.token.Some?
    && !Blank(http.body.token.value.accessToken) && !Blank(http.body.token.value.refreshToken)
  }

  /** An answer under another status that says this, in any case and between any white space. */
  ghost predicate RepliesWith(http: HttpReply, code: string) {
    http.HttpReply? && http.status != 200 && SaysError(http.body, code)
  }

  /** The tokens of a response, with their lifetime. */
  predicate SameTokens(tr: TokenResponse, given: TokenResponse) {
    && tr.accessToken == given.accessToken && tr.refreshToken == given.refreshToken
    && tr.expiresIn == given.expiresIn
  }

  const PENDING := "authorization_pending"
  const SLOW_DOWN := "slow_down"

  lemma WaitingCodesAreWellFormed()
    ensures WellFormed(PENDING) && WellFormed(SLOW_DOWN)
  {
  }

  /** What the loop makes of one response. */
  function Judge(http: HttpReply): (j: Judgement)
    ensures j.Approved? <==> GrantsBoth(http)
    ensures j.Approved? ==> SameTokens(j.tr, http.body.token.value)
    ensures j.Pending? <==> http.HttpReply? && http.status != 200 && ParseOAuthError(http.body) == PENDING
    ensures j.SlowDown? <==> http.HttpReply? && http.status != 200 && ParseOAuthError(http.body) == SLOW_DOWN
  {
    match http
    case TransportFailed => Rejected(NewError("device_token_failed", "token poll failed", "transient"))
    case HttpReply(status, body) =>
      if status == 200 then
        match body.token
        case None => Rejected(NewError("device_token_invalid", "invalid token JSON", "transient"))
        case Some(tr) =>
          if Blank(tr.accessToken) then
            Rejected(NewError("device_token_invalid", "token response missing access_token", "reauth"))
          else if Blank(tr.refreshToken) then
            Rejected(NewError("device_token_invalid", "token response missing refresh_token", "reauth"))
          else Approved(tr.(tokenType := if tr.tokenType == "" then "Bearer" else tr.tokenType))
      else
        var code := ParseOAuthError(body);
        if code == PENDING then Pending
        else if code == SLOW_DOWN then SlowDown
        else if code == "" then Rejected(NewError("device_token_failed", "device-code token polling failed", "reauth"))
        else Rejected(NewError("device_token_failed", "device-code token polling failed: " + code, "reauth"))
  }

  /** The loop waits exactly for the two codes. */
  lemma WaitingIsExact(http: HttpReply)
    ensures Judge(http).Pending? <==> RepliesWith(http, "authorization_pending")
    ensures Judge(http).SlowDown? <==> RepliesWith(http, "slow_down")
  {
    WaitingCodesAreWellFormed();
    ReplyIsParsed(http, PENDING);
    ReplyIsParsed(http, SLOW_DOWN);
  }

  lemma ReplyIsParsed(http: HttpReply, code: string)
    requires WellFormed(code)
    ensures RepliesWith(http, code) <==> http.HttpReply? && http.status != 200 && ParseOAuthError(http.body) == code
  {
    if http.HttpReply? {
      ParsedErrorIsSaid(http.body, code);
    }
  }

  lemma NewErrorsHaveTheirRoot(code: string, msg: string)
    ensures RefreshVerdict(NewError(code, msg, "transient")) == TransientVerdict
    ensures RefreshVerdict(NewError(code, msg, "reauth")) == ReauthVerdict
  {
    VerdictIsRoot(NewError(code, msg, "transient"));
  }

  /** A rejection is transient exactly where nothing readable arrived, and a call for a new login
      everywhere else. */
  lemma RejectionsAreExact(http: HttpReply)
    requires Judge(http).Rejected?
    ensures RefreshVerdict(Judge(http).error) ==
            if http.TransportFailed? || (http.status == 200 && http.body.token.None?) then TransientVerdict
            else ReauthVerdict
  {
    var e := Judge(http).error;
    NewErrorsHaveTheirRoot(e.code, e.message);
  }

  /** How one round of the loop goes: whether the context has ended before the request, how long the
      request takes, how late the timer of the wait fires, and whether the context ends during the
      wait (which then ends at once). */
  datatype Pace = Pace(cancelled: bool, took: nat, late: nat, interrupted: bool)

  /** The HTTP client gives up a request after its timeout. */
  ghost predicate Timely(pace: nat -> Pace) {
    forall i :: pace(i).took <= REQUEST_TIMEOUT
  }

  /** How many of the first n responses were slow_down. */
  function SlowDowns(heard: nat -> Judgement, n: nat): nat {
    if n == 0 then 0 else SlowDowns(heard, n - 1) + if heard(n - 1).SlowDown? then 1 else 0
  }

  /** The interval in force after n responses: one second more for each slow_down, up to the cap. */
  function IntervalAfter(heard: nat -> Judgement, interval: int, n: nat): int {
    Min(MAX_INTERVAL, ClampPollInterval(interval) + SlowDowns(heard, n))
  }

  /** The time at which request n may leave: every earlier request was answered and slept off. */
  function Clock(heard: nat -> Judgement, pace: nat -> Pace, interval: int, start: int, n: nat): int {
    if n == 0 then start
    else Clock(heard, pace, interval, start, n - 1) + pace(n - 1).took
         + IntervalAfter(heard, interval, n) * SECOND + pace(n - 1).late
  }

  /** The first n responses all said to keep polling, and were slept off undisturbed. */
  ghost predicate KeptPolling(heard: nat -> Judgement, pace: nat -> Pace, n: nat) {
    forall i :: 0 <= i < n ==>
      && !pace(i).cancelled && !pace(i).interrupted
      && (heard(i).Pending? || heard(i).SlowDown?)
  }

  /** How the loop ends: with tokens, with a response that is an error, with the window over
      (device_timeout), or with the caller's context. */
  datatype PollResult = Granted(tr: TokenResponse) | Denied(error: Error) | TimedOut | Canceled

  /** The end of the loop; polls counts the requests sent, at is the time of return. */
  datatype PollEnd = PollEnd(result: PollResult, polls: nat, interval: int, at: int)

  /** Request k is due: every response before it said to keep polling, and it can leave inside the window
      while the context lives. */
  ghost predicate Due(heard: nat -> Judgement, pace: nat -> Pace, interval: int, start: int, window: int, k: nat) {
    && KeptPolling(heard, pace, k)
    && !pace(k).cancelled
    && Clock(heard, pace, interval, start, k) < start + window
  }

  /** The result is the last response's, or a timeout once the window is over, or a cancellation. */
  ghost predicate EndsRightly(heard: nat -> Judgement, pace: nat -> Pace, interval: int, start: int, window: int,
                              end: PollEnd) {
    var n := end.polls;
    && (n > 0 ==> Due(heard, pace, interval, start, window, n - 1))
    && match end.result
       case Granted(tr) => n > 0 && heard(n - 1) == Approved(tr)
       case Denied(e) => n > 0 && heard(n - 1) == Rejected(e)
       case TimedOut =>
         && KeptPolling(heard, pace, n)
         && end.at == Clock(heard, pace, interval, start, n) >= start + window
       case Canceled =>
         || (KeptPolling(heard, pace, n) && pace(n).cancelled)
         || (n > 0 && pace(n - 1).interrupted && (heard(n - 1).Pending? || heard(n - 1).SlowDown?))
  }

  lemma {:induction false} ClockRuns(heard: nat -> Judgement, pace: nat -> Pace, interval: int, start: int, m: nat,
                                     n: nat)
    requires m <= n
    ensures Clock(heard, pace, interval, start, m) <= Clock(heard, pace, interval, start, n)
  {
    if m < n {
      ClockRuns(heard, pace, interval, start, m, n - 1);
    }
  }

  /** The requests that are sent are exactly those that are due. */
  lemma SentExactlyWhenDue(heard: nat -> Judgement, pace: nat -> Pace, interval: int, start: int, window: int,
                           end: PollEnd, k: nat)
    requires EndsRightly(heard, pace, interval, start, window, end)
    ensures Due(heard, pace, interval, start, window, k) <==> k < end.polls
  {
    var n := end.polls;
    if k < n {
      ClockRuns(heard, pace, interval, start, k, n - 1);
    } else if Due(heard, pace, interval, start, window, k) {
      ClockRuns(heard, pace, interval, start, n, k);
    }
  }

  /** The loop of PollDeviceToken, starting at time start. */
  method PollLoop(window: int, interval: Int64, start: int, heard: nat -> Judgement, pace: nat -> Pace)
    returns (end: PollEnd)
    requires Timely(pace) && window <= MAX_WINDOW
    ensures end.interval == IntervalAfter(heard, interval, end.polls)
    // a bounded number of requests and a bounded time, but for timers that fire late
    ensures end.polls <= 1800 && (window <= 0 ==> end.polls == 0)
    ensures end.at <= start + Max(0, window) + REQUEST_TIMEOUT + end.interval * SECOND
                      + (if end.polls > 0 then pace(end.polls - 1).late else 0)
    ensures EndsRightly(heard, pace, interval, start, window, end)
  {
    var deadline := start + window;
    var currentInterval := ClampPollInterval(interval);
    var now := start;
    var polls := 0;
    while now < deadline
      invariant KeptPolling(heard, pace, polls)
      invariant currentInterval == IntervalAfter(heard, interval, polls)
      invariant now == Clock(heard, pace, interval, start, polls)
      invariant polls > 0 ==> Due(heard, pace, interval, start, window, polls - 1)
      invariant start + polls * SECOND <= now
      invariant polls > 0 ==> polls <= 1800 && window > 0
      invariant now <= start + Max(0, window) +
                       (if polls > 0 then REQUEST_TIMEOUT + currentInterval * SECOND + pace(polls - 1).late else 0)
      decreases deadline - now
    {
      var round := pace(polls);
      if round.cancelled {
        return PollEnd(Canceled, polls, currentInterval, now);
      }
      polls := polls + 1;
      match heard(polls - 1) {
        case Approved(tr) =>
          return PollEnd(Granted(tr), polls, currentInterval, now + round.took);
        case Rejected(e) =>
          return PollEnd(Denied(e), polls, currentInterval, now + round.took);
        case Pending =>
        case SlowDown =>
          currentInterval := ClampPollInterval(currentInterval + 1);
      }
      if round.interrupted {
        return PollEnd(Canceled, polls, currentInterval, now + round.took);
      }
      now := now + round.took + currentInterval * SECOND + round.late;
    }
    end := PollEnd(TimedOut, polls, currentInterval, now);
  }

  // The message also quotes what is wrong with the endpoint, which the model leaves out.
  const BAD_ENDPOINT := Protocol("discovery_invalid", "token_endpoint", 0, "reauth")

  function Heard(responses: nat -> HttpReply): nat -> Judgement {
    (i: nat) => Judge(responses(i))
  }

  /** If every response before number k says to wait, number k grants, and its
      request is due, the call ends with the tokens of number k. */
  lemma FirstGrantWins(responses: nat -> HttpReply, pace: nat -> Pace, interval: int, start: int, window: int,
                       end: PollEnd, k: nat)
    requires EndsRightly(Heard(responses), pace, interval, start, window, end)
    requires Due(Heard(responses), pace, interval, start, window, k) && GrantsBoth(responses(k))
    ensures end.polls == k + 1 && end.result.Granted?
    ensures SameTokens(end.result.tr, responses(k).body.token.value)
  {
    SentExactlyWhenDue(Heard(responses), pace, interval, start, window, end, k);
    assert Heard(responses)(k) == Judge(responses(k));
  }

  /** PollDeviceToken: for every expires_in, interval and sequence of responses the call is bounded, and
      it hands out exactly the tokens of the first response that does not say to wait, if that one has
      both and its request is due. It times out only when the window is over. */
  method PollDeviceToken(o: Oracle, tokenEndpoint: string, expiresIn: Int64, interval: Int64, start: int,
                         responses: nat -> HttpReply, pace: nat -> Pace) returns (end: PollEnd)
    requires Timely(pace)
    ensures !o.validEndpoint(tokenEndpoint) ==> end.result == Denied(BAD_ENDPOINT) && end.polls == 0
    ensures o.validEndpoint(tokenEndpoint) ==>
              forall k: nat :: k < end.polls <==>
                Due(Heard(responses), pace, interval, start, DeviceAuthWindow(expiresIn), k)
    ensures o.validEndpoint(tokenEndpoint) ==>
              forall k: nat ::
                Due(Heard(responses), pace, interval, start, DeviceAuthWindow(expiresIn), k)
                && GrantsBoth(responses(k)) ==>
                  end.polls == k + 1 && end.result.Granted?
    ensures end.result.Granted? <==> end.polls > 0 && GrantsBoth(responses(end.polls - 1))
    ensures end.result.Granted? ==> SameTokens(end.result.tr, responses(end.polls - 1).body.token.value)
    ensures end.result.TimedOut? ==> end.at >= start + DeviceAuthWindow(expiresIn)
    ensures end.result.Canceled? ==> pace(end.polls).cancelled || (end.polls > 0 && pace(end.polls - 1).interrupted)
    ensures end.polls <= 1800 && (DeviceAuthWindow(expiresIn) <= 0 ==> end.polls == 0)
    ensures end.at <= start + MAX_WINDOW + REQUEST_TIMEOUT + MAX_INTERVAL * SECOND
                      + (if end.polls > 0 then pace(end.polls - 1).late else 0)
  {
    if !o.validEndpoint(tokenEndpoint) {
      return PollEnd(Denied(BAD_ENDPOINT), 0, ClampPollInterval(interval), start);
    }
    var window := DeviceAuthWindow(expiresIn);
    end := PollLoop(window, interval, start, Heard(responses), pace);
    forall k: nat ensures k < end.polls <==> Due(Heard(responses), pace, interval, start, window, k) {
      SentExactlyWhenDue(Heard(responses), pace, interval, start, window, end, k);
    }
    forall k: nat | Due(Heard(responses), pace, interval, start, window, k) && GrantsBoth(responses(k))
      ensures end.polls == k + 1 && end.result.Granted?
    {
      FirstGrantWins(responses, pace, interval, start, window, end, k);
    }
  }
}
