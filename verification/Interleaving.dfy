/** Any number of callers on one session, step by step. A region that holds Session.mu or the
    singleflight's own mutex never blocks inside, so it is one step; opMu is held across steps and
    is modelled as a lock. Between steps anything may happen: other callers, the clock, the IdP. */
module Interleaving {
  import opened Basics
  import opened Errors
  import opened Tokens
  import opened SessionSpec

  /** A singleflight call object. leader names the caller that created it; the program does not
      store it. */
  datatype Call = Call(leader: nat, result: Option<Outcome>)

  /** What all callers share: the fields under mu, the holder of opMu, the singleflight entry for
      the key "token" as an index into the call objects made so far, and the clock. */
  datatype Shared = Shared(session: Session, opMu: Option<nat>, entry: Option<nat>, calls: seq<Call>, now: int)

  datatype HandoffResult = Conflict(state: State) | Delivered(snapshot: Creds) | RolledBack

  /** Where a caller stands. c is the singleflight call it leads or waits for. */
  datatype PC =
    // GetAccessToken and singleflight.Do
    | GetEnter
    | GetMissed                                           // found the token stale
    | Wait(c: nat)                                        // joined the call of another caller
    | Lead(c: nat)                                        // about to lock opMu
    // refreshIfNeeded, opMu held
    | Locked(c: nat)
    | Snapped(c: nat, rt: string, ep: string)             // credentials copied, mu released
    | Calling(c: nat, rt: string, ep: string)             // request on its way to the IdP
    | Replied(c: nat, rt: string, ep: string, answer: IdpAnswer)
    | Got(c: nat, tr: TokenResponse, expiry: Expiry)      // before the installing region
    | Failed(c: nat, verdict: Verdict, message: string)   // error sorted, before handleRefreshErr's region
    | Unlocking(c: nat, out: Outcome)                     // about to release opMu
    // singleflight.Do again, opMu released
    | Publishing(c: nat, out: Outcome)                    // before wg.Done
    | Removing(c: nat, out: Outcome)                      // between wg.Done and delete
    | GetDone(out: Outcome)
    // handleHandoff
    | DrainEnter                                          // about to lock opMu
    | DrainLocked
    | DrainUnlocking(drained: Option<Creds>, state: State)
    | Delivering(snapshot: Creds)                         // writing the response
    | Restoring(snapshot: Creds)                          // the write failed
    | HandoffDone(result: HandoffResult)
    // handleLogout
    | ClearEnter
    | ClearDone

  datatype Machine = Machine(sh: Shared, threads: seq<PC>)

  datatype Op = OpGet | OpHandoff | OpLogout

  datatype Action =
    | Spawn(op: Op)                                       // a new request arrives
    | Tick(elapsed: nat)
    | Run(t: nat)                                         // a caller takes its next step
    | Answer(t: nat, answer: IdpAnswer)                   // the IdP deals with a request
    | Deliver(t: nat, written: bool)                      // a handoff response is written, or not

  function Entry(op: Op): PC {
    match op
    case OpGet => GetEnter
    case OpHandoff => DrainEnter
    case OpLogout => ClearEnter
  }

  predicate Done(pc: PC) {
    pc.GetDone? || pc.HandoffDone? || pc.ClearDone?
  }

  /** The caller is not finished, not blocked and not waiting for the outside world. */
  predicate CanRun(sh: Shared, pc: PC) {
    match pc
    case Wait(c) => c < |sh.calls| && sh.calls[c].result.Some?
    case Lead(_) => sh.opMu.None?
    case DrainEnter => sh.opMu.None?
    case Calling(_, _, _) => false
    case Delivering(_) => false
    case _ => !Done(pc)
  }

  function Finish(calls: seq<Call>, c: nat, out: Outcome): seq<Call> {
    if c < |calls| then calls[c := calls[c].(result := Some(out))] else calls
  }

  /** GetAccessToken behind its first look at the session. */
  function AfterFirstLook(gate: Gate): PC {
    match gate
    case Refused(f) => GetDone(Fail(f))
    case Hit(tok) => GetDone(Token(tok))
    case Miss => GetMissed
  }

  /** refreshIfNeeded behind its own look, with opMu held. */
  function AfterSecondLook(gate: Gate, c: nat, creds: Creds): PC {
    match gate
    case Refused(f) => Unlocking(c, Fail(f))
    case Hit(tok) => Unlocking(c, Token(tok))
    case Miss => Snapped(c, creds.refreshToken, creds.tokenEndpoint)
  }

  /** refreshIfNeeded between the return of the IdP call and its next region. */
  function AfterReply(o: Oracle, pc: PC, now: int): PC
    requires pc.Replied?
  {
    match pc.answer
    case Panicked => Unlocking(pc.c, Fail(Crashed))
    case Answered(discovery, http) =>
      match Refresh(o, pc.ep, pc.rt, discovery, http)
      case Ok(tr) => Got(pc.c, tr, ExpiresAtFromToken(o, tr.accessToken, tr.expiresIn, now))
      case Err(e) => Failed(pc.c, RefreshVerdict(e), PublicMessage(e))
  }

  /** The first region of singleflight.Do: join the call in the map, or put one there and lead it. */
  function JoinFlight(sh: Shared, t: nat): (Shared, PC) {
    if sh.entry.Some? then (sh, Wait(sh.entry.value))
    else (sh.(entry := Some(|sh.calls|), calls := sh.calls + [Call(t, None)]), Lead(|sh.calls|))
  }

  /** One step of caller t standing at pc. */
  function LocalStep(o: Oracle, sh: Shared, t: nat, pc: PC): (Shared, PC)
    requires CanRun(sh, pc)
  {
    var s := sh.session;
    match pc
    case GetEnter => (sh, AfterFirstLook(CheckGate(s, sh.now)))
    case GetMissed => JoinFlight(sh, t)
    case Wait(c) => (sh, GetDone(sh.calls[c].result.value))
    case Lead(c) => (sh.(opMu := Some(t)), Locked(c))
    case Locked(c) => (sh, AfterSecondLook(CheckGate(s, sh.now), c, s.creds))
    case Snapped(c, rt, ep) =>
      if rt == "" then (sh.(session := MissingRefresh(s)), Unlocking(c, Fail(NeedsReauth)))
      else (sh, Calling(c, rt, ep))
    case Replied(_, _, _, _) => (sh, AfterReply(o, pc, sh.now))
    case Got(c, tr, e) => (sh.(session := Install(s, tr, e).0), Unlocking(c, Install(s, tr, e).1))
    case Failed(c, verdict, msg) =>
      (sh.(session := RefreshFailed(s, verdict, msg, sh.now).0), Unlocking(c, RefreshFailed(s, verdict, msg, sh.now).1))
    case Unlocking(c, out) => (sh.(opMu := None), Publishing(c, out))
    case Publishing(c, out) => (sh.(calls := Finish(sh.calls, c, out)), Removing(c, out))
    case Removing(_, out) => (sh.(entry := None), GetDone(out))
    case DrainEnter => (sh.(opMu := Some(t)), DrainLocked)
    case DrainLocked =>
      if s.state.Ready? then (sh.(session := DRAINED), DrainUnlocking(Some(s.creds), HandedOff))
      else (sh, DrainUnlocking(None, s.state))
    case DrainUnlocking(d, st) =>
      (sh.(opMu := None), if d.Some? then Delivering(d.value) else HandoffDone(Conflict(st)))
    case Restoring(d) => (sh.(session := Restore(s, d)), HandoffDone(RolledBack))
    case ClearEnter => (sh.(session := CLEARED), ClearDone)
    case _ => (sh, pc)
  }

  ghost predicate Enabled(m: Machine, a: Action) {
    match a
    case Spawn(_) => true
    case Tick(_) => true
    case Run(t) => t < |m.threads| && CanRun(m.sh, m.threads[t])
    case Answer(t, _) => t < |m.threads| && m.threads[t].Calling?
    case Deliver(t, _) => t < |m.threads| && m.threads[t].Delivering?
  }

  ghost function Apply(o: Oracle, m: Machine, a: Action): Machine
    requires Enabled(m, a)
  {
    match a
    case Spawn(op) => m.(threads := m.threads + [Entry(op)])
    case Tick(elapsed) => m.(sh := m.sh.(now := m.sh.now + elapsed))
    case Run(t) =>
      var (sh', pc') := LocalStep(o, m.sh, t, m.threads[t]);
      Machine(sh', m.threads[t := pc'])
    case Answer(t, answer) =>
      var pc := m.threads[t];
      m.(threads := m.threads[t := Replied(pc.c, pc.rt, pc.ep, answer)])
    case Deliver(t, written) =>
      var d := m.threads[t].snapshot;
      m.(threads := m.threads[t := if written then HandoffDone(Delivered(d)) else Restoring(d)])
  }

  /** The action of a caller that stores the tokens of a refresh. */
  predicate Installs(m: Machine, a: Action) {
    && a.Run? && a.t < |m.threads| && m.threads[a.t].Got?
    && m.sh.session.state.Ready? && m.sh.session.creds.refreshToken != ""
  }

  ghost predicate Step(o: Oracle, m: Machine, a: Action, m': Machine) {
    Enabled(m, a) && m' == Apply(o, m, a)
  }

  /** A session just built, with no caller yet. */
  function Boot(s: Session, now: int): Machine {
    Machine(Shared(s, None, None, [], now), [])
  }

  /** A login whose tokens are not blank, as the device flow and the takeover hand it over. */
  ghost predicate Complete(login: LoginResult) {
    !Blank(login.tokens.accessToken) && !Blank(login.tokens.refreshToken)
  }

  // ----- runs

  datatype Trace = Trace(login: LoginResult, states: seq<Machine>, acts: seq<Action>)

  ghost predicate IsRun(o: Oracle, tr: Trace) {
    && |tr.states| == |tr.acts| + 1
    && Complete(tr.login)
    && (var m := tr.states[0];
        && NewFromLogin(o, tr.login, m.sh.now) == Ok(m.sh.session)
        && m == Boot(m.sh.session, m.sh.now))
    && forall i :: 0 <= i < |tr.acts| ==> Step(o, tr.states[i], tr.acts[i], tr.states[i + 1])
  }
}
