/** The chain of daemons on one clock: how long tokens are served from a cache after refreshes and
    takeovers in any order (internal/session/session.go, cmd/xai-oauth/takeover.go). */
module ChainClock {
  import opened Basics
  import opened Tokens
  import opened SessionSpec
  import opened Interleaving
  import opened Invariant
  import opened Outcomes
  import opened Takeover
  import opened DaemonChain

  // ----- histories on one clock

  /** Whoever reads a clock with this action reads at. */
  ghost predicate OnTime(c: Chain, a: ChainAction, at: int) {
    match a
    case Local(k, b) => b.Run? && k < |c.daemons| ==> c.daemons[k].sh.now == at
    case HandOver(_, _, readAt) => readAt == at
    case Build(_, _, builtAt) => builtAt == at
    case _ => true
  }

  /** All daemons and successors go by one clock, which never goes back. */
  ghost predicate Timed(h: History, clock: seq<int>) {
    && |clock| == |h.states| == |h.acts| + 1
    && (forall i :: 0 <= i < |h.acts| ==> OnTime(h.states[i], h.acts[i], clock[i]))
    && (forall i :: 0 <= i < |h.acts| ==> clock[i] <= clock[i + 1])
  }

  // ----- the ledger

  /** The access token installed last, by login or refresh; its expiry, as given with it or as read off
      its own exp claim by a successor that found no time left on it; how long payloads have been under
      way since that expiry was given; and when the last payload was read. */
  datatype Ledger = Ledger(token: string, expiry: int, delay: int, handedAt: int)

  function Entered(o: Oracle, c: Chain, a: ChainAction, at: int, l: Ledger): Ledger {
    match a
    case Local(k, b) =>
      if k < |c.daemons| && Installs(c.daemons[k], b) then
        var pc := c.daemons[k].threads[b.t];
        Ledger(pc.tr.accessToken, pc.expiry.at, 0, l.handedAt)
      else l
    case HandOver(_, _, _) => l.(handedAt := at)
    case Build(i, _, _) =>
      if i >= |c.carriers| || c.carriers[i].None? then l
      else if c.carriers[i].value.expiresIn == 0 then l.(expiry := o.jwtExp(l.token) * SECOND, delay := 0)
      else l.(delay := l.delay + (at - l.handedAt) + Gained(c.carriers[i].value.expiresIn))
    case _ => l
  }

  ghost function LedgerAt(o: Oracle, h: History, clock: seq<int>, i: nat): Ledger
    requires IsHistory(o, h) && |clock| == |h.states| && i < |h.states|
  {
    if i == 0 then
      var d := h.states[0].daemons[0].sh.session.creds;
      Ledger(d.accessToken, d.expiresAt, 0, clock[0])
    else Entered(o, h.states[i - 1], h.acts[i - 1], clock[i - 1], LedgerAt(o, h, clock, i - 1))
  }

  // ----- what the ledger says of everything around

  function Limit(l: Ledger): int {
    l.expiry + l.delay
  }

  /** These are credentials with the token on the ledger, and within its limit. */
  predicate CredsBooked(d: Creds, l: Ledger) {
    && d.accessToken == l.token
    && (d.hasExpiry ==> d.expiresAt <= Limit(l))
  }

  predicate MachineBooked(m: Machine, l: Ledger) {
    && (m.sh.session.state.Ready? ==> CredsBooked(m.sh.session.creds, l))
    && (forall t :: 0 <= t < |m.threads| && SnapshotOf(m.threads[t]).Some? ==>
          CredsBooked(SnapshotOf(m.threads[t]).value, l))
  }

  predicate PayloadBooked(p: LoginHandoff, l: Ledger) {
    && p.accessToken == l.token
    && 0 <= p.expiresIn <= MAX_SECONDS
    && (p.expiresIn > 0 ==> l.handedAt + p.expiresIn * SECOND <= Limit(l) + Gained(p.expiresIn))
  }

  /** At this time every ready session, snapshot and payload has exactly the token on the ledger, with
      an expiry within its limit. */
  predicate Booked(c: Chain, l: Ledger, at: int) {
    && l.handedAt <= at
    && (forall k :: 0 <= k < |c.daemons| ==> MachineBooked(c.daemons[k], l))
    && (forall i :: 0 <= i < |c.carriers| && c.carriers[i].Some? ==> PayloadBooked(c.carriers[i].value, l))
  }

  lemma StepStaysBooked(o: Oracle, m: Machine, a: Action, m': Machine, l: Ledger)
    requires Step(o, m, a, m') && MachineBooked(m, l) && !Installs(m, a)
    ensures MachineBooked(m', l)
  {
  }

  lemma LifelessIsBooked(m: Machine, l: Ledger)
    requires !Live(m)
    ensures MachineBooked(m, l)
  {
  }

  /** An install gives the session its new token and expiry, and nobody else in the chain has any credentials. */
  lemma InstallKeepsBooked(o: Oracle, c: Chain, k: nat, b: Action, at: int, l: Ledger)
    requires ChainInv(o, c) && ChainEnabled(o, c, Local(k, b)) && Installs(c.daemons[k], b) && l.handedAt <= at
    ensures Booked(ChainApply(o, c, Local(k, b)), Entered(o, c, Local(k, b), at, l), at)
  {
  }

  lemma LocalKeepsBooked(o: Oracle, c: Chain, a: ChainAction, at: int, l: Ledger)
    requires ChainInv(o, c) && ChainEnabled(o, c, a) && (a.Local? || a.IdpDeals?) && Booked(c, l, at)
    ensures Booked(ChainApply(o, c, a), Entered(o, c, a, at, l), at)
  {
    var b := if a.Local? then a.a else Answer(a.t, a.answer);
    if Installs(c.daemons[a.k], b) {
      InstallKeepsBooked(o, c, a.k, b, at, l);
    } else {
      StepStaysBooked(o, c.daemons[a.k], b, Apply(o, c.daemons[a.k], b), l);
    }
  }

  lemma ReceivedIsBooked(o: Oracle, d: Creds, readAt: int, l: Ledger)
    requires CredsBooked(d, l)
    ensures forall p :: p in Received(o, d, readAt) ==> p.Some? && PayloadBooked(p.value, l.(handedAt := readAt))
  {
  }

  lemma HandOverKeepsMachines(o: Oracle, c: Chain, a: ChainAction, l: Ledger)
    requires ChainInv(o, c) && ChainEnabled(o, c, a) && a.HandOver?
    ensures forall k :: 0 <= k < |ChainApply(o, c, a).daemons| ==> MachineBooked(ChainApply(o, c, a).daemons[k], l)
    ensures forall i :: 0 <= i < |c.carriers| ==> c.carriers[i].None?
  {
    var c' := ChainApply(o, c, a);
    HandOverLeavesNoLife(o, c, a, c');
    forall k | 0 <= k < |c'.daemons| ensures MachineBooked(c'.daemons[k], l) {
      LifelessIsBooked(c'.daemons[k], l);
    }
  }

  lemma HandOverKeepsBooked(o: Oracle, c: Chain, a: ChainAction, at: int, l: Ledger)
    requires ChainInv(o, c) && ChainEnabled(o, c, a) && a.HandOver? && a.readAt == at && Booked(c, l, at)
    ensures Booked(ChainApply(o, c, a), Entered(o, c, a, at, l), at)
  {
    HandOverKeepsMachines(o, c, a, l.(handedAt := at));
    var d := c.daemons[a.k].threads[a.t].snapshot;
    ReceivedIsBooked(o, d, at, l);
    var news := Received(o, d, at);
    assert ChainApply(o, c, a).carriers == c.carriers + news;
    assert |news| == 1 ==> news[0] in news;
  }

  lemma BuildKeepsBooked(o: Oracle, c: Chain, a: ChainAction, at: int, l: Ledger)
    requires ChainInv(o, c) && ChainEnabled(o, c, a) && a.Build? && a.builtAt == at && Booked(c, l, at)
    ensures Booked(ChainApply(o, c, a), Entered(o, c, a, at, l), at)
  {
  }

  lemma ActionKeepsBooked(o: Oracle, c: Chain, a: ChainAction, at: int, l: Ledger)
    requires ChainInv(o, c) && ChainEnabled(o, c, a) && OnTime(c, a, at) && Booked(c, l, at)
    ensures Booked(ChainApply(o, c, a), Entered(o, c, a, at, l), at)
  {
    match a
    case Local(_, _) => LocalKeepsBooked(o, c, a, at, l);
    case IdpDeals(_, _, _, _) => LocalKeepsBooked(o, c, a, at, l);
    case HandOver(_, _, _) => HandOverKeepsBooked(o, c, a, at, l);
    case Build(_, _, _) => BuildKeepsBooked(o, c, a, at, l);
    case Abandon(_) =>
  }

  lemma StepOfHistoryKeepsBooked(o: Oracle, h: History, clock: seq<int>, i: nat, l: Ledger)
    requires TrimsFirst(o) && IsHistory(o, h) && Timed(h, clock) && i < |h.acts|
    requires Booked(h.states[i], l, clock[i])
    ensures Booked(h.states[i + 1], Entered(o, h.states[i], h.acts[i], clock[i], l), clock[i + 1])
  {
    HistoryInv(o, h, i);
    assert OnTime(h.states[i], h.acts[i], clock[i]);
    ActionKeepsBooked(o, h.states[i], h.acts[i], clock[i], l);
    assert clock[i] <= clock[i + 1];
  }

  /** At every point of every timed history the ledger names the token that is around, and bounds the
      expiry anybody believes it to have. */
  lemma {:induction false} LedgerIsBooked(o: Oracle, h: History, clock: seq<int>, i: nat)
    requires TrimsFirst(o) && IsHistory(o, h) && Timed(h, clock) && i < |h.states|
    ensures Booked(h.states[i], LedgerAt(o, h, clock, i), clock[i])
  {
    if i > 0 {
      LedgerIsBooked(o, h, clock, i - 1);
      StepOfHistoryKeepsBooked(o, h, clock, i - 1, LedgerAt(o, h, clock, i - 1));
    }
  }

  // ----- the main result

  /** With this action a caller gets tok, and not straight from the IdP or from another call. */
  ghost predicate ServesHeldToken(o: Oracle, c: Chain, a: ChainAction, tok: string)
    requires ChainEnabled(o, c, a)
  {
    && a.Local? && a.a.Run?
    && (var m := c.daemons[a.k];
        && !m.threads[a.a.t].Got?
        && Decides(m.threads[a.a.t], Apply(o, m, a.a).threads[a.a.t], Token(tok)))
  }

  lemma HeldTokenIsInTime(o: Oracle, sh: Shared, t: nat, pc: PC, tok: string, l: Ledger)
    requires CanRun(sh, pc) && !pc.Got? && Decides(pc, LocalStep(o, sh, t, pc).1, Token(tok))
    requires SharedOK(o, sh)
    requires sh.session.state.Ready? ==> CredsBooked(sh.session.creds, l)
    ensures tok == l.token && sh.now < Limit(l) && (!pc.Failed? ==> sh.now < Limit(l) - REFRESH_SKEW)
  {
  }

  /** In every history on one clock, through refreshes, failed refreshes, rollbacks and takeovers in any
      order, a daemon that serves a token it holds serves the one installed last, and before its expiry
      plus the time payloads have been under way since; and more than the refresh skew before that,
      unless a refresh has just failed. The expiry is the one given with the token, or the token's own
      exp claim from a takeover on that found no time left. So while payloads spend no more than the
      skew on their way, the token is served from caches only before that expiry. */
  lemma HeldTokensAreServedInTime(o: Oracle, h: History, clock: seq<int>, i: nat, tok: string)
    requires TrimsFirst(o) && IsHistory(o, h) && Timed(h, clock) && i < |h.acts|
    requires ServesHeldToken(o, h.states[i], h.acts[i], tok)
    ensures var l := LedgerAt(o, h, clock, i);
            var pc := h.states[i].daemons[h.acts[i].k].threads[h.acts[i].a.t];
            && tok == l.token
            && clock[i] < Limit(l)
            && (!pc.Failed? ==> clock[i] < Limit(l) - REFRESH_SKEW)
  {
    LedgerIsBooked(o, h, clock, i);
    HistoryInv(o, h, i);
    var c, a := h.states[i], h.acts[i];
    assert OnTime(c, a, clock[i]);
    var m := c.daemons[a.k];
    HeldTokenIsInTime(o, m.sh, a.a.t, m.threads[a.a.t], tok, LedgerAt(o, h, clock, i));
  }
}
