/** One OAuth grant passed along an unbounded chain of daemons. Each daemon is a full interleaving
    of its own callers; a successor starts from the payload its predecessor delivered. A payload
    whose write fails has not reached anybody (internal/server/server.go, lines 156-159). */
module DaemonChain {
  import opened Basics
  import opened Tokens
  import opened SessionSpec
  import opened Interleaving
  import opened Invariant
  import opened Takeover

  /** The IdP's view of the grant: the one refresh token it honours, and whether it ever replaced
      that token without the client learning the new one. */
  datatype Idp = Idp(current: string, lost: bool)

  /** Daemons started so far, and payloads that successor processes hold or have held. */
  datatype Chain = Chain(daemons: seq<Machine>, carriers: seq<Option<LoginHandoff>>, idp: Idp)

  datatype ChainAction =
    | Local(k: nat, a: Action)                                        // any other step of one daemon
    | IdpDeals(k: nat, t: nat, answer: IdpAnswer, rotated: Option<string>)
    | HandOver(k: nat, t: nat, readAt: int)                           // written by k, read by a successor
    | Build(i: nat, secret: string, builtAt: int)                     // the successor becomes a daemon
    | Abandon(i: nat)                                                 // the successor gives up

  /** What the client makes of an answer to the request of pc. */
  function ClientReads(o: Oracle, pc: PC, answer: IdpAnswer): Option<TokenResponse>
    requires pc.Calling? || pc.Replied?
  {
    match answer
    case Panicked => None
    case Answered(discovery, http) =>
      match Refresh(o, pc.ep, pc.rt, discovery, http)
      case Ok(tr) => Some(tr)
      case Err(_) => None
  }

  /** A single-use rotating IdP: it honours and replaces only its current token, and offers no other
      token than the one it has just rotated to. */
  ghost predicate Deals(idp: Idp, rt: string, answer: IdpAnswer, rotated: Option<string>) {
    && (rotated.Some? || Grants(answer) ==> rt == idp.current)
    && (Offer(answer).Some? ==> rotated == Offer(answer))
  }

  /** A rotation that does not reach the client with the answer is a lost response. */
  function AfterDealing(idp: Idp, answer: IdpAnswer, rotated: Option<string>): Idp {
    match rotated
    case None => idp
    case Some(rt) => Idp(rt, idp.lost || Offer(answer) != rotated)
  }

  ghost predicate ChainEnabled(o: Oracle, c: Chain, a: ChainAction) {
    match a
    case Local(k, b) => k < |c.daemons| && Enabled(c.daemons[k], b) && !b.Answer? && (b.Deliver? ==> !b.written)
    case IdpDeals(k, t, answer, rotated) =>
      && k < |c.daemons| && Enabled(c.daemons[k], Answer(t, answer))
      && Deals(c.idp, c.daemons[k].threads[t].rt, answer, rotated)
    case HandOver(k, t, _) => k < |c.daemons| && Enabled(c.daemons[k], Deliver(t, true))
    case Build(i, _, _) => i < |c.carriers| && c.carriers[i].Some?
    case Abandon(i) => i < |c.carriers| && c.carriers[i].Some?
  }

  function Received(o: Oracle, d: Creds, readAt: int): seq<Option<LoginHandoff>> {
    match ParseHandoff(o, BodyOf(d), readAt)
    case Ok(h) => [Some(h)]
    case Err(_) => []
  }

  function Started(o: Oracle, h: LoginHandoff, secret: string, builtAt: int): seq<Machine> {
    match SessionFromHandoff(o, h.(secret := secret), builtAt)
    case Ok(s) => [Boot(s, builtAt)]
    case Err(_) => []
  }

  ghost function ChainApply(o: Oracle, c: Chain, a: ChainAction): Chain
    requires ChainEnabled(o, c, a)
  {
    match a
    case Local(k, b) => c.(daemons := c.daemons[k := Apply(o, c.daemons[k], b)])
    case IdpDeals(k, t, answer, rotated) =>
      c.(daemons := c.daemons[k := Apply(o, c.daemons[k], Answer(t, answer))],
         idp := AfterDealing(c.idp, answer, rotated))
    case HandOver(k, t, readAt) =>
      c.(daemons := c.daemons[k := Apply(o, c.daemons[k], Deliver(t, true))],
         carriers := c.carriers + Received(o, c.daemons[k].threads[t].snapshot, readAt))
    case Build(i, secret, builtAt) =>
      c.(daemons := c.daemons + Started(o, c.carriers[i].value, secret, builtAt), carriers := c.carriers[i := None])
    case Abandon(i) => c.(carriers := c.carriers[i := None])
  }

  datatype History = History(login: LoginResult, states: seq<Chain>, acts: seq<ChainAction>)

  /** A history starts with one daemon fresh from a login whose refresh token is the current one. */
  ghost predicate IsHistory(o: Oracle, h: History) {
    && |h.states| == |h.acts| + 1
    && Complete(h.login)
    && (var c := h.states[0];
        && |c.daemons| == 1
        && (var m := c.daemons[0];
            && NewFromLogin(o, h.login, m.sh.now) == Ok(m.sh.session)
            && m == Boot(m.sh.session, m.sh.now)
            && c == Chain([m], [], Idp(h.login.tokens.refreshToken, false))))
    && forall i :: 0 <= i < |h.acts| ==>
         ChainEnabled(o, h.states[i], h.acts[i]) && h.states[i + 1] == ChainApply(o, h.states[i], h.acts[i])
  }

  // ----- who holds the grant

  predicate Engaged(pc: PC) {
    InFlight(pc) || SnapshotOf(pc).Some?
  }

  /** The daemon may still serve, refresh or hand on the grant. */
  ghost predicate Live(m: Machine) {
    m.sh.session.state.Ready? || exists t :: 0 <= t < |m.threads| && Engaged(m.threads[t])
  }

  lemma StepAddsNoLife(o: Oracle, m: Machine, a: Action, m': Machine)
    requires Inv(o, m) && Step(o, m, a, m')
    ensures Live(m') ==> Live(m)
  {
  }

  lemma DeliveryEndsLife(o: Oracle, m: Machine, t: nat, m': Machine)
    requires Inv(o, m) && Step(o, m, Deliver(t, true), m')
    ensures Live(m) && !Live(m')
  {
  }

  // ----- which refresh token is around

  /** A refresh token that pc carries, or will store when it settles, is cur. */
  ghost predicate CarriesCurrent(o: Oracle, pc: PC, cur: string) {
    && (pc.Snapped? || pc.Calling? ==> pc.rt == cur)
    && (pc.Replied? && ClientReads(o, pc, pc.answer).Some? ==> ClientReads(o, pc, pc.answer).value.refreshToken == cur)
    && (pc.Got? ==> pc.tr.refreshToken == cur)
    && (SnapshotOf(pc).Some? ==> SnapshotOf(pc).value.refreshToken == cur)
  }

  /** A new refresh token is on its way into the session. */
  predicate Pending(o: Oracle, pc: PC) {
    pc.Got? || (pc.Replied? && ClientReads(o, pc, pc.answer).Some?)
  }

  ghost predicate NonePending(o: Oracle, m: Machine) {
    forall t :: 0 <= t < |m.threads| ==> !Pending(o, m.threads[t])
  }

  ghost predicate TokenCurrent(o: Oracle, m: Machine, cur: string) {
    && (forall t :: 0 <= t < |m.threads| ==> CarriesCurrent(o, m.threads[t], cur))
    && (m.sh.session.state.Ready? && NonePending(o, m) ==> m.sh.session.creds.refreshToken == cur)
  }

  lemma NoLifeNoToken(o: Oracle, m: Machine, cur: string)
    requires !Live(m)
    ensures TokenCurrent(o, m, cur)
  {
  }

  lemma LocalStepCarriesCurrent(o: Oracle, sh: Shared, t: nat, pc: PC, cur: string)
    requires CanRun(sh, pc) && CarriesCurrent(o, pc, cur)
    requires sh.session.state.Ready? && HoldsOp(pc) && !Pending(o, pc) ==> sh.session.creds.refreshToken == cur
    ensures CarriesCurrent(o, LocalStep(o, sh, t, pc).1, cur)
    ensures Pending(o, LocalStep(o, sh, t, pc).1) ==> Pending(o, pc)
  {
  }

  /** What a step stores is current, and what it leaves alone stays. */
  lemma LocalStepStoresCurrent(o: Oracle, sh: Shared, t: nat, pc: PC, cur: string)
    requires SharedOK(o, sh) && ThreadOK(o, sh, t, pc) && CanRun(sh, pc)
    requires CarriesCurrent(o, pc, cur)
    requires LocalStep(o, sh, t, pc).0.session.state.Ready?
    ensures var (sh', pc') := LocalStep(o, sh, t, pc);
            && (Pending(o, pc) && !Pending(o, pc') ==> sh'.session.creds.refreshToken == cur)
            && (!Pending(o, pc) ==>
                  || (sh.session.state.Ready? && sh'.session.creds.refreshToken == sh.session.creds.refreshToken)
                  || sh'.session.creds.refreshToken == cur)
  {
  }

  lemma OnlyHoldersArePending(o: Oracle, m: Machine, t: nat)
    requires Inv(o, m) && t < |m.threads|
    requires HoldsOp(m.threads[t]) || SnapshotOf(m.threads[t]).Some?
    ensures forall u :: 0 <= u < |m.threads| && u != t ==> !Pending(o, m.threads[u])
  {
  }

  lemma RunKeepsToken(o: Oracle, m: Machine, t: nat, m': Machine, cur: string)
    requires Inv(o, m) && Step(o, m, Run(t), m')
    requires TokenCurrent(o, m, cur)
    ensures TokenCurrent(o, m', cur)
  {
    var pc := m.threads[t];
    assert ThreadOK(o, m.sh, t, pc);
    if HoldsOp(pc) || SnapshotOf(pc).Some? {
      OnlyHoldersArePending(o, m, t);
    }
    LocalStepCarriesCurrent(o, m.sh, t, pc, cur);
    if m'.sh.session.state.Ready? {
      LocalStepStoresCurrent(o, m.sh, t, pc, cur);
    }
    if NonePending(o, m') {
      assert !Pending(o, m'.threads[t]);
      assert forall u :: 0 <= u < |m.threads| && u != t ==> m'.threads[u] == m.threads[u] && !Pending(o, m.threads[u]);
      assert !Pending(o, pc) ==> NonePending(o, m);
    }
  }

  lemma StepKeepsToken(o: Oracle, m: Machine, a: Action, m': Machine, cur: string)
    requires Inv(o, m) && Step(o, m, a, m') && !a.Answer?
    requires TokenCurrent(o, m, cur)
    ensures TokenCurrent(o, m', cur)
  {
    if a.Run? {
      RunKeepsToken(o, m, a.t, m', cur);
    } else {
      OutsideKeepsToken(o, m, a, m', cur);
    }
  }

  lemma OutsideKeepsToken(o: Oracle, m: Machine, a: Action, m': Machine, cur: string)
    requires Step(o, m, a, m') && !a.Answer? && !a.Run?
    requires TokenCurrent(o, m, cur)
    ensures TokenCurrent(o, m', cur)
  {
    assert m'.sh.session == m.sh.session;
    assert NonePending(o, m') ==> NonePending(o, m) by {
      assert forall u :: 0 <= u < |m.threads| && Pending(o, m.threads[u]) ==> Pending(o, m'.threads[u]);
    }
  }

  lemma DealingKeepsToken(o: Oracle, m: Machine, t: nat, answer: IdpAnswer, rotated: Option<string>, m': Machine,
                          idp: Idp)
    requires TrimsFirst(o)
    requires Inv(o, m) && Step(o, m, Answer(t, answer), m')
    requires Deals(idp, m.threads[t].rt, answer, rotated)
    requires TokenCurrent(o, m, idp.current)
    requires !AfterDealing(idp, answer, rotated).lost
    ensures TokenCurrent(o, m', AfterDealing(idp, answer, rotated).current)
  {
    var pc := m.threads[t];
    var cur := AfterDealing(idp, answer, rotated).current;
    assert ThreadOK(o, m.sh, t, pc);
    OnlyHoldersArePending(o, m, t);
    if answer.Answered? {
      RefreshKeepsOrRotates(o, pc.ep, pc.rt, answer.discovery, answer.http);
    }
    assert ClientReads(o, m'.threads[t], answer) == ClientReads(o, pc, answer);
    forall u | 0 <= u < |m'.threads| ensures CarriesCurrent(o, m'.threads[u], cur) {
      assert ThreadOK(o, m.sh, u, m.threads[u]);
      assert CarriesCurrent(o, m.threads[u], idp.current);
      assert u != t ==> PairOK(m.threads[u], pc);
    }
    assert Pending(o, m'.threads[t]) <==> ClientReads(o, pc, answer).Some?;
  }

  // ----- the invariant of the chain

  /** The grant is in one place at most: with one daemon, or with one successor process. */
  ghost predicate OneHolder(c: Chain) {
    && (forall k, l :: 0 <= k < |c.daemons| && 0 <= l < |c.daemons| && Live(c.daemons[k]) && Live(c.daemons[l]) ==>
          k == l)
    && (forall i, j :: 0 <= i < |c.carriers| && 0 <= j < |c.carriers| && c.carriers[i].Some? && c.carriers[j].Some? ==>
          i == j)
    && (forall k, i :: 0 <= k < |c.daemons| && 0 <= i < |c.carriers| && c.carriers[i].Some? ==> !Live(c.daemons[k]))
  }

  ghost predicate GoodPayload(o: Oracle, h: LoginHandoff) {
    !Blank(h.accessToken) && !Blank(h.refreshToken) && o.validEndpoint(h.tokenEndpoint)
  }

  /** Every refresh token around is the one the IdP honours. */
  ghost predicate AllCurrent(o: Oracle, c: Chain) {
    && (forall k :: 0 <= k < |c.daemons| ==> TokenCurrent(o, c.daemons[k], c.idp.current))
    && (forall i :: 0 <= i < |c.carriers| && c.carriers[i].Some? ==> c.carriers[i].value.refreshToken == c.idp.current)
  }

  ghost predicate ChainInv(o: Oracle, c: Chain) {
    && (forall k :: 0 <= k < |c.daemons| ==> Inv(o, c.daemons[k]))
    && OneHolder(c)
    && (forall i :: 0 <= i < |c.carriers| && c.carriers[i].Some? ==> GoodPayload(o, c.carriers[i].value))
    && (!c.idp.lost ==> AllCurrent(o, c))
  }

  lemma LocalKeepsChainInv(o: Oracle, c: Chain, k: nat, b: Action, c': Chain)
    requires ChainInv(o, c) && ChainEnabled(o, c, Local(k, b)) && c' == ChainApply(o, c, Local(k, b))
    ensures ChainInv(o, c')
  {
    var m, m' := c.daemons[k], c'.daemons[k];
    StepKeepsInv(o, m, b, m');
    StepAddsNoLife(o, m, b, m');
    if !c.idp.lost {
      StepKeepsToken(o, m, b, m', c.idp.current);
    }
  }

  lemma DealingKeepsChainInv(o: Oracle, c: Chain, a: ChainAction, c': Chain)
    requires TrimsFirst(o) && a.IdpDeals?
    requires ChainInv(o, c) && ChainEnabled(o, c, a) && c' == ChainApply(o, c, a)
    ensures ChainInv(o, c')
  {
    var k := a.k;
    var m, m' := c.daemons[k], c'.daemons[k];
    StepKeepsInv(o, m, Answer(a.t, a.answer), m');
    StepAddsNoLife(o, m, Answer(a.t, a.answer), m');
    assert Engaged(m.threads[a.t]);
    if !c'.idp.lost {
      DealingKeepsToken(o, m, a.t, a.answer, a.rotated, m', c.idp);
      forall l | 0 <= l < |c'.daemons| ensures TokenCurrent(o, c'.daemons[l], c'.idp.current) {
        if l != k {
          NoLifeNoToken(o, c.daemons[l], c'.idp.current);
        }
      }
    }
  }

  lemma ReceivedIsGood(o: Oracle, d: Creds, readAt: int)
    ensures |Received(o, d, readAt)| <= 1
    ensures forall h :: h in Received(o, d, readAt) ==>
              h.Some? && GoodPayload(o, h.value) && h.value.refreshToken == d.refreshToken
  {
  }

  lemma HandOverLeavesNoLife(o: Oracle, c: Chain, a: ChainAction, c': Chain)
    requires a.HandOver?
    requires ChainInv(o, c) && ChainEnabled(o, c, a) && c' == ChainApply(o, c, a)
    ensures forall l :: 0 <= l < |c'.daemons| ==> Inv(o, c'.daemons[l]) && !Live(c'.daemons[l])
    ensures forall i :: 0 <= i < |c.carriers| ==> c.carriers[i].None?
  {
    var m, m' := c.daemons[a.k], c'.daemons[a.k];
    StepKeepsInv(o, m, Deliver(a.t, true), m');
    DeliveryEndsLife(o, m, a.t, m');
  }

  lemma HandOverKeepsChainInv(o: Oracle, c: Chain, a: ChainAction, c': Chain)
    requires a.HandOver?
    requires ChainInv(o, c) && ChainEnabled(o, c, a) && c' == ChainApply(o, c, a)
    ensures ChainInv(o, c')
  {
    HandOverLeavesNoLife(o, c, a, c');
    var pc := c.daemons[a.k].threads[a.t];
    ReceivedIsGood(o, pc.snapshot, a.readAt);
    var news := Received(o, pc.snapshot, a.readAt);
    assert c'.carriers == c.carriers + news;
    assert |news| == 1 ==> news[0] in news;
    if !c'.idp.lost {
      assert CarriesCurrent(o, pc, c.idp.current);
      forall l | 0 <= l < |c'.daemons| ensures TokenCurrent(o, c'.daemons[l], c'.idp.current) {
        NoLifeNoToken(o, c'.daemons[l], c'.idp.current);
      }
    }
  }

  lemma StartedIsSound(o: Oracle, h: LoginHandoff, secret: string, builtAt: int)
    requires GoodPayload(o, h)
    ensures forall m :: m in Started(o, h, secret, builtAt) ==>
              Inv(o, m) && m.threads == [] && m.sh.session.creds.refreshToken == h.refreshToken
  {
  }

  lemma BuildKeepsChainInv(o: Oracle, c: Chain, a: ChainAction, c': Chain)
    requires a.Build?
    requires ChainInv(o, c) && ChainEnabled(o, c, a) && c' == ChainApply(o, c, a)
    ensures ChainInv(o, c')
  {
    var h := c.carriers[a.i].value;
    StartedIsSound(o, h, a.secret, a.builtAt);
    var news := Started(o, h, a.secret, a.builtAt);
    assert |news| <= 1;
    assert forall i :: 0 <= i < |c'.carriers| ==> c'.carriers[i].None?;
    assert forall k :: 0 <= k < |c.daemons| ==> !Live(c.daemons[k]);
    assert |news| == 1 ==> news[0] in news;
  }

  lemma AbandonKeepsChainInv(o: Oracle, c: Chain, a: ChainAction, c': Chain)
    requires a.Abandon?
    requires ChainInv(o, c) && ChainEnabled(o, c, a) && c' == ChainApply(o, c, a)
    ensures ChainInv(o, c')
  {
  }

  lemma {:induction false} HistoryInv(o: Oracle, h: History, i: nat)
    requires TrimsFirst(o) && IsHistory(o, h) && i < |h.states|
    ensures ChainInv(o, h.states[i])
  {
    if i == 0 {
      var m := h.states[0].daemons[0];
      LoginIsSound(o, h.login, m.sh.now);
      BootSatisfiesInv(o, m.sh.session, m.sh.now);
    } else {
      HistoryInv(o, h, i - 1);
      var c, a, c' := h.states[i - 1], h.acts[i - 1], h.states[i];
      match a
      case Local(k, b) => LocalKeepsChainInv(o, c, k, b, c');
      case IdpDeals(_, _, _, _) => DealingKeepsChainInv(o, c, a, c');
      case HandOver(_, _, _) => HandOverKeepsChainInv(o, c, a, c');
      case Build(_, _, _) => BuildKeepsChainInv(o, c, a, c');
      case Abandon(_) => AbandonKeepsChainInv(o, c, a, c');
    }
  }

  // ----- the main results

  /** Single refresher: from one login on, through any number of racing takeovers, failed and
      abandoned deliveries, logouts and refreshes, at most one daemon is ready or engaged with the
      grant; and while a payload is being delivered, or is with a successor, no daemon is ready. */
  lemma SingleRefresher(o: Oracle, h: History, i: nat, k: nat, l: nat)
    requires TrimsFirst(o) && IsHistory(o, h) && i < |h.states|
    requires k < |h.states[i].daemons| && l < |h.states[i].daemons|
    ensures Live(h.states[i].daemons[k]) && Live(h.states[i].daemons[l]) ==> k == l
    ensures var threads := h.states[i].daemons[k].threads;
            (exists t :: 0 <= t < |threads| && SnapshotOf(threads[t]).Some?) ==>
              !h.states[i].daemons[l].sh.session.state.Ready?
    ensures (exists j :: 0 <= j < |h.states[i].carriers| && h.states[i].carriers[j].Some?) ==>
              !h.states[i].daemons[l].sh.session.state.Ready?
  {
    HistoryInv(o, h, i);
    var m := h.states[i].daemons[k];
    if t :| 0 <= t < |m.threads| && SnapshotOf(m.threads[t]).Some? {
      assert Engaged(m.threads[t]) && ThreadOK(o, m.sh, t, m.threads[t]);
    }
  }

  /** At most one request to the IdP is under way in the whole chain. */
  lemma OneRequestInTheChain(o: Oracle, h: History, i: nat, k: nat, t: nat, l: nat, u: nat)
    requires TrimsFirst(o) && IsHistory(o, h) && i < |h.states|
    requires k < |h.states[i].daemons| && t < |h.states[i].daemons[k].threads|
    requires l < |h.states[i].daemons| && u < |h.states[i].daemons[l].threads|
    requires InFlight(h.states[i].daemons[k].threads[t]) && InFlight(h.states[i].daemons[l].threads[u])
    ensures k == l && t == u
  {
    HistoryInv(o, h, i);
    var m, n := h.states[i].daemons[k], h.states[i].daemons[l];
    assert Engaged(m.threads[t]) && Engaged(n.threads[u]);
    assert ThreadOK(o, m.sh, t, m.threads[t]) && ThreadOK(o, n.sh, u, n.threads[u]);
  }

  /** The refresh tokens a caller has in hand: the one it presents, or the one in its snapshot. */
  ghost predicate HoldsOnly(pc: PC, cur: string) {
    && (pc.Snapped? || pc.Calling? ==> pc.rt == cur)
    && (SnapshotOf(pc).Some? ==> SnapshotOf(pc).value.refreshToken == cur)
  }

  /** No caller of the daemon is in an unsettled refresh. */
  ghost predicate Settled(m: Machine) {
    forall t :: 0 <= t < |m.threads| ==> !InFlight(m.threads[t])
  }

  /** No lost rotation: unless an IdP response was lost, every refresh token that is presented to the
      IdP, drained for a takeover, carried by a successor, or held by a ready session with no refresh
      under way is the one the IdP honours. */
  lemma NoLostRotation(o: Oracle, h: History, i: nat)
    requires TrimsFirst(o) && IsHistory(o, h) && i < |h.states| && !h.states[i].idp.lost
    ensures var c := h.states[i];
            && (forall k, t :: 0 <= k < |c.daemons| && 0 <= t < |c.daemons[k].threads| ==>
                  HoldsOnly(c.daemons[k].threads[t], c.idp.current))
            && (forall j :: 0 <= j < |c.carriers| && c.carriers[j].Some? ==>
                  c.carriers[j].value.refreshToken == c.idp.current)
            && (forall k :: 0 <= k < |c.daemons| && c.daemons[k].sh.session.state.Ready? && Settled(c.daemons[k]) ==>
                  c.daemons[k].sh.session.creds.refreshToken == c.idp.current)
  {
    HistoryInv(o, h, i);
    var c := h.states[i];
    forall k | 0 <= k < |c.daemons|
      ensures forall t :: 0 <= t < |c.daemons[k].threads| ==> HoldsOnly(c.daemons[k].threads[t], c.idp.current)
      ensures c.daemons[k].sh.session.state.Ready? && Settled(c.daemons[k]) ==>
                c.daemons[k].sh.session.creds.refreshToken == c.idp.current
    {
      var m := c.daemons[k];
      assert TokenCurrent(o, m, c.idp.current);
      assert forall t :: 0 <= t < |m.threads| ==> CarriesCurrent(o, m.threads[t], c.idp.current);
      assert Settled(m) ==> NonePending(o, m);
    }
  }

  /** A response counts as lost only where the IdP did replace the token and the client did not get the
      new one with the answer. */
  lemma {:induction false} LostMeansLost(o: Oracle, h: History, i: nat)
    requires IsHistory(o, h) && i < |h.states| && h.states[i].idp.lost
    ensures exists k :: 0 <= k < i && LosesRotation(h.acts[k])
  {
    if !h.states[i - 1].idp.lost {
      assert ChainEnabled(o, h.states[i - 1], h.acts[i - 1]);
      assert LosesRotation(h.acts[i - 1]);
    } else {
      LostMeansLost(o, h, i - 1);
    }
  }

  ghost predicate LosesRotation(a: ChainAction) {
    a.IdpDeals? && a.rotated.Some? && Offer(a.answer) != a.rotated
  }
}
