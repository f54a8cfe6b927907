/** When the grant is gone for the whole chain: after the death of a ready session always, after a
    logout exactly if nothing was on its way any more (internal/server/server.go, lines 108-167). */
module GrantEnd {
  import opened Basics
  import opened Tokens
  import opened SessionSpec
  import opened Interleaving
  import opened Invariant
  import opened DaemonChain
  import opened Example

  // ----- the death of a ready session

  /** Nobody is ready, and no credentials are on their way anywhere. */
  ghost predicate Extinct(c: Chain) {
    && (forall k :: 0 <= k < |c.daemons| ==> Spent(c.daemons[k]))
    && (forall i :: 0 <= i < |c.carriers| ==> c.carriers[i].None?)
  }

  ghost predicate Spent(m: Machine) {
    && !m.sh.session.state.Ready?
    && forall t :: 0 <= t < |m.threads| ==> SnapshotOf(m.threads[t]).None?
  }

  lemma ExtinctionIsFinal(o: Oracle, c: Chain, a: ChainAction, c': Chain)
    requires ChainEnabled(o, c, a) && c' == ChainApply(o, c, a) && Extinct(c)
    ensures Extinct(c')
  {
  }

  lemma DeathIsExtinction(o: Oracle, c: Chain, k: nat, b: Action, c': Chain)
    requires ChainInv(o, c) && ChainEnabled(o, c, Local(k, b)) && c' == ChainApply(o, c, Local(k, b))
    requires c.daemons[k].sh.session.state.Ready? && Dead(c'.daemons[k].sh.session)
    ensures Extinct(c')
  {
  }

  lemma StepOfHistoryStaysExtinct(o: Oracle, h: History, i: nat)
    requires IsHistory(o, h) && i < |h.acts| && Extinct(h.states[i])
    ensures Extinct(h.states[i + 1])
  {
    ExtinctionIsFinal(o, h.states[i], h.acts[i], h.states[i + 1]);
  }

  lemma {:induction false} ExtinctFromThenOn(o: Oracle, h: History, i: nat, j: nat)
    requires IsHistory(o, h) && i <= j < |h.states| && Extinct(h.states[i])
    ensures Extinct(h.states[j])
  {
    if i < j {
      ExtinctFromThenOn(o, h, i, j - 1);
      StepOfHistoryStaysExtinct(o, h, j - 1);
    }
  }

  /** When a ready session dies, by logout or by a terminal refresh, the grant is gone for the whole
      chain: no daemon is ever ready again and no payload is ever under way. */
  lemma DeathEndsTheGrant(o: Oracle, h: History, k: nat, b: Action, i: nat, j: nat)
    requires TrimsFirst(o) && IsHistory(o, h) && i < j < |h.states|
    requires h.acts[i] == Local(k, b) && k < |h.states[i].daemons| && k < |h.states[i + 1].daemons|
    requires h.states[i].daemons[k].sh.session.state.Ready? && Dead(h.states[i + 1].daemons[k].sh.session)
    ensures Extinct(h.states[j])
  {
    HistoryInv(o, h, i);
    DeathIsExtinction(o, h.states[i], k, b, h.states[i + 1]);
    ExtinctFromThenOn(o, h, i + 1, j);
  }

  // ----- what can still happen

  /** The actions can be taken one after the other, starting in c. */
  ghost predicate Possible(o: Oracle, c: Chain, acts: seq<ChainAction>)
    decreases |acts|
  {
    acts == [] || (ChainEnabled(o, c, acts[0]) && Possible(o, ChainApply(o, c, acts[0]), acts[1..]))
  }

  ghost function After(o: Oracle, c: Chain, acts: seq<ChainAction>): Chain
    requires Possible(o, c, acts)
    decreases |acts|
  {
    if acts == [] then c else After(o, ChainApply(o, c, acts[0]), acts[1..])
  }

  ghost predicate SomeReady(c: Chain) {
    exists k :: 0 <= k < |c.daemons| && c.daemons[k].sh.session.state.Ready?
  }

  /** A ready daemon has these tokens. */
  ghost predicate Held(c: Chain, accessToken: string, refreshToken: string) {
    exists k :: 0 <= k < |c.daemons|
      && c.daemons[k].sh.session.state.Ready?
      && c.daemons[k].sh.session.creds.accessToken == accessToken
      && c.daemons[k].sh.session.creds.refreshToken == refreshToken
  }

  /** Some continuation from c on has a ready daemon. */
  ghost predicate MayBeReadyAgain(o: Oracle, c: Chain) {
    exists acts :: Possible(o, c, acts) && SomeReady(After(o, c, acts))
  }

  /** Some continuation from c on has a ready daemon with these tokens. */
  ghost predicate MayBeHeldAgain(o: Oracle, c: Chain, accessToken: string, refreshToken: string) {
    exists acts :: Possible(o, c, acts) && Held(After(o, c, acts), accessToken, refreshToken)
  }

  lemma StepFirst(o: Oracle, c: Chain, a: ChainAction, accessToken: string, refreshToken: string)
    requires ChainEnabled(o, c, a) && MayBeHeldAgain(o, ChainApply(o, c, a), accessToken, refreshToken)
    ensures MayBeHeldAgain(o, c, accessToken, refreshToken)
  {
    var next := ChainApply(o, c, a);
    var acts :| Possible(o, next, acts) && Held(After(o, next, acts), accessToken, refreshToken);
    var all := [a] + acts;
    assert all[0] == a && all[1..] == acts;
    assert Possible(o, c, all) && After(o, c, all) == After(o, next, acts);
  }

  lemma HeldMeansReady(o: Oracle, c: Chain, accessToken: string, refreshToken: string)
    requires MayBeHeldAgain(o, c, accessToken, refreshToken)
    ensures MayBeReadyAgain(o, c)
  {
  }

  // ----- gone for good

  /** The caller has a payload that can still leave the daemon. */
  predicate Outgoing(pc: PC) {
    (pc.DrainUnlocking? && pc.drained.Some?) || pc.Delivering?
  }

  /** The daemon is not ready, hands nothing on, and has no rollback ahead that would take effect. */
  ghost predicate Finished(m: Machine) {
    && !m.sh.session.state.Ready?
    && (forall t :: 0 <= t < |m.threads| ==> !Outgoing(m.threads[t]))
    && (m.sh.session.state.HandedOff? ==> forall t :: 0 <= t < |m.threads| ==> !m.threads[t].Restoring?)
  }

  ghost predicate Gone(c: Chain) {
    && (forall k :: 0 <= k < |c.daemons| ==> Finished(c.daemons[k]))
    && (forall i :: 0 <= i < |c.carriers| ==> c.carriers[i].None?)
  }

  lemma FinishedIsFinal(o: Oracle, m: Machine, a: Action, m': Machine)
    requires Step(o, m, a, m') && Finished(m)
    ensures Finished(m')
  {
  }

  lemma GoneIsFinal(o: Oracle, c: Chain, a: ChainAction)
    requires ChainEnabled(o, c, a) && Gone(c)
    ensures Gone(ChainApply(o, c, a))
  {
    match a
    case Local(k, b) => FinishedIsFinal(o, c.daemons[k], b, Apply(o, c.daemons[k], b));
    case IdpDeals(k, t, answer, _) =>
      FinishedIsFinal(o, c.daemons[k], Answer(t, answer), Apply(o, c.daemons[k], Answer(t, answer)));
    case HandOver(_, _, _) => assert false;
    case Build(_, _, _) =>
    case Abandon(_) =>
  }

  lemma {:induction false} GoneFromThenOn(o: Oracle, c: Chain, acts: seq<ChainAction>)
    requires Gone(c) && Possible(o, c, acts)
    ensures Gone(After(o, c, acts))
    decreases |acts|
  {
    if acts != [] {
      GoneIsFinal(o, c, acts[0]);
      GoneFromThenOn(o, ChainApply(o, c, acts[0]), acts[1..]);
    }
  }

  // ----- not gone: the way back

  lemma ReadyIsReady(o: Oracle, c: Chain, k: nat)
    requires k < |c.daemons| && c.daemons[k].sh.session.state.Ready?
    ensures var d := c.daemons[k].sh.session.creds; MayBeHeldAgain(o, c, d.accessToken, d.refreshToken)
  {
    var none: seq<ChainAction> := [];
    assert Possible(o, c, none) && After(o, c, none) == c;
  }

  lemma CarrierStarts(o: Oracle, c: Chain, i: nat)
    requires i < |c.carriers| && c.carriers[i].Some? && GoodPayload(o, c.carriers[i].value)
    ensures MayBeHeldAgain(o, c, c.carriers[i].value.accessToken, c.carriers[i].value.refreshToken)
  {
    var a := Build(i, "secret", 0);
    assert !IsSpace("secret"[0]);
    var c' := ChainApply(o, c, a);
    ReadyIsReady(o, c', |c.daemons|);
    StepFirst(o, c, a, c.carriers[i].value.accessToken, c.carriers[i].value.refreshToken);
  }

  lemma PayloadArrives(o: Oracle, d: Creds, readAt: int)
    requires Usable(o, d)
    ensures |Received(o, d, readAt)| == 1
    ensures var h := Received(o, d, readAt)[0];
            && h.Some? && GoodPayload(o, h.value)
            && h.value.accessToken == d.accessToken && h.value.refreshToken == d.refreshToken
  {
  }

  lemma DeliveryStarts(o: Oracle, c: Chain, k: nat, t: nat)
    requires ChainInv(o, c) && k < |c.daemons| && t < |c.daemons[k].threads| && c.daemons[k].threads[t].Delivering?
    ensures var d := c.daemons[k].threads[t].snapshot; MayBeHeldAgain(o, c, d.accessToken, d.refreshToken)
  {
    var m := c.daemons[k];
    assert ThreadOK(o, m.sh, t, m.threads[t]);
    var d := m.threads[t].snapshot;
    PayloadArrives(o, d, 0);
    var a := HandOver(k, t, 0);
    CarrierStarts(o, ChainApply(o, c, a), |c.carriers|);
    StepFirst(o, c, a, d.accessToken, d.refreshToken);
  }

  /** A payload that can still leave its daemon can end up with a successor, tokens unchanged. */
  lemma OutgoingStarts(o: Oracle, c: Chain, k: nat, t: nat)
    requires ChainInv(o, c) && k < |c.daemons| && t < |c.daemons[k].threads| && Outgoing(c.daemons[k].threads[t])
    ensures var d := SnapshotOf(c.daemons[k].threads[t]).value; MayBeHeldAgain(o, c, d.accessToken, d.refreshToken)
  {
    var pc := c.daemons[k].threads[t];
    if pc.Delivering? {
      DeliveryStarts(o, c, k, t);
    } else {
      var a := Local(k, Run(t));
      var c' := ChainApply(o, c, a);
      LocalKeepsChainInv(o, c, k, Run(t), c');
      DeliveryStarts(o, c', k, t);
      StepFirst(o, c, a, pc.drained.value.accessToken, pc.drained.value.refreshToken);
    }
  }

  lemma RollbackRevives(o: Oracle, c: Chain, k: nat, t: nat)
    requires k < |c.daemons| && t < |c.daemons[k].threads| && c.daemons[k].threads[t].Restoring?
    requires c.daemons[k].sh.session.state.HandedOff?
    ensures var d := c.daemons[k].threads[t].snapshot; MayBeHeldAgain(o, c, d.accessToken, d.refreshToken)
  {
    var d := c.daemons[k].threads[t].snapshot;
    var a := Local(k, Run(t));
    ReadyIsReady(o, ChainApply(o, c, a), k);
    StepFirst(o, c, a, d.accessToken, d.refreshToken);
  }

  lemma UnfinishedRevives(o: Oracle, c: Chain, k: nat)
    requires ChainInv(o, c) && k < |c.daemons| && !Finished(c.daemons[k])
    ensures MayBeReadyAgain(o, c)
  {
    var m := c.daemons[k];
    var d: Creds;
    if m.sh.session.state.Ready? {
      d := m.sh.session.creds;
      ReadyIsReady(o, c, k);
    } else if t :| 0 <= t < |m.threads| && Outgoing(m.threads[t]) {
      d := SnapshotOf(m.threads[t]).value;
      OutgoingStarts(o, c, k, t);
    } else {
      var t :| 0 <= t < |m.threads| && m.threads[t].Restoring?;
      d := m.threads[t].snapshot;
      RollbackRevives(o, c, k, t);
    }
    HeldMeansReady(o, c, d.accessToken, d.refreshToken);
  }

  lemma GoneOrNot(o: Oracle, c: Chain)
    requires ChainInv(o, c)
    ensures MayBeReadyAgain(o, c) <==> !Gone(c)
  {
    if Gone(c) {
      forall acts | Possible(o, c, acts) ensures !SomeReady(After(o, c, acts)) {
        GoneFromThenOn(o, c, acts);
      }
    } else if k :| 0 <= k < |c.daemons| && !Finished(c.daemons[k]) {
      UnfinishedRevives(o, c, k);
    } else {
      var i :| 0 <= i < |c.carriers| && c.carriers[i].Some?;
      CarrierStarts(o, c, i);
      HeldMeansReady(o, c, c.carriers[i].value.accessToken, c.carriers[i].value.refreshToken);
    }
  }

  /** Whether a daemon can ever be ready again, from any point of any history on: exactly unless every
      daemon has finished with the grant and no successor has a payload. */
  lemma GrantIsGoneExactlyWhen(o: Oracle, h: History, i: nat)
    requires TrimsFirst(o) && IsHistory(o, h) && i < |h.states|
    ensures MayBeReadyAgain(o, h.states[i]) <==> !Gone(h.states[i])
  {
    HistoryInv(o, h, i);
    GoneOrNot(o, h.states[i]);
  }

  // ----- logout

  /** What has to hold when the logout of daemon k clears its session: the session was ready, or
      nothing leaves k any more, no other daemon has the grant or gets it back, and no successor
      has a payload. */
  ghost predicate LogoutIsInTime(c: Chain, k: nat)
    requires k < |c.daemons|
  {
    || c.daemons[k].sh.session.state.Ready?
    || (&& (forall t :: 0 <= t < |c.daemons[k].threads| ==> !Outgoing(c.daemons[k].threads[t]))
        && (forall l :: 0 <= l < |c.daemons| && l != k ==> Finished(c.daemons[l]))
        && (forall i :: 0 <= i < |c.carriers| ==> c.carriers[i].None?))
  }

  lemma ReadyIsAlone(o: Oracle, c: Chain, k: nat)
    requires ChainInv(o, c) && k < |c.daemons| && c.daemons[k].sh.session.state.Ready?
    ensures forall l :: 0 <= l < |c.daemons| && l != k ==> Finished(c.daemons[l])
    ensures forall t :: 0 <= t < |c.daemons[k].threads| ==> !Outgoing(c.daemons[k].threads[t])
    ensures forall i :: 0 <= i < |c.carriers| ==> c.carriers[i].None?
  {
  }

  lemma ClearedIsFinished(o: Oracle, m: Machine, u: nat)
    requires u < |m.threads| && m.threads[u].ClearEnter?
    ensures Enabled(m, Run(u))
    ensures Finished(Apply(o, m, Run(u))) <==> forall t :: 0 <= t < |m.threads| ==> !Outgoing(m.threads[t])
  {
    var m' := Apply(o, m, Run(u));
    assert m' == Machine(m.sh.(session := CLEARED), m.threads[u := ClearDone]);
    if t :| 0 <= t < |m.threads| && Outgoing(m.threads[t]) {
      assert m'.threads[t] == m.threads[t];
    }
  }

  lemma LogoutLeavesGone(o: Oracle, c: Chain, k: nat, u: nat)
    requires ChainInv(o, c) && k < |c.daemons| && u < |c.daemons[k].threads| && c.daemons[k].threads[u].ClearEnter?
    ensures ChainEnabled(o, c, Local(k, Run(u)))
    ensures Gone(ChainApply(o, c, Local(k, Run(u)))) <==> LogoutIsInTime(c, k)
  {
    ClearedIsFinished(o, c.daemons[k], u);
    var c' := ChainApply(o, c, Local(k, Run(u)));
    assert c'.daemons[k] == Apply(o, c.daemons[k], Run(u)) && c'.carriers == c.carriers;
    assert forall l :: 0 <= l < |c.daemons| && l != k ==> c'.daemons[l] == c.daemons[l];
    if c.daemons[k].sh.session.state.Ready? {
      ReadyIsAlone(o, c, k);
    }
  }

  /** A logout at daemon k ends the grant for good, whatever happens afterwards, exactly if it is in
      time. */
  lemma LogoutEndsTheGrantExactlyWhen(o: Oracle, h: History, i: nat, k: nat, u: nat)
    requires TrimsFirst(o) && IsHistory(o, h) && i < |h.states| && k < |h.states[i].daemons|
    requires u < |h.states[i].daemons[k].threads| && h.states[i].daemons[k].threads[u].ClearEnter?
    ensures var c := h.states[i];
            && ChainEnabled(o, c, Local(k, Run(u)))
            && (!MayBeReadyAgain(o, ChainApply(o, c, Local(k, Run(u)))) <==> LogoutIsInTime(c, k))
  {
    HistoryInv(o, h, i);
    var c := h.states[i];
    LogoutLeavesGone(o, c, k, u);
    var c' := ChainApply(o, c, Local(k, Run(u)));
    LocalKeepsChainInv(o, c, k, Run(u), c');
    GoneOrNot(o, c');
  }

  /** A logout does not recall credentials that are on their way out of its daemon: from every reachable
      state with such a caller, a successor can still come to hold the same tokens after the logout. */
  lemma LogoutCannotRecall(o: Oracle, h: History, i: nat, k: nat, t: nat, u: nat)
    requires TrimsFirst(o) && IsHistory(o, h) && i < |h.states| && k < |h.states[i].daemons|
    requires var m := h.states[i].daemons[k];
             && t < |m.threads| && Outgoing(m.threads[t])
             && u < |m.threads| && m.threads[u].ClearEnter?
    ensures var c := h.states[i];
            var d := SnapshotOf(c.daemons[k].threads[t]).value;
            && ChainEnabled(o, c, Local(k, Run(u)))
            && Dead(ChainApply(o, c, Local(k, Run(u))).daemons[k].sh.session)
            && MayBeHeldAgain(o, ChainApply(o, c, Local(k, Run(u))), d.accessToken, d.refreshToken)
  {
    HistoryInv(o, h, i);
    OutgoingSurvivesLogout(o, h.states[i], k, t, u);
  }

  lemma OutgoingSurvivesLogout(o: Oracle, c: Chain, k: nat, t: nat, u: nat)
    requires ChainInv(o, c) && k < |c.daemons|
    requires var m := c.daemons[k];
             && t < |m.threads| && Outgoing(m.threads[t])
             && u < |m.threads| && m.threads[u].ClearEnter?
    ensures var d := SnapshotOf(c.daemons[k].threads[t]).value;
            && ChainEnabled(o, c, Local(k, Run(u)))
            && MayBeHeldAgain(o, ChainApply(o, c, Local(k, Run(u))), d.accessToken, d.refreshToken)
  {
    var c' := ChainApply(o, c, Local(k, Run(u)));
    LocalKeepsChainInv(o, c, k, Run(u), c');
    assert c'.daemons[k].threads[t] == c.daemons[k].threads[t];
    OutgoingStarts(o, c', k, t);
  }

  // ----- a logout that comes too late does occur

  /** One more action at the end of a history. */
  ghost function Extended(o: Oracle, h: History, a: ChainAction): (h': History)
    requires IsHistory(o, h) && ChainEnabled(o, h.states[|h.acts|], a)
    ensures IsHistory(o, h') && |h'.acts| == |h.acts| + 1
    ensures h'.states[|h'.acts|] == ChainApply(o, h.states[|h.acts|], a)
    ensures h' == History(h.login, h.states + [h'.states[|h'.acts|]], h.acts + [a])
  {
    History(h.login, h.states + [ChainApply(o, h.states[|h.acts|], a)], h.acts + [a])
  }

  ghost function Beginning(o: Oracle, login: LoginResult, now: int): (h: History)
    requires Complete(login) && NewFromLogin(o, login, now).Ok?
    ensures IsHistory(o, h) && h.acts == []
  {
    var s := NewFromLogin(o, login, now).value;
    History(login, [Chain([Boot(s, now)], [], Idp(login.tokens.refreshToken, false))], [])
  }

  /** Where h stands, with one daemon. */
  ghost predicate At(h: History, s: Session, opMu: Option<nat>, threads: seq<PC>, now: int) {
    && |h.states| == |h.acts| + 1
    && (var c := h.states[|h.acts|];
        && |c.daemons| == 1
        && c.daemons[0].sh == Shared(s, opMu, None, [], now)
        && c.daemons[0].threads == threads)
  }

  /** A handoff and a logout arrive together; the handoff gets as far as its own unlock. */
  lemma RaceBegins(o: Oracle, login: LoginResult, now: int) returns (h: History)
    requires Complete(login) && NewFromLogin(o, login, now).Ok?
    ensures IsHistory(o, h) && h.login == login
    ensures var d := NewFromLogin(o, login, now).value.creds;
            At(h, DRAINED, Some(0), [DrainUnlocking(Some(d), HandedOff), ClearEnter], now)
  {
    var s := NewFromLogin(o, login, now).value;
    h := Beginning(o, login, now);
    h := Extended(o, h, Local(0, Spawn(OpHandoff)));
    assert At(h, s, None, [DrainEnter], now);
    h := Extended(o, h, Local(0, Spawn(OpLogout)));
    assert At(h, s, None, [DrainEnter, ClearEnter], now);
    h := Extended(o, h, Local(0, Run(0)));
    assert At(h, s, Some(0), [DrainLocked, ClearEnter], now);
    h := Extended(o, h, Local(0, Run(0)));
  }

  lemma RaceGoesOn(o: Oracle, login: LoginResult, now: int) returns (h: History)
    requires Complete(login) && NewFromLogin(o, login, now).Ok?
    ensures IsHistory(o, h) && h.login == login
    ensures At(h, DRAINED, None, [Delivering(NewFromLogin(o, login, now).value.creds), ClearEnter], now)
  {
    h := RaceBegins(o, login, now);
    h := Extended(o, h, Local(0, Run(0)));
  }

  /** In the last state of h, caller 0 of the first daemon carries a payload out, caller 1 is about to
      log out, and after the logout a daemon can still become ready with these tokens. */
  ghost predicate TooLate(o: Oracle, h: History, accessToken: string, refreshToken: string) {
    && |h.states| == |h.acts| + 1
    && (var c := h.states[|h.acts|];
        && |c.daemons| > 0 && |c.daemons[0].threads| == 2
        && Outgoing(c.daemons[0].threads[0]) && c.daemons[0].threads[1].ClearEnter?
        && !LogoutIsInTime(c, 0)
        && MayBeHeldAgain(o, ChainApply(o, c, Local(0, Run(1))), accessToken, refreshToken))
  }

  lemma RaceIsLost(o: Oracle, h: History, opMu: Option<nat>, pc: PC, now: int)
    requires TrimsFirst(o) && IsHistory(o, h)
    requires At(h, DRAINED, opMu, [pc, ClearEnter], now) && Outgoing(pc)
    ensures TooLate(o, h, SnapshotOf(pc).value.accessToken, SnapshotOf(pc).value.refreshToken)
  {
    LogoutCannotRecall(o, h, |h.acts|, 0, 0, 1);
  }

  /** It does happen that a logout comes too late: after any login, a handoff and a logout that arrive
      together lead there, with the handoff about to release opMu or with its response being written. */
  lemma LogoutCanComeTooLate(o: Oracle, login: LoginResult, now: int, writing: bool) returns (h: History)
    requires TrimsFirst(o) && Complete(login) && NewFromLogin(o, login, now).Ok?
    ensures IsHistory(o, h) && h.login == login
    ensures TooLate(o, h, login.tokens.accessToken, login.tokens.refreshToken)
    ensures h.states[|h.acts|].daemons[0].threads[0].Delivering? <==> writing
  {
    var d := NewFromLogin(o, login, now).value.creds;
    if writing {
      h := RaceGoesOn(o, login, now);
      RaceIsLost(o, h, None, Delivering(d), now);
    } else {
      h := RaceBegins(o, login, now);
      RaceIsLost(o, h, Some(0), DrainUnlocking(Some(d), HandedOff), now);
    }
  }

  const EXAMPLE_LOGIN := LoginResult(TokenResponse(JWT, "rt", 3600, "Bearer"), ENDPOINT)

  lemma ExampleLoginIsAccepted()
    ensures Complete(EXAMPLE_LOGIN) && NewFromLogin(World(), EXAMPLE_LOGIN, 0).Ok?
  {
    WorldIsPinned();
    JwtIsNotBlank();
    assert "rt"[0] == 'r';
  }

  lemma WorldTrimsFirst()
    ensures TrimsFirst(World())
  {
    WorldIsPinned();
    PinnedTrimsFirst(World(), Parse);
  }

  /** One such login, in full. */
  lemma LateLogout() returns (h: History)
    ensures IsHistory(World(), h) && h.login == EXAMPLE_LOGIN
    ensures TooLate(World(), h, JWT, "rt")
  {
    WorldTrimsFirst();
    ExampleLoginIsAccepted();
    h := LogoutCanComeTooLate(World(), EXAMPLE_LOGIN, 0, true);
  }
}
