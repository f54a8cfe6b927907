/** The inductive invariant of the interleaving: what ties opMu, the singleflight entry, the
    outstanding handoff snapshot and the credential fields together in every reachable state. */
module Invariant {
  import opened Basics
  import opened Tokens
  import opened SessionSpec
  import opened Interleaving

  predicate HoldsOp(pc: PC) {
    pc.Locked? || InFlight(pc) || pc.Unlocking? || pc.DrainLocked? || pc.DrainUnlocking?
  }

  /** Between the credential snapshot and the region that settles the refresh. */
  predicate InFlight(pc: PC) {
    pc.Snapped? || pc.Calling? || pc.Replied? || pc.Got? || pc.Failed?
  }

  function LeaderOf(pc: PC): Option<nat> {
    if pc.Lead? || pc.Locked? || InFlight(pc) || pc.Unlocking? || pc.Publishing? || pc.Removing? then Some(pc.c)
    else None
  }

  /** The drained credentials a caller carries and has neither delivered nor restored. */
  function SnapshotOf(pc: PC): Option<Creds> {
    match pc
    case DrainUnlocking(d, _) => d
    case Delivering(d) => Some(d)
    case Restoring(d) => Some(d)
    case _ => None
  }

  function OutcomeOf(pc: PC): Option<Outcome> {
    if pc.Unlocking? || pc.Publishing? || pc.Removing? || pc.GetDone? then Some(pc.out) else None
  }

  ghost predicate CarriesTerminal(out: Option<Outcome>) {
    out.Some? && out.value.Fail? && Terminal(out.value.failure)
  }

  /** Data an unsettled refresh carries. */
  ghost predicate FlightData(o: Oracle, pc: PC) {
    match pc
    case Snapped(_, rt, ep) => !Blank(rt) && o.validEndpoint(ep)
    case Calling(_, rt, ep) => !Blank(rt) && o.validEndpoint(ep)
    case Replied(_, rt, ep, _) => !Blank(rt) && o.validEndpoint(ep)
    case Got(_, tr, e) =>
      && !Blank(tr.accessToken) && !Blank(tr.refreshToken)
      && (!e.known ==> o.jwtExp(tr.accessToken) <= 0)
    case Failed(_, _, msg) => msg != ""
    case _ => true
  }

  /** What holds of one caller in the presence of the shared fields. */
  ghost predicate ThreadOK(o: Oracle, sh: Shared, t: nat, pc: PC) {
    && (HoldsOp(pc) <==> sh.opMu == Some(t))
    && (LeaderOf(pc).Some? ==>
          var c := LeaderOf(pc).value;
          && sh.entry == Some(c)
          && c < |sh.calls|
          && sh.calls[c] == Call(t, if pc.Removing? then Some(pc.out) else None))
    && (pc.Wait? ==> pc.c < |sh.calls|)
    && (InFlight(pc) ==> sh.session.state.Ready? || sh.session.state.ReauthRequired?)
    && FlightData(o, pc)
    && (SnapshotOf(pc).Some? ==> Usable(o, SnapshotOf(pc).value) && !sh.session.state.Ready?)
    && (CarriesTerminal(OutcomeOf(pc)) ==> Dead(sh.session))
    && (LeaderOf(pc).Some? && OutcomeOf(pc).Some? && OutcomeOf(pc).value.Token? && sh.session.state.Ready? ==>
          sh.session.creds.accessToken == OutcomeOf(pc).value.token)
  }

  ghost predicate SharedOK(o: Oracle, sh: Shared) {
    && Sound(o, sh.session)
    && (sh.entry.Some? ==> sh.entry.value < |sh.calls|)
    && (forall c :: 0 <= c < |sh.calls| && sh.calls[c].result.None? ==> sh.entry == Some(c))
    && (forall c :: 0 <= c < |sh.calls| && CarriesTerminal(sh.calls[c].result) ==> Dead(sh.session))
  }

  /** Whoever holds opMu or owns the singleflight entry exists and is on its way to let go of it. */
  ghost predicate OwnersAlive(m: Machine) {
    && (m.sh.opMu.Some? ==> m.sh.opMu.value < |m.threads|)
    && (m.sh.entry.Some? && m.sh.entry.value < |m.sh.calls| ==>
          var l := m.sh.calls[m.sh.entry.value].leader;
          l < |m.threads| && LeaderOf(m.threads[l]) == m.sh.entry)
  }

  /** What holds of two different callers: while p carries a drained snapshot, q carries none and
      is in no unsettled refresh, and a token q still publishes is the one in the snapshot. */
  ghost predicate PairOK(p: PC, q: PC) {
    SnapshotOf(p).Some? ==>
      && SnapshotOf(q).None?
      && !InFlight(q)
      && (LeaderOf(q).Some? && OutcomeOf(q).Some? && OutcomeOf(q).value.Token? ==>
            SnapshotOf(p).value.accessToken == OutcomeOf(q).value.token)
  }

  ghost predicate PairsOK(m: Machine) {
    forall t, u :: 0 <= t < |m.threads| && 0 <= u < |m.threads| && t != u ==> PairOK(m.threads[t], m.threads[u])
  }

  ghost predicate Inv(o: Oracle, m: Machine) {
    && SharedOK(o, m.sh)
    && (forall t :: 0 <= t < |m.threads| ==> ThreadOK(o, m.sh, t, m.threads[t]))
    && OwnersAlive(m)
    && PairsOK(m)
  }

  // ----- preservation

  lemma LoginIsSound(o: Oracle, login: LoginResult, now: int)
    requires Complete(login) && NewFromLogin(o, login, now).Ok?
    ensures Sound(o, NewFromLogin(o, login, now).value) && NewFromLogin(o, login, now).value.state.Ready?
  {
  }

  lemma BootSatisfiesInv(o: Oracle, s: Session, now: int)
    requires Sound(o, s)
    ensures Inv(o, Boot(s, now))
  {
  }

  // The caller that steps, together with the shared fields: one lemma for each stretch of code.

  lemma LookingKeepsOK(o: Oracle, sh: Shared, t: nat, pc: PC)
    requires SharedOK(o, sh) && ThreadOK(o, sh, t, pc) && CanRun(sh, pc)
    requires pc.GetEnter? || pc.Locked?
    ensures SharedOK(o, LocalStep(o, sh, t, pc).0)
    ensures ThreadOK(o, LocalStep(o, sh, t, pc).0, t, LocalStep(o, sh, t, pc).1)
  {
  }

  lemma JoiningKeepsOK(o: Oracle, sh: Shared, t: nat, pc: PC)
    requires SharedOK(o, sh) && ThreadOK(o, sh, t, pc) && CanRun(sh, pc)
    requires pc.GetMissed? || pc.Wait? || pc.Lead?
    ensures SharedOK(o, LocalStep(o, sh, t, pc).0)
    ensures ThreadOK(o, LocalStep(o, sh, t, pc).0, t, LocalStep(o, sh, t, pc).1)
  {
  }

  lemma RefreshingKeepsOK(o: Oracle, sh: Shared, t: nat, pc: PC)
    requires SharedOK(o, sh) && ThreadOK(o, sh, t, pc) && CanRun(sh, pc)
    requires pc.Snapped? || pc.Replied?
    ensures SharedOK(o, LocalStep(o, sh, t, pc).0)
    ensures ThreadOK(o, LocalStep(o, sh, t, pc).0, t, LocalStep(o, sh, t, pc).1)
  {
  }

  lemma SettlingKeepsOK(o: Oracle, sh: Shared, t: nat, pc: PC)
    requires SharedOK(o, sh) && ThreadOK(o, sh, t, pc) && CanRun(sh, pc)
    requires pc.Got? || pc.Failed?
    ensures SharedOK(o, LocalStep(o, sh, t, pc).0)
    ensures ThreadOK(o, LocalStep(o, sh, t, pc).0, t, LocalStep(o, sh, t, pc).1)
  {
  }

  lemma PublishingKeepsOK(o: Oracle, sh: Shared, t: nat, pc: PC)
    requires SharedOK(o, sh) && ThreadOK(o, sh, t, pc) && CanRun(sh, pc)
    requires pc.Unlocking? || pc.Publishing? || pc.Removing?
    ensures SharedOK(o, LocalStep(o, sh, t, pc).0)
    ensures ThreadOK(o, LocalStep(o, sh, t, pc).0, t, LocalStep(o, sh, t, pc).1)
  {
  }

  lemma LockingKeepsOK(o: Oracle, sh: Shared, t: nat, pc: PC)
    requires SharedOK(o, sh) && ThreadOK(o, sh, t, pc) && CanRun(sh, pc)
    requires pc.DrainEnter? || pc.DrainUnlocking?
    ensures SharedOK(o, LocalStep(o, sh, t, pc).0)
    ensures ThreadOK(o, LocalStep(o, sh, t, pc).0, t, LocalStep(o, sh, t, pc).1)
  {
  }

  lemma DrainingKeepsOK(o: Oracle, sh: Shared, t: nat, pc: PC)
    requires SharedOK(o, sh) && ThreadOK(o, sh, t, pc) && CanRun(sh, pc)
    requires pc.DrainLocked?
    ensures SharedOK(o, LocalStep(o, sh, t, pc).0)
    ensures ThreadOK(o, LocalStep(o, sh, t, pc).0, t, LocalStep(o, sh, t, pc).1)
  {
  }

  lemma RestoringKeepsOK(o: Oracle, sh: Shared, t: nat, pc: PC)
    requires SharedOK(o, sh) && ThreadOK(o, sh, t, pc) && CanRun(sh, pc)
    requires pc.Restoring?
    ensures SharedOK(o, LocalStep(o, sh, t, pc).0)
    ensures ThreadOK(o, LocalStep(o, sh, t, pc).0, t, LocalStep(o, sh, t, pc).1)
  {
  }

  lemma ClearingKeepsOK(o: Oracle, sh: Shared, t: nat, pc: PC)
    requires SharedOK(o, sh) && ThreadOK(o, sh, t, pc) && CanRun(sh, pc)
    requires pc.ClearEnter?
    ensures SharedOK(o, LocalStep(o, sh, t, pc).0)
    ensures ThreadOK(o, LocalStep(o, sh, t, pc).0, t, LocalStep(o, sh, t, pc).1)
  {
  }

  lemma StepperOK(o: Oracle, sh: Shared, t: nat, pc: PC)
    requires SharedOK(o, sh) && ThreadOK(o, sh, t, pc) && CanRun(sh, pc)
    ensures SharedOK(o, LocalStep(o, sh, t, pc).0)
    ensures ThreadOK(o, LocalStep(o, sh, t, pc).0, t, LocalStep(o, sh, t, pc).1)
  {
    if pc.GetEnter? || pc.Locked? {
      LookingKeepsOK(o, sh, t, pc);
    } else if pc.GetMissed? || pc.Wait? || pc.Lead? {
      JoiningKeepsOK(o, sh, t, pc);
    } else if pc.Snapped? || pc.Replied? {
      RefreshingKeepsOK(o, sh, t, pc);
    } else if pc.Got? || pc.Failed? {
      SettlingKeepsOK(o, sh, t, pc);
    } else if pc.Unlocking? || pc.Publishing? || pc.Removing? {
      PublishingKeepsOK(o, sh, t, pc);
    } else if pc.Restoring? {
      RestoringKeepsOK(o, sh, t, pc);
    } else if pc.ClearEnter? {
      ClearingKeepsOK(o, sh, t, pc);
    } else if pc.DrainLocked? {
      DrainingKeepsOK(o, sh, t, pc);
    } else {
      LockingKeepsOK(o, sh, t, pc);
    }
  }

  /** Every other caller. */
  lemma BystanderOK(o: Oracle, sh: Shared, t: nat, pc: PC, u: nat, q: PC)
    requires SharedOK(o, sh) && ThreadOK(o, sh, t, pc) && CanRun(sh, pc)
    requires t != u && ThreadOK(o, sh, u, q) && PairOK(pc, q) && PairOK(q, pc)
    ensures ThreadOK(o, LocalStep(o, sh, t, pc).0, u, q)
  {
  }

  lemma StepperPairsWell(o: Oracle, sh: Shared, t: nat, pc: PC, u: nat, q: PC)
    requires ThreadOK(o, sh, t, pc) && CanRun(sh, pc)
    requires t != u && ThreadOK(o, sh, u, q) && PairOK(pc, q)
    ensures PairOK(LocalStep(o, sh, t, pc).1, q)
  {
  }

  lemma BystanderPairsWell(o: Oracle, sh: Shared, t: nat, pc: PC, u: nat, q: PC)
    requires Sound(o, sh.session) && ThreadOK(o, sh, t, pc) && CanRun(sh, pc)
    requires t != u && ThreadOK(o, sh, u, q) && PairOK(q, pc)
    requires SnapshotOf(q).Some?
    ensures PairOK(q, LocalStep(o, sh, t, pc).1)
  {
  }

  lemma OwnersStayAlive(o: Oracle, m: Machine, t: nat, m': Machine)
    requires Inv(o, m) && Step(o, m, Run(t), m')
    ensures OwnersAlive(m')
  {
    assert ThreadOK(o, m.sh, t, m.threads[t]);
  }

  lemma RunKeepsInv(o: Oracle, m: Machine, t: nat, m': Machine)
    requires Inv(o, m) && Step(o, m, Run(t), m')
    ensures Inv(o, m')
  {
    var pc := m.threads[t];
    StepperOK(o, m.sh, t, pc);
    OwnersStayAlive(o, m, t, m');
    forall u | 0 <= u < |m'.threads| && u != t
      ensures ThreadOK(o, m'.sh, u, m'.threads[u])
      ensures PairOK(m'.threads[t], m'.threads[u]) && PairOK(m'.threads[u], m'.threads[t])
    {
      BystanderOK(o, m.sh, t, pc, u, m.threads[u]);
      StepperPairsWell(o, m.sh, t, pc, u, m.threads[u]);
      if SnapshotOf(m.threads[u]).Some? {
        BystanderPairsWell(o, m.sh, t, pc, u, m.threads[u]);
      }
    }
  }

  /** Steps of the outside world move one caller and leave the shared fields alone. */
  lemma OutsideKeepsInv(o: Oracle, m: Machine, t: nat, pc': PC)
    requires Inv(o, m) && t < |m.threads|
    requires var pc := m.threads[t];
             || (pc.Calling? && pc'.Replied? && pc'.c == pc.c && pc'.rt == pc.rt && pc'.ep == pc.ep)
             || (pc.Delivering? && (pc' == HandoffDone(Delivered(pc.snapshot)) || pc' == Restoring(pc.snapshot)))
    ensures Inv(o, m.(threads := m.threads[t := pc']))
  {
    assert ThreadOK(o, m.sh, t, m.threads[t]);
    assert ThreadOK(o, m.sh, t, pc');
    forall u | 0 <= u < |m.threads| && u != t ensures PairOK(pc', m.threads[u]) && PairOK(m.threads[u], pc') {
      assert PairOK(m.threads[t], m.threads[u]) && PairOK(m.threads[u], m.threads[t]);
    }
  }

  lemma ArrivalKeepsInv(o: Oracle, m: Machine, op: Op)
    requires Inv(o, m)
    ensures Inv(o, m.(threads := m.threads + [Entry(op)]))
  {
    var t := |m.threads|;
    assert ThreadOK(o, m.sh, t, Entry(op));
    assert SnapshotOf(Entry(op)).None? && !InFlight(Entry(op)) && LeaderOf(Entry(op)).None?;
  }

  lemma StepKeepsInv(o: Oracle, m: Machine, a: Action, m': Machine)
    requires Inv(o, m) && Step(o, m, a, m')
    ensures Inv(o, m')
  {
    match a
    case Run(t) => RunKeepsInv(o, m, t, m');
    case Answer(t, _) => OutsideKeepsInv(o, m, t, m'.threads[t]);
    case Deliver(t, _) => OutsideKeepsInv(o, m, t, m'.threads[t]);
    case Tick(_) => TickKeepsInv(o, m, m');
    case Spawn(op) => ArrivalKeepsInv(o, m, op);
  }

  lemma TickKeepsInv(o: Oracle, m: Machine, m': Machine)
    requires Inv(o, m)
    requires m'.threads == m.threads && m'.sh == m.sh.(now := m'.sh.now)
    ensures Inv(o, m')
  {
  }

  /** Every state of every run satisfies the invariant. */
  lemma {:induction false} RunInv(o: Oracle, tr: Trace, i: nat)
    requires IsRun(o, tr) && i < |tr.states|
    ensures Inv(o, tr.states[i])
  {
    if i == 0 {
      var sh := tr.states[0].sh;
      LoginIsSound(o, tr.login, sh.now);
      BootSatisfiesInv(o, sh.session, sh.now);
    } else {
      RunInv(o, tr, i - 1);
      StepKeepsInv(o, tr.states[i - 1], tr.acts[i - 1], tr.states[i]);
    }
  }
}
