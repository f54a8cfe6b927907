/** Logout, terminal failures and handoff over whole runs: dead sessions stay dead, a failed
    delivery is rolled back exactly, and nobody hears a terminal error from a live session. */
module Lifecycle {
  import opened Basics
  import opened Errors
  import opened Tokens
  import opened SessionSpec
  import opened Interleaving
  import opened Invariant

  /** The step of a logout. */
  ghost predicate Clears(m: Machine, a: Action) {
    a.Run? && a.t < |m.threads| && m.threads[a.t].ClearEnter?
  }

  // ----- death is absorbing

  lemma DeadStaysDead(o: Oracle, m: Machine, a: Action, m': Machine)
    requires Inv(o, m) && Step(o, m, a, m') && Dead(m.sh.session)
    ensures Dead(m'.sh.session)
  {
  }

  /** Once a session needs a login or was denied, it is never ready again, and outside the ready
      state it holds no token of either kind. */
  lemma {:induction false} DeathIsAbsorbing(o: Oracle, tr: Trace, i: nat, j: nat)
    requires IsRun(o, tr) && i <= j < |tr.states|
    requires Dead(tr.states[i].sh.session)
    ensures Dead(tr.states[j].sh.session)
    ensures tr.states[j].sh.session.creds.accessToken == "" && tr.states[j].sh.session.creds.refreshToken == ""
  {
    RunInv(o, tr, j);
    if i < j {
      DeathIsAbsorbing(o, tr, i, j - 1);
      RunInv(o, tr, j - 1);
      DeadStaysDead(o, tr.states[j - 1], tr.acts[j - 1], tr.states[j]);
    }
  }

  /** In every reachable state that is not ready, both tokens are gone. */
  lemma NoTokensUnlessReady(o: Oracle, tr: Trace, i: nat)
    requires IsRun(o, tr) && i < |tr.states|
    ensures tr.states[i].sh.session.state != Ready ==>
              tr.states[i].sh.session.creds.accessToken == "" && tr.states[i].sh.session.creds.refreshToken == ""
  {
    RunInv(o, tr, i);
  }

  // ----- handoff

  /** What a handoff that looked at session s comes to have in hand. */
  ghost predicate Found(s: Session, pc: PC) {
    match pc
    case DrainUnlocking(d, st) =>
      if s.state.Ready? then d == Some(s.creds) && st == HandedOff else d == None && st == s.state
    case Delivering(d) => s.state.Ready? && d == s.creds
    case Restoring(d) => s.state.Ready? && d == s.creds
    case HandoffDone(Conflict(st)) => !s.state.Ready? && st == s.state
    case HandoffDone(Delivered(d)) => s.state.Ready? && d == s.creds
    case HandoffDone(RolledBack) => s.state.Ready?
    case _ => false
  }

  predicate PastDrain(pc: PC) {
    pc.DrainUnlocking? || pc.Delivering? || pc.Restoring? || pc.HandoffDone?
  }

  /** With step k caller t takes the session away, if it is ready, and leaves it alone otherwise; and
      what it found there is what it has at pc. */
  ghost predicate DrainsFor(tr: Trace, k: nat, t: nat, pc: PC)
    requires |tr.states| == |tr.acts| + 1 && k < |tr.acts|
  {
    var m := tr.states[k];
    && tr.acts[k] == Run(t) && t < |m.threads| && m.threads[t].DrainLocked?
    && Found(m.sh.session, pc)
    && tr.states[k + 1].sh.session == (if m.sh.session.state.Ready? then DRAINED else m.sh.session)
  }

  lemma StepOfHandoff(o: Oracle, m: Machine, a: Action, m': Machine, t: nat)
    requires Step(o, m, a, m') && t < |m'.threads| && PastDrain(m'.threads[t])
    ensures t < |m.threads|
    ensures PastDrain(m.threads[t]) || (a == Run(t) && m.threads[t].DrainLocked?)
    ensures PastDrain(m.threads[t]) ==> forall s :: Found(s, m.threads[t]) ==> Found(s, m'.threads[t])
    ensures !PastDrain(m.threads[t]) ==>
              && Found(m.sh.session, m'.threads[t])
              && m'.sh.session == (if m.sh.session.state.Ready? then DRAINED else m.sh.session)
  {
  }

  /** Linearizable handoffs: whatever others do, a handoff answers with the session as it was at one
      instant of that very call: with all its credentials, which are gone from there with that step,
      or with the state of a session that was not ready. */
  lemma {:induction false} HandoffIsLinearizable(o: Oracle, tr: Trace, t: nat, j: nat)
    requires IsRun(o, tr) && j < |tr.states| && t < |tr.states[j].threads|
    requires PastDrain(tr.states[j].threads[t])
    ensures exists k :: 0 <= k < j && DrainsFor(tr, k, t, tr.states[j].threads[t])
  {
    assert tr.states[0].threads == [];
    assert Step(o, tr.states[j - 1], tr.acts[j - 1], tr.states[j]);
    StepOfHandoff(o, tr.states[j - 1], tr.acts[j - 1], tr.states[j], t);
    if PastDrain(tr.states[j - 1].threads[t]) {
      HandoffIsLinearizable(o, tr, t, j - 1);
      var k :| 0 <= k < j - 1 && DrainsFor(tr, k, t, tr.states[j - 1].threads[t]);
      assert DrainsFor(tr, k, t, tr.states[j].threads[t]);
    } else {
      assert DrainsFor(tr, j - 1, t, tr.states[j].threads[t]);
    }
  }

  // ----- rollback

  /** Caller t has drained the session of d and nobody has logged out since. */
  ghost predicate Lent(m: Machine, t: nat, d: Creds) {
    && t < |m.threads|
    && SnapshotOf(m.threads[t]) == Some(d)
    && m.sh.session == DRAINED
  }

  lemma LoanIsUndisturbed(o: Oracle, m: Machine, a: Action, m': Machine, t: nat, d: Creds)
    requires Inv(o, m) && Step(o, m, a, m') && Lent(m, t, d)
    requires !Clears(m, a) && !Done(m'.threads[t])
    ensures Lent(m', t, d)
  {
  }

  lemma DoneStaysDone(o: Oracle, m: Machine, a: Action, m': Machine, t: nat)
    requires Step(o, m, a, m') && t < |m.threads| && Done(m.threads[t])
    ensures t < |m'.threads| && m'.threads[t] == m.threads[t]
  {
  }

  lemma CallersOnlyArrive(o: Oracle, m: Machine, a: Action, m': Machine)
    requires Step(o, m, a, m')
    ensures |m.threads| <= |m'.threads|
  {
  }

  /** A drain by caller t with step i, and its rollback with step j. */
  ghost predicate RollbackSpans(tr: Trace, t: nat, i: nat, j: nat)
    requires |tr.states| == |tr.acts| + 1
  {
    && i < j < |tr.acts|
    && tr.acts[i] == Run(t) && t < |tr.states[i].threads| && tr.states[i].threads[t].DrainLocked?
    && tr.states[i].sh.session.state.Ready?
    && tr.acts[j] == Run(t) && t < |tr.states[j].threads| && tr.states[j].threads[t].Restoring?
  }

  lemma StepOfRunKeepsLoan(o: Oracle, tr: Trace, t: nat, i: nat, d: Creds)
    requires IsRun(o, tr) && i < |tr.acts|
    requires Lent(tr.states[i], t, d) && !Clears(tr.states[i], tr.acts[i])
    requires t < |tr.states[i + 1].threads| && !Done(tr.states[i + 1].threads[t])
    ensures Lent(tr.states[i + 1], t, d)
  {
    RunInv(o, tr, i);
    LoanIsUndisturbed(o, tr.states[i], tr.acts[i], tr.states[i + 1], t, d);
  }

  lemma WasAtWorkBefore(o: Oracle, tr: Trace, t: nat, i: nat, j: nat)
    requires IsRun(o, tr) && i <= j < |tr.acts|
    requires t < |tr.states[i].threads| && t < |tr.states[j + 1].threads| && !Done(tr.states[j + 1].threads[t])
    ensures t < |tr.states[j].threads| && !Done(tr.states[j].threads[t])
  {
    CallersPersist(o, tr, i, j);
    if Done(tr.states[j].threads[t]) {
      DoneStaysDone(o, tr.states[j], tr.acts[j], tr.states[j + 1], t);
    }
  }

  lemma {:induction false} LoanUntil(o: Oracle, tr: Trace, t: nat, i: nat, j: nat, d: Creds)
    requires IsRun(o, tr) && i <= j < |tr.states|
    requires Lent(tr.states[i], t, d)
    requires t < |tr.states[j].threads| && !Done(tr.states[j].threads[t])
    requires forall k :: i <= k < j ==> !Clears(tr.states[k], tr.acts[k])
    ensures Lent(tr.states[j], t, d)
  {
    if i < j {
      WasAtWorkBefore(o, tr, t, i, j - 1);
      LoanUntil(o, tr, t, i, j - 1, d);
      StepOfRunKeepsLoan(o, tr, t, j - 1, d);
    }
  }

  lemma {:induction false} CallersPersist(o: Oracle, tr: Trace, i: nat, j: nat)
    requires IsRun(o, tr) && i <= j < |tr.states|
    ensures |tr.states[i].threads| <= |tr.states[j].threads|
  {
    if i < j {
      CallersPersist(o, tr, i, j - 1);
      CallersOnlyArrive(o, tr.states[j - 1], tr.acts[j - 1], tr.states[j]);
    }
  }

  lemma DrainLends(o: Oracle, m: Machine, t: nat, m': Machine)
    requires Step(o, m, Run(t), m')
    requires m.threads[t].DrainLocked? && m.sh.session.state.Ready?
    ensures Lent(m', t, m.sh.session.creds)
  {
  }

  lemma RestoreReturns(o: Oracle, m: Machine, t: nat, m': Machine)
    requires Step(o, m, Run(t), m') && m.threads[t].Restoring?
    ensures m'.sh.session == Restore(m.sh.session, m.threads[t].snapshot)
  {
  }

  /** Exact rollback: without a logout in between, a failed delivery gives back every credential
      field as it was before the drain (and forgets last_error), whatever others did meanwhile.
      With one, the rollback changes nothing and the session stays dead. */
  lemma RollbackIsExact(o: Oracle, tr: Trace, t: nat, i: nat, j: nat)
    requires IsRun(o, tr) && RollbackSpans(tr, t, i, j)
    ensures (forall k :: i < k < j ==> !Clears(tr.states[k], tr.acts[k])) ==>
              tr.states[j + 1].sh.session == Session(tr.states[i].sh.session.creds, Ready, "")
    ensures (exists k :: i < k < j && Clears(tr.states[k], tr.acts[k])) ==>
              tr.states[j + 1].sh.session == tr.states[j].sh.session && Dead(tr.states[j].sh.session)
  {
    assert Step(o, tr.states[j], Run(t), tr.states[j + 1]);
    RestoreReturns(o, tr.states[j], t, tr.states[j + 1]);
    if k :| i < k < j && Clears(tr.states[k], tr.acts[k]) {
      ClearKills(o, tr.states[k], tr.acts[k], tr.states[k + 1]);
      DeathIsAbsorbing(o, tr, k + 1, j);
    } else {
      assert Step(o, tr.states[i], Run(t), tr.states[i + 1]);
      DrainLends(o, tr.states[i], t, tr.states[i + 1]);
      LoanUntil(o, tr, t, i + 1, j, tr.states[i].sh.session.creds);
    }
  }

  lemma ClearKills(o: Oracle, m: Machine, a: Action, m': Machine)
    requires Step(o, m, a, m') && Clears(m, a)
    ensures m'.sh.session == CLEARED
  {
  }

  // ----- terminal errors are truthful

  /** Whoever is told to log in again, or that the account is denied, is told so by a session that
      is dead and stays dead. */
  lemma TerminalErrorsAreTrue(o: Oracle, tr: Trace, t: nat, f: Failure, i: nat, j: nat)
    requires IsRun(o, tr) && i <= j < |tr.states| && t < |tr.states[i].threads|
    requires tr.states[i].threads[t] == GetDone(Fail(f)) && Terminal(f)
    ensures Dead(tr.states[j].sh.session)
  {
    RunInv(o, tr, i);
    assert ThreadOK(o, tr.states[i].sh, t, tr.states[i].threads[t]);
    DeathIsAbsorbing(o, tr, i, j);
  }

  /** No step so far was a logout, and no IdP answer so far condemned the session. */
  ghost predicate NothingFatal(tr: Trace, j: nat)
    requires |tr.states| == |tr.acts| + 1 && j < |tr.states|
  {
    forall k :: 0 <= k < j ==>
      && !Clears(tr.states[k], tr.acts[k])
      && (tr.acts[k].Answer? ==> !Condemns(tr.acts[k].answer))
  }

  ghost predicate Untainted(pc: PC) {
    && (pc.Replied? ==> !Condemns(pc.answer))
    && (pc.Failed? ==> pc.verdict == TransientVerdict)
  }

  ghost predicate Healthy(m: Machine) {
    && !Dead(m.sh.session)
    && forall t :: 0 <= t < |m.threads| ==> Untainted(m.threads[t])
  }

  lemma ReplyStaysUntainted(o: Oracle, sh: Shared, t: nat, pc: PC)
    requires TrimsFirst(o)
    requires ThreadOK(o, sh, t, pc) && pc.Replied? && Untainted(pc)
    ensures Untainted(AfterReply(o, pc, sh.now))
  {
    if pc.answer.Answered? {
      TerminalVerdictIffCondemned(o, pc.ep, pc.rt, pc.answer.discovery, pc.answer.http);
    }
  }

  lemma LocalStepStaysHealthy(o: Oracle, sh: Shared, t: nat, pc: PC)
    requires SharedOK(o, sh) && ThreadOK(o, sh, t, pc) && CanRun(sh, pc)
    requires !Dead(sh.session) && Untainted(pc) && !pc.ClearEnter?
    ensures !Dead(LocalStep(o, sh, t, pc).0.session)
    ensures !pc.Replied? ==> Untainted(LocalStep(o, sh, t, pc).1)
  {
  }

  lemma StepStaysHealthy(o: Oracle, m: Machine, a: Action, m': Machine)
    requires TrimsFirst(o)
    requires Inv(o, m) && Step(o, m, a, m') && Healthy(m)
    requires !Clears(m, a) && (a.Answer? ==> !Condemns(a.answer))
    ensures Healthy(m')
  {
    if a.Run? {
      var pc := m.threads[a.t];
      assert ThreadOK(o, m.sh, a.t, pc);
      LocalStepStaysHealthy(o, m.sh, a.t, pc);
      if pc.Replied? {
        ReplyStaysUntainted(o, m.sh, a.t, pc);
      }
    }
  }

  /** Death has a cause: without a logout and without a condemning answer the session never dies,
      so transport failures, other statuses, unreadable bodies and panics are never reported as
      terminal to anyone. */
  lemma {:induction false} DeathHasACause(o: Oracle, tr: Trace, j: nat)
    requires TrimsFirst(o)
    requires IsRun(o, tr) && j < |tr.states| && NothingFatal(tr, j)
    ensures Healthy(tr.states[j])
    ensures forall t :: 0 <= t < |tr.states[j].threads| ==> !CarriesTerminal(OutcomeOf(tr.states[j].threads[t]))
  {
    RunInv(o, tr, j);
    if j > 0 {
      DeathHasACause(o, tr, j - 1);
      RunInv(o, tr, j - 1);
      StepStaysHealthy(o, tr.states[j - 1], tr.acts[j - 1], tr.states[j]);
    }
    forall t | 0 <= t < |tr.states[j].threads| ensures !CarriesTerminal(OutcomeOf(tr.states[j].threads[t])) {
      assert ThreadOK(o, tr.states[j].sh, t, tr.states[j].threads[t]);
    }
  }
}
