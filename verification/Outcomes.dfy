/** Every outcome of every call, shared or not, goes back to one step that had a reason for it. */
module Outcomes {
  import opened Basics
  import opened Errors
  import opened Tokens
  import opened SessionSpec
  import opened Interleaving
  import opened Invariant
  import opened Reads

  /** The step of caller t from pc has good reason to end a call in out. A token is the one of a ready
      session and hard-valid now, or fresh from the IdP; a terminal failure names the state; the
      session is unavailable after a handoff, or after a transient failure with no valid token left;
      and a crash is a panic of the IdP call. */
  ghost predicate Justified(sh: Shared, pc: PC, sh': Shared, out: Outcome) {
    match out
    case Token(tok) =>
      || (Holding(sh, tok) && HardValid(sh.session.creds, sh.now))
      || (pc.Got? && pc.tr.accessToken == tok && Holding(sh', tok))
    case Fail(NeedsReauth) => sh'.session.state == ReauthRequired
    case Fail(DeniedTier) => sh'.session.state == TierDenied
    case Fail(Unavailable) =>
      || sh.session.state == HandedOff
      || (pc.Failed? && pc.verdict == TransientVerdict && !HardValid(sh.session.creds, sh.now))
    case Fail(Crashed) => pc.Replied? && pc.answer.Panicked?
  }

  /** The step decides a call: it gives its caller an outcome that comes from no other call. */
  predicate Decides(pc: PC, pc': PC, out: Outcome) {
    !pc.Wait? && OutcomeOf(pc).None? && OutcomeOf(pc') == Some(out)
  }

  lemma DecisionsAreJustified(o: Oracle, sh: Shared, t: nat, pc: PC, out: Outcome)
    requires SharedOK(o, sh) && ThreadOK(o, sh, t, pc) && CanRun(sh, pc)
    requires Decides(pc, LocalStep(o, sh, t, pc).1, out)
    ensures Justified(sh, pc, LocalStep(o, sh, t, pc).0, out)
  {
  }

  // ----- the step that decided

  /** With step k of the run caller t decides out. */
  ghost predicate DecidedBy(tr: Trace, k: nat, t: nat, out: Outcome)
    requires |tr.states| == |tr.acts| + 1 && k < |tr.acts|
  {
    var m, m' := tr.states[k], tr.states[k + 1];
    && tr.acts[k] == Run(t)
    && t < |m.threads| && t < |m'.threads|
    && Decides(m.threads[t], m'.threads[t], out)
    && Justified(m.sh, m.threads[t], m'.sh, out)
  }

  /** Caller t itself decided out before state j. */
  ghost predicate OwnDecision(tr: Trace, j: nat, t: nat, out: Outcome)
    requires |tr.states| == |tr.acts| + 1 && j < |tr.states|
  {
    exists k :: 0 <= k < j && DecidedBy(tr, k, t, out)
  }

  /** Caller t decided out before state j, while it was leading call c. */
  ghost predicate LeaderDecision(tr: Trace, j: nat, t: nat, c: nat, out: Outcome)
    requires |tr.states| == |tr.acts| + 1 && j < |tr.states|
  {
    exists k :: 0 <= k < j && DecidedBy(tr, k, t, out) && LeaderOf(tr.states[k].threads[t]) == Some(c)
  }

  ghost predicate StoodAtWait(tr: Trace, w: nat, t: nat, c: nat)
    requires w < |tr.states|
  {
    t < |tr.states[w].threads| && tr.states[w].threads[t] == Wait(c)
  }

  /** At state j call c is filled with out, its leader decided that, and caller t has waited for it. */
  ghost predicate SharedDecision(tr: Trace, j: nat, t: nat, c: nat, out: Outcome)
    requires |tr.states| == |tr.acts| + 1 && j < |tr.states|
  {
    var calls := tr.states[j].sh.calls;
    && c < |calls| && calls[c].result == Some(out)
    && LeaderDecision(tr, j, calls[c].leader, c, out)
    && exists w :: 0 <= w < j && StoodAtWait(tr, w, t, c)
  }

  // ----- single steps

  lemma StepperGetsOutcome(o: Oracle, m: Machine, t: nat, m': Machine, out: Outcome)
    requires Inv(o, m) && Step(o, m, Run(t), m') && OutcomeOf(m'.threads[t]) == Some(out)
    ensures var pc := m.threads[t];
            || OutcomeOf(pc) == Some(out)
            || (pc.Wait? && pc.c < |m.sh.calls| && m.sh.calls[pc.c].result == Some(out))
            || (Decides(pc, m'.threads[t], out) && Justified(m.sh, pc, m'.sh, out))
    ensures LeaderOf(m'.threads[t]).Some? ==> !m.threads[t].Wait? && LeaderOf(m'.threads[t]) == LeaderOf(m.threads[t])
  {
    var pc := m.threads[t];
    assert ThreadOK(o, m.sh, t, pc);
    if Decides(pc, m'.threads[t], out) {
      DecisionsAreJustified(o, m.sh, t, pc, out);
    }
  }

  lemma BystanderKeepsOutcome(o: Oracle, m: Machine, a: Action, m': Machine, t: nat)
    requires Step(o, m, a, m') && a != Run(t)
    requires t < |m'.threads| && OutcomeOf(m'.threads[t]).Some?
    ensures t < |m.threads| && m.threads[t] == m'.threads[t]
  {
  }

  /** Call objects keep their leader; a result is written by the leader, once. */
  lemma CallsAreFilledOnce(o: Oracle, m: Machine, a: Action, m': Machine, c: nat)
    requires Inv(o, m) && Step(o, m, a, m') && c < |m.sh.calls|
    ensures c < |m'.sh.calls| && m'.sh.calls[c].leader == m.sh.calls[c].leader
    ensures m.sh.calls[c].result.Some? ==> m'.sh.calls[c] == m.sh.calls[c]
    ensures m'.sh.calls[c] != m.sh.calls[c] ==>
              var l := m.sh.calls[c].leader;
              && a == Run(l) && LeaderOf(m.threads[l]) == Some(c) && OutcomeOf(m.threads[l]) == m'.sh.calls[c].result
  {
    if a.Run? {
      assert ThreadOK(o, m.sh, a.t, m.threads[a.t]);
    }
  }

  lemma NewCallsAreEmpty(o: Oracle, m: Machine, a: Action, m': Machine, c: nat)
    requires Step(o, m, a, m') && |m.sh.calls| <= c < |m'.sh.calls|
    ensures m'.sh.calls[c].result.None?
  {
  }

  // ----- steps of a run

  lemma StepOfRun(o: Oracle, tr: Trace, i: nat)
    requires IsRun(o, tr) && i < |tr.acts|
    ensures Inv(o, tr.states[i]) && Step(o, tr.states[i], tr.acts[i], tr.states[i + 1])
  {
    RunInv(o, tr, i);
  }

  lemma NobodyAtStart(o: Oracle, tr: Trace)
    requires IsRun(o, tr)
    ensures tr.states[0].threads == [] && tr.states[0].sh.calls == []
  {
  }

  lemma StepOfLeader(o: Oracle, tr: Trace, i: nat, t: nat, c: nat, out: Outcome)
    requires IsRun(o, tr) && i < |tr.acts| && t < |tr.states[i + 1].threads|
    requires LeaderOf(tr.states[i + 1].threads[t]) == Some(c) && OutcomeOf(tr.states[i + 1].threads[t]) == Some(out)
    ensures t < |tr.states[i].threads| && LeaderOf(tr.states[i].threads[t]) == Some(c)
    ensures OutcomeOf(tr.states[i].threads[t]) == Some(out) || DecidedBy(tr, i, t, out)
  {
    StepOfRun(o, tr, i);
    if tr.acts[i] == Run(t) {
      StepperGetsOutcome(o, tr.states[i], t, tr.states[i + 1], out);
    } else {
      BystanderKeepsOutcome(o, tr.states[i], tr.acts[i], tr.states[i + 1], t);
    }
  }

  /** A leader that has an outcome decided it itself. */
  lemma {:induction false} LeadersDecide(o: Oracle, tr: Trace, j: nat, t: nat, c: nat, out: Outcome)
    requires IsRun(o, tr) && j < |tr.states| && t < |tr.states[j].threads|
    requires LeaderOf(tr.states[j].threads[t]) == Some(c) && OutcomeOf(tr.states[j].threads[t]) == Some(out)
    ensures LeaderDecision(tr, j, t, c, out)
  {
    NobodyAtStart(o, tr);
    StepOfLeader(o, tr, j - 1, t, c, out);
    if OutcomeOf(tr.states[j - 1].threads[t]) == Some(out) {
      LeadersDecide(o, tr, j - 1, t, c, out);
    }
  }

  lemma StepOfResult(o: Oracle, tr: Trace, i: nat, c: nat, out: Outcome)
    requires IsRun(o, tr) && i < |tr.acts| && c < |tr.states[i + 1].sh.calls|
    requires tr.states[i + 1].sh.calls[c].result == Some(out)
    ensures c < |tr.states[i].sh.calls|
    ensures tr.states[i].sh.calls[c].leader == tr.states[i + 1].sh.calls[c].leader
    ensures var m, l := tr.states[i], tr.states[i].sh.calls[c].leader;
            || m.sh.calls[c].result == Some(out)
            || (l < |m.threads| && LeaderOf(m.threads[l]) == Some(c) && OutcomeOf(m.threads[l]) == Some(out))
  {
    StepOfRun(o, tr, i);
    if c >= |tr.states[i].sh.calls| {
      NewCallsAreEmpty(o, tr.states[i], tr.acts[i], tr.states[i + 1], c);
    } else {
      CallsAreFilledOnce(o, tr.states[i], tr.acts[i], tr.states[i + 1], c);
    }
  }

  /** The result of a call was decided by its leader. */
  lemma {:induction false} ResultsAreDecided(o: Oracle, tr: Trace, j: nat, c: nat, out: Outcome)
    requires IsRun(o, tr) && j < |tr.states| && c < |tr.states[j].sh.calls|
    requires tr.states[j].sh.calls[c].result == Some(out)
    ensures LeaderDecision(tr, j, tr.states[j].sh.calls[c].leader, c, out)
  {
    NobodyAtStart(o, tr);
    StepOfResult(o, tr, j - 1, c, out);
    if tr.states[j - 1].sh.calls[c].result == Some(out) {
      ResultsAreDecided(o, tr, j - 1, c, out);
    } else {
      LeadersDecide(o, tr, j - 1, tr.states[j - 1].sh.calls[c].leader, c, out);
    }
  }

  lemma SharedDecisionsLast(o: Oracle, tr: Trace, i: nat, t: nat, c: nat, out: Outcome)
    requires IsRun(o, tr) && i < |tr.acts| && SharedDecision(tr, i, t, c, out)
    ensures SharedDecision(tr, i + 1, t, c, out)
  {
    StepOfRun(o, tr, i);
    CallsAreFilledOnce(o, tr.states[i], tr.acts[i], tr.states[i + 1], c);
    var k :| 0 <= k < i && DecidedBy(tr, k, tr.states[i].sh.calls[c].leader, out)
             && LeaderOf(tr.states[k].threads[tr.states[i].sh.calls[c].leader]) == Some(c);
  }

  lemma StepOfOutcome(o: Oracle, tr: Trace, i: nat, t: nat, out: Outcome)
    requires IsRun(o, tr) && i < |tr.acts| && t < |tr.states[i + 1].threads|
    requires OutcomeOf(tr.states[i + 1].threads[t]) == Some(out)
    ensures t < |tr.states[i].threads|
    ensures var pc, calls := tr.states[i].threads[t], tr.states[i + 1].sh.calls;
            || OutcomeOf(pc) == Some(out)
            || DecidedBy(tr, i, t, out)
            || (pc.Wait? && pc.c < |calls| && calls[pc.c].result == Some(out))
  {
    StepOfRun(o, tr, i);
    var m, a, m' := tr.states[i], tr.acts[i], tr.states[i + 1];
    if a == Run(t) {
      StepperGetsOutcome(o, m, t, m', out);
      if m.threads[t].Wait? && m.threads[t].c < |m.sh.calls| {
        CallsAreFilledOnce(o, m, a, m', m.threads[t].c);
      }
    } else {
      BystanderKeepsOutcome(o, m, a, m', t);
    }
  }

  /** Every outcome of every caller was decided with good reason by a step of that very caller, or by
      the leader of a call that the caller has waited for and that is filled with this outcome. */
  lemma {:induction false} EveryOutcomeIsJustified(o: Oracle, tr: Trace, t: nat, j: nat, out: Outcome)
    requires IsRun(o, tr) && j < |tr.states| && t < |tr.states[j].threads|
    requires OutcomeOf(tr.states[j].threads[t]) == Some(out)
    ensures OwnDecision(tr, j, t, out) || exists c :: SharedDecision(tr, j, t, c, out)
  {
    NobodyAtStart(o, tr);
    StepOfOutcome(o, tr, j - 1, t, out);
    var pc := tr.states[j - 1].threads[t];
    if OutcomeOf(pc) == Some(out) {
      EveryOutcomeIsJustified(o, tr, t, j - 1, out);
      if !OwnDecision(tr, j - 1, t, out) {
        var c :| SharedDecision(tr, j - 1, t, c, out);
        SharedDecisionsLast(o, tr, j - 1, t, c, out);
      }
    } else if !DecidedBy(tr, j - 1, t, out) {
      assert StoodAtWait(tr, j - 1, t, pc.c);
      ResultsAreDecided(o, tr, j, pc.c, out);
      assert SharedDecision(tr, j, t, pc.c, out);
    }
  }
}
