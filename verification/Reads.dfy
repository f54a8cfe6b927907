/** Linearizable reads: whatever else happens, a token that GetAccessToken returns was the
    session's token, with the session ready, at some instant inside that very call. */
module Reads {
  import opened Basics
  import opened Tokens
  import opened SessionSpec
  import opened Interleaving
  import opened Invariant

  /** At this instant the session is ready and tok is its access token. */
  ghost predicate Holding(sh: Shared, tok: string) {
    sh.session.state.Ready? && sh.session.creds.accessToken == tok
  }

  /** Singleflight call c has produced tok, whether or not its waiters have been told. */
  ghost predicate Carries(m: Machine, c: nat, tok: string) {
    c < |m.sh.calls| &&
    var call := m.sh.calls[c];
    || call.result == Some(Token(tok))
    || (call.leader < |m.threads| && LeaderOf(m.threads[call.leader]) == Some(c)
        && OutcomeOf(m.threads[call.leader]) == Some(Token(tok)))
  }

  /** Caller t does not hold tok and is not about to be handed it. */
  ghost predicate Clean(m: Machine, t: nat, tok: string) {
    t < |m.threads| &&
    match m.threads[t]
    case GetMissed => m.sh.entry.None? || !Carries(m, m.sh.entry.value, tok)
    case Wait(c) => !Carries(m, c, tok)
    case _ => OutcomeOf(m.threads[t]) != Some(Token(tok))
  }

  /** A step produces a token only by reading it off a ready session or by installing it there. */
  lemma TokensComeFromTheSession(o: Oracle, sh: Shared, t: nat, pc: PC, tok: string)
    requires SharedOK(o, sh) && ThreadOK(o, sh, t, pc) && CanRun(sh, pc)
    requires !pc.Wait? && OutcomeOf(pc) != Some(Token(tok))
    requires OutcomeOf(LocalStep(o, sh, t, pc).1) == Some(Token(tok))
    ensures Holding(sh, tok) || Holding(LocalStep(o, sh, t, pc).0, tok)
  {
  }

  /** As long as a call is in the map, a ready session holds the token the call carries. */
  lemma CarriedTokenIsHeld(o: Oracle, m: Machine, tok: string)
    requires Inv(o, m)
    requires m.sh.entry.Some? && Carries(m, m.sh.entry.value, tok)
    requires m.sh.session.state.Ready?
    ensures Holding(m.sh, tok)
  {
  }

  lemma CarriageNeedsHolding(o: Oracle, m: Machine, a: Action, m': Machine, c: nat, tok: string)
    requires Inv(o, m) && Step(o, m, a, m')
    requires !Holding(m.sh, tok) && !Holding(m'.sh, tok)
    requires c < |m.sh.calls| ==> !Carries(m, c, tok)
    ensures !Carries(m', c, tok)
  {
    if a.Run? {
      RunCarriageNeedsHolding(o, m, a.t, m', c, tok);
    }
  }

  lemma RunCarriageNeedsHolding(o: Oracle, m: Machine, t: nat, m': Machine, c: nat, tok: string)
    requires Inv(o, m) && Step(o, m, Run(t), m')
    requires !Holding(m.sh, tok) && !Holding(m'.sh, tok)
    requires c < |m.sh.calls| ==> !Carries(m, c, tok)
    ensures !Carries(m', c, tok)
  {
    var pc := m.threads[t];
    assert ThreadOK(o, m.sh, t, pc);
    if OutcomeOf(m'.threads[t]) == Some(Token(tok)) && OutcomeOf(pc) != Some(Token(tok)) && !pc.Wait? {
      TokensComeFromTheSession(o, m.sh, t, pc, tok);
    }
  }

  lemma StepKeepsClean(o: Oracle, m: Machine, a: Action, m': Machine, t: nat, tok: string)
    requires Inv(o, m) && Step(o, m, a, m')
    requires !Holding(m.sh, tok) && !Holding(m'.sh, tok)
    requires Clean(m, t, tok)
    ensures Clean(m', t, tok)
  {
    if a == Run(t) {
      StepperStaysClean(o, m, m', t, tok);
    } else {
      BystanderStaysClean(o, m, a, m', t, tok);
    }
  }

  lemma StepperStaysClean(o: Oracle, m: Machine, m': Machine, t: nat, tok: string)
    requires Inv(o, m) && Step(o, m, Run(t), m')
    requires !Holding(m.sh, tok) && !Holding(m'.sh, tok)
    requires Clean(m, t, tok)
    ensures Clean(m', t, tok)
  {
    var pc := m.threads[t];
    assert ThreadOK(o, m.sh, t, pc);
    if pc.GetEnter? {
      if m.sh.session.state.Ready? && m.sh.entry.Some? && Carries(m, m.sh.entry.value, tok) {
        CarriedTokenIsHeld(o, m, tok);
      }
      if m.sh.entry.Some? && !Carries(m, m.sh.entry.value, tok) {
        CarriageNeedsHolding(o, m, Run(t), m', m.sh.entry.value, tok);
      }
    } else if pc.GetMissed? {
      if m.sh.entry.Some? {
        CarriageNeedsHolding(o, m, Run(t), m', m.sh.entry.value, tok);
      }
    } else if !pc.Wait? && OutcomeOf(m'.threads[t]) == Some(Token(tok)) {
      TokensComeFromTheSession(o, m.sh, t, pc, tok);
    }
  }

  lemma BystanderStaysClean(o: Oracle, m: Machine, a: Action, m': Machine, t: nat, tok: string)
    requires Inv(o, m) && Step(o, m, a, m') && a != Run(t)
    requires !Holding(m.sh, tok) && !Holding(m'.sh, tok)
    requires Clean(m, t, tok)
    ensures Clean(m', t, tok)
  {
    var pc := m.threads[t];
    assert ThreadOK(o, m.sh, t, pc);
    if pc.Wait? {
      CarriageNeedsHolding(o, m, a, m', pc.c, tok);
    } else if pc.GetMissed? && m'.sh.entry.Some? {
      EntryIsOldOrNew(o, m, a, m');
      CarriageNeedsHolding(o, m, a, m', m'.sh.entry.value, tok);
    }
  }

  lemma EntryIsOldOrNew(o: Oracle, m: Machine, a: Action, m': Machine)
    requires Step(o, m, a, m') && m'.sh.entry.Some?
    ensures m'.sh.entry == m.sh.entry || m'.sh.entry == Some(|m.sh.calls|)
  {
  }

  lemma StepOfRunKeepsClean(o: Oracle, tr: Trace, t: nat, tok: string, i: nat)
    requires IsRun(o, tr) && i < |tr.acts|
    requires Clean(tr.states[i], t, tok)
    requires !Holding(tr.states[i].sh, tok) && !Holding(tr.states[i + 1].sh, tok)
    ensures Clean(tr.states[i + 1], t, tok)
  {
    RunInv(o, tr, i);
    StepKeepsClean(o, tr.states[i], tr.acts[i], tr.states[i + 1], t, tok);
  }

  lemma {:induction false} CleanUntil(o: Oracle, tr: Trace, t: nat, tok: string, i: nat, j: nat)
    requires IsRun(o, tr) && i <= j < |tr.states|
    requires Clean(tr.states[i], t, tok)
    requires forall k :: i <= k <= j ==> !Holding(tr.states[k].sh, tok)
    ensures Clean(tr.states[j], t, tok)
  {
    if i < j {
      CleanUntil(o, tr, t, tok, i, j - 1);
      StepOfRunKeepsClean(o, tr, t, tok, j - 1);
    }
  }

  /** Caller t arrives with step i and returns tok with step j. */
  ghost predicate ReadSpans(tr: Trace, t: nat, i: nat, j: nat, tok: string)
    requires |tr.states| == |tr.acts| + 1
  {
    && i < j < |tr.acts|
    && tr.acts[i] == Spawn(OpGet) && t == |tr.states[i].threads|
    && tr.acts[j] == Run(t) && t < |tr.states[j].threads| && t < |tr.states[j + 1].threads|
    && !Done(tr.states[j].threads[t])
    && tr.states[j + 1].threads[t] == GetDone(Token(tok))
  }

  /** Linearizability: the returned token was current at some instant between arrival and return,
      for leaders, waiters and late joiners alike. */
  lemma LinearizableRead(o: Oracle, tr: Trace, t: nat, i: nat, j: nat, tok: string)
    requires IsRun(o, tr) && ReadSpans(tr, t, i, j, tok)
    ensures exists k :: i < k <= j && Holding(tr.states[k].sh, tok)
  {
    if forall k :: i < k <= j ==> !Holding(tr.states[k].sh, tok) {
      assert Step(o, tr.states[i], tr.acts[i], tr.states[i + 1]);
      CleanUntil(o, tr, t, tok, i + 1, j);
      RunInv(o, tr, j);
      assert Step(o, tr.states[j], Run(t), tr.states[j + 1]);
      LastStepIsClean(o, tr.states[j], tr.states[j + 1], t, tok);
    }
  }

  lemma LastStepIsClean(o: Oracle, m: Machine, m': Machine, t: nat, tok: string)
    requires Inv(o, m) && Step(o, m, Run(t), m')
    requires Clean(m, t, tok) && !Holding(m.sh, tok) && !Done(m.threads[t])
    ensures m'.threads[t] != GetDone(Token(tok))
  {
  }

  // ----- what the two looks at the session come to

  /** What a look at the session finds: a token with a known expiry more than five minutes ahead is handed
      out, a session that is not ready refuses as its state demands, and anything else needs a refresh. */
  ghost predicate LookedAt(s: Session, now: int, out: Option<Outcome>) {
    if s.state == ReauthRequired then out == Some(Fail(NeedsReauth))
    else if s.state == TierDenied then out == Some(Fail(DeniedTier))
    else if s.state == HandedOff then out == Some(Fail(Unavailable))
    else if s.creds.accessToken != "" && s.creds.hasExpiry && now < s.creds.expiresAt - 300 * SECOND then
      out == Some(Token(s.creds.accessToken))
    else out == None
  }

  /** In any run, the first step of a call and the first one under opMu change nothing and go by what they
      find: the call ends there, or goes on to the singleflight, or to a refresh with exactly the refresh
      token and the endpoint that the session has. */
  lemma LooksAreExact(o: Oracle, tr: Trace, t: nat, i: nat)
    requires IsRun(o, tr) && i < |tr.acts| && tr.acts[i] == Run(t)
    requires t < |tr.states[i].threads| && (tr.states[i].threads[t].GetEnter? || tr.states[i].threads[t].Locked?)
    ensures tr.states[i + 1].sh == tr.states[i].sh && t < |tr.states[i + 1].threads|
    ensures var sh, pc, pc' := tr.states[i].sh, tr.states[i].threads[t], tr.states[i + 1].threads[t];
            && LookedAt(sh.session, sh.now, OutcomeOf(pc'))
            && (OutcomeOf(pc').Some? ==> pc' == if pc.GetEnter? then GetDone(pc'.out) else Unlocking(pc.c, pc'.out))
            && (OutcomeOf(pc').None? ==>
                  pc' == if pc.GetEnter? then GetMissed
                         else Snapped(pc.c, sh.session.creds.refreshToken, sh.session.creds.tokenEndpoint))
  {
    assert Step(o, tr.states[i], tr.acts[i], tr.states[i + 1]);
  }
}
