/** What an answer of the IdP comes to: every answer that a caller gets has the effect on the session,
    and gives the outcome, that its kind demands (internal/session/session.go, lines 287-389). */
module Answers {
  import opened Basics
  import opened Errors
  import opened Tokens
  import opened SessionSpec
  import opened Interleaving
  import opened Invariant
  import opened Lifecycle

  /** The caller has read the answer to its request, which presented rt, at the given time. A grant
      leaves it with the tokens of the answer, or the refresh token presented if there is none, and
      with the expiry that the answer and the clock demand. */
  ghost predicate ReadAs(o: Oracle, pc: PC, rt: string, answer: IdpAnswer, at: int) {
    if answer.Panicked? then pc.Unlocking? && pc.out == Fail(Crashed)
    else if Grants(answer) then
      var given := answer.http.body.token.value;
      && pc.Got?
      && pc.tr.accessToken == given.accessToken
      && pc.tr.refreshToken == (if Blank(given.refreshToken) then rt else given.refreshToken)
      && Expires(o, given.accessToken, given.expiresIn, at, pc.expiry.at, pc.expiry.known)
    else
      && pc.Failed?
      && pc.verdict == (if !Condemns(answer) then TransientVerdict
                        else if answer.http.status == 403 then TierVerdict else ReauthVerdict)
  }

  /** A caller standing at pc settles its refresh, with sh before and sh' after. A grant is stored in
      full in a ready session; one that has died meanwhile stays as it is. A condemning answer wipes
      both tokens. Anything else leaves the credentials alone. */
  ghost predicate SettledAs(sh: Shared, sh': Shared, pc: PC, out: Outcome) {
    var s, s' := sh.session, sh'.session;
    match pc
    case Got(_, tr, e) =>
      if s.state.Ready? then
        && s' == Session(Creds(tr.accessToken, tr.refreshToken, s.creds.tokenEndpoint, e.at, e.known), Ready, "")
        && out == Token(tr.accessToken)
      else Dead(s) && s' == s && out == Fail(NeedsReauth)
    case Failed(_, verdict, message) =>
      if verdict == TransientVerdict then
        && s' == s.(lastError := message)
        && out == if HardValid(s.creds, sh.now) then Token(s.creds.accessToken) else Fail(Unavailable)
      else
        && s'.creds == s.creds.(accessToken := "", refreshToken := "") && s'.lastError == message
        && s'.state == (if verdict == TierVerdict then TierDenied else ReauthRequired)
        && out == Fail(if verdict == TierVerdict then DeniedTier else NeedsReauth)
    case _ => false
  }

  // ----- single steps

  lemma AnswerIsRead(o: Oracle, sh: Shared, t: nat, pc: PC)
    requires TrimsFirst(o) && ThreadOK(o, sh, t, pc) && pc.Replied?
    ensures CanRun(sh, pc) && ReadAs(o, LocalStep(o, sh, t, pc).1, pc.rt, pc.answer, sh.now)
  {
    if pc.answer.Answered? {
      TerminalVerdictIffCondemned(o, pc.ep, pc.rt, pc.answer.discovery, pc.answer.http);
      RefreshKeepsOrRotates(o, pc.ep, pc.rt, pc.answer.discovery, pc.answer.http);
      if Grants(pc.answer) {
        var given := pc.answer.http.body.token.value;
        ExpiryIsExact(o, given.accessToken, given.expiresIn, sh.now);
      }
    }
  }

  lemma ReadIsSettled(o: Oracle, sh: Shared, t: nat, pc: PC)
    requires SharedOK(o, sh) && ThreadOK(o, sh, t, pc) && (pc.Got? || pc.Failed?)
    ensures CanRun(sh, pc) && OutcomeOf(LocalStep(o, sh, t, pc).1).Some?
    ensures SettledAs(sh, LocalStep(o, sh, t, pc).0, pc, OutcomeOf(LocalStep(o, sh, t, pc).1).value)
  {
  }

  // ----- runs

  /** Caller t has read the answer with step r. */
  ghost predicate ReadAt(o: Oracle, tr: Trace, t: nat, r: nat, rt: string, answer: IdpAnswer, pc: PC)
    requires |tr.states| == |tr.acts| + 1 && r < |tr.acts|
  {
    tr.acts[r] == Run(t) && ReadAs(o, pc, rt, answer, tr.states[r].sh.now)
  }

  /** Caller t has read the answer with step r and settled its refresh with step k. */
  ghost predicate SettledAt(o: Oracle, tr: Trace, t: nat, r: nat, k: nat, rt: string, answer: IdpAnswer, out: Outcome)
    requires |tr.states| == |tr.acts| + 1 && r < |tr.acts| && k < |tr.acts|
  {
    && tr.acts[k] == Run(t) && t < |tr.states[k].threads|
    && ReadAt(o, tr, t, r, rt, answer, tr.states[k].threads[t])
    && SettledAs(tr.states[k].sh, tr.states[k + 1].sh, tr.states[k].threads[t], out)
  }

  /** How far caller t, answered with step i, has come at state j. */
  ghost predicate Stage(o: Oracle, tr: Trace, t: nat, i: nat, j: nat, rt: string, answer: IdpAnswer)
    requires |tr.states| == |tr.acts| + 1 && i < j < |tr.states|
  {
    t < |tr.states[j].threads| &&
    var pc := tr.states[j].threads[t];
    || (pc.Replied? && pc.rt == rt && pc.answer == answer)
    || ((pc.Got? || pc.Failed?) && exists r :: i < r < j && ReadAt(o, tr, t, r, rt, answer, pc))
    || (OutcomeOf(pc) == Some(Fail(Crashed)) && answer.Panicked?)
    || (OutcomeOf(pc).Some? &&
        exists r, k :: i < r < k < j && SettledAt(o, tr, t, r, k, rt, answer, OutcomeOf(pc).value))
  }

  predicate Answered(pc: PC) {
    pc.Replied? || pc.Got? || pc.Failed? || OutcomeOf(pc).Some?
  }

  lemma OthersLeaveItThere(o: Oracle, m: Machine, a: Action, m': Machine, t: nat)
    requires Step(o, m, a, m') && a != Run(t) && t < |m.threads| && Answered(m.threads[t])
    ensures t < |m'.threads| && m'.threads[t] == m.threads[t]
  {
  }

  lemma OutcomesLast(o: Oracle, m: Machine, m': Machine, t: nat)
    requires Step(o, m, Run(t), m') && OutcomeOf(m.threads[t]).Some?
    ensures OutcomeOf(m'.threads[t]) == OutcomeOf(m.threads[t])
  {
  }

  lemma StepOfAnswer(o: Oracle, tr: Trace, t: nat, i: nat)
    requires TrimsFirst(o) && IsRun(o, tr) && i < |tr.acts| && tr.acts[i] == Run(t)
    requires t < |tr.states[i].threads| && Answered(tr.states[i].threads[t])
    ensures t < |tr.states[i + 1].threads|
    ensures var pc, pc' := tr.states[i].threads[t], tr.states[i + 1].threads[t];
            && (pc.Replied? ==> ReadAt(o, tr, t, i, pc.rt, pc.answer, pc'))
            && (pc.Got? || pc.Failed? ==>
                  && OutcomeOf(pc').Some?
                  && SettledAs(tr.states[i].sh, tr.states[i + 1].sh, pc, OutcomeOf(pc').value))
            && (OutcomeOf(pc).Some? ==> OutcomeOf(pc') == OutcomeOf(pc))
  {
    RunInv(o, tr, i);
    assert Step(o, tr.states[i], tr.acts[i], tr.states[i + 1]);
    var m := tr.states[i];
    var pc := m.threads[t];
    assert ThreadOK(o, m.sh, t, pc);
    if pc.Replied? {
      AnswerIsRead(o, m.sh, t, pc);
    } else if pc.Got? || pc.Failed? {
      ReadIsSettled(o, m.sh, t, pc);
    } else {
      OutcomesLast(o, m, tr.states[i + 1], t);
    }
  }

  lemma StageGoesOn(o: Oracle, tr: Trace, t: nat, i: nat, j: nat, rt: string, answer: IdpAnswer)
    requires TrimsFirst(o) && IsRun(o, tr) && i < j < |tr.acts| && Stage(o, tr, t, i, j, rt, answer)
    ensures Stage(o, tr, t, i, j + 1, rt, answer)
  {
    assert Answered(tr.states[j].threads[t]);
    if tr.acts[j] == Run(t) {
      StageStepsOn(o, tr, t, i, j, rt, answer);
    } else {
      assert Step(o, tr.states[j], tr.acts[j], tr.states[j + 1]);
      OthersLeaveItThere(o, tr.states[j], tr.acts[j], tr.states[j + 1], t);
    }
  }

  lemma StageStepsOn(o: Oracle, tr: Trace, t: nat, i: nat, j: nat, rt: string, answer: IdpAnswer)
    requires TrimsFirst(o) && IsRun(o, tr) && i < j < |tr.acts| && Stage(o, tr, t, i, j, rt, answer)
    requires tr.acts[j] == Run(t)
    ensures Stage(o, tr, t, i, j + 1, rt, answer)
  {
    StepOfAnswer(o, tr, t, j);
    var pc := tr.states[j].threads[t];
    if pc.Got? || pc.Failed? {
      var r :| i < r < j && ReadAt(o, tr, t, r, rt, answer, pc);
      assert SettledAt(o, tr, t, r, j, rt, answer, OutcomeOf(tr.states[j + 1].threads[t]).value);
    }
  }

  lemma {:induction false} StageUntil(o: Oracle, tr: Trace, t: nat, i: nat, j: nat, rt: string)
    requires TrimsFirst(o) && IsRun(o, tr) && i < j < |tr.states|
    requires tr.acts[i].Answer? && tr.acts[i].t == t
    requires t < |tr.states[i].threads| && tr.states[i].threads[t].Calling? && tr.states[i].threads[t].rt == rt
    ensures Stage(o, tr, t, i, j, rt, tr.acts[i].answer)
  {
    if i + 1 == j {
      assert Step(o, tr.states[i], tr.acts[i], tr.states[i + 1]);
    } else {
      StageUntil(o, tr, t, i, j - 1, rt);
      StageGoesOn(o, tr, t, i, j - 1, rt, tr.acts[i].answer);
    }
  }

  /** Every answer has its effect: in any run, once a caller that presented rt was answered and has an
      outcome, it has read the answer at one step, and settled its refresh with a later one, as the kind
      of the answer demands; or the call to the IdP panicked and it has heard of a crash. */
  lemma AnswersHaveTheirEffect(o: Oracle, tr: Trace, t: nat, i: nat, j: nat, rt: string, out: Outcome)
    requires TrimsFirst(o) && IsRun(o, tr) && i < j < |tr.states|
    requires tr.acts[i].Answer? && tr.acts[i].t == t
    requires t < |tr.states[i].threads| && tr.states[i].threads[t].Calling? && tr.states[i].threads[t].rt == rt
    requires t < |tr.states[j].threads| && OutcomeOf(tr.states[j].threads[t]) == Some(out)
    ensures if tr.acts[i].answer.Panicked? then out == Fail(Crashed)
            else exists r, k :: i < r < k < j && SettledAt(o, tr, t, r, k, rt, tr.acts[i].answer, out)
  {
    StageUntil(o, tr, t, i, j, rt);
  }

  /** A condemning answer ends the session: its caller is told so, the tier error exactly for a 403, and
      the session is dead from then on. */
  lemma CondemnedSessionsDie(o: Oracle, tr: Trace, t: nat, i: nat, j: nat, out: Outcome)
    requires TrimsFirst(o) && IsRun(o, tr) && i < j < |tr.states|
    requires tr.acts[i].Answer? && tr.acts[i].t == t && Condemns(tr.acts[i].answer)
    requires t < |tr.states[j].threads| && OutcomeOf(tr.states[j].threads[t]) == Some(out)
    ensures out == Fail(if tr.acts[i].answer.http.status == 403 then DeniedTier else NeedsReauth)
    ensures Dead(tr.states[j].sh.session)
  {
    assert Step(o, tr.states[i], tr.acts[i], tr.states[i + 1]);
    var rt := tr.states[i].threads[t].rt;
    AnswersHaveTheirEffect(o, tr, t, i, j, rt, out);
    var r, k :| i < r < k < j && SettledAt(o, tr, t, r, k, rt, tr.acts[i].answer, out);
    assert Dead(tr.states[k + 1].sh.session);
    DeathIsAbsorbing(o, tr, k + 1, j);
  }

  /** A granting answer renews the session: unless the session has died while the answer was on its way,
      its caller gets the access token of the answer, and at the step that stores it the session holds
      exactly the tokens of the answer with exactly the expiry that the answer demands. */
  lemma GrantedSessionsAreRenewed(o: Oracle, tr: Trace, t: nat, i: nat, j: nat, rt: string, out: Outcome)
    returns (r: nat, k: nat)
    requires TrimsFirst(o) && IsRun(o, tr) && i < j < |tr.states|
    requires tr.acts[i].Answer? && tr.acts[i].t == t && Grants(tr.acts[i].answer)
    requires t < |tr.states[i].threads| && tr.states[i].threads[t].Calling? && tr.states[i].threads[t].rt == rt
    requires t < |tr.states[j].threads| && OutcomeOf(tr.states[j].threads[t]) == Some(out)
    ensures i < r < k < j && tr.acts[r] == Run(t) && tr.acts[k] == Run(t)
    ensures var given := tr.acts[i].answer.http.body.token.value;
            var s, s' := tr.states[k].sh.session, tr.states[k + 1].sh.session;
            if s.state.Ready? then
              && out == Token(given.accessToken)
              && s'.state.Ready? && s'.lastError == "" && s'.creds.tokenEndpoint == s.creds.tokenEndpoint
              && s'.creds.accessToken == given.accessToken
              && s'.creds.refreshToken == (if Blank(given.refreshToken) then rt else given.refreshToken)
              && Expires(o, given.accessToken, given.expiresIn, tr.states[r].sh.now, s'.creds.expiresAt,
                         s'.creds.hasExpiry)
            else Dead(s) && s' == s && out == Fail(NeedsReauth)
  {
    AnswersHaveTheirEffect(o, tr, t, i, j, rt, out);
    r, k :| i < r < k < j && SettledAt(o, tr, t, r, k, rt, tr.acts[i].answer, out);
  }

  // ----- the session a login builds

  /** A login gives a session exactly with both tokens and a valid endpoint; it is ready, holds what the
      login brought, and expires as the answer demands. */
  lemma LoginIsExact(o: Oracle, login: LoginResult, now: int)
    ensures var r := NewFromLogin(o, login, now);
            var given, d := login.tokens, if r.Ok? then r.value.creds else NO_CREDS;
            && (r.Ok? <==> given.accessToken != "" && given.refreshToken != "" && o.validEndpoint(login.tokenEndpoint))
            && (r.Ok? ==>
                  && r.value.state.Ready? && r.value.lastError == ""
                  && d.accessToken == given.accessToken && d.refreshToken == given.refreshToken
                  && d.tokenEndpoint == login.tokenEndpoint
                  && Expires(o, given.accessToken, given.expiresIn, now, d.expiresAt, d.hasExpiry))
  {
    ExpiryIsExact(o, login.tokens.accessToken, login.tokens.expiresIn, now);
  }
}
