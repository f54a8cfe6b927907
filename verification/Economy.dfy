/** How often and with what the session turns to the IdP: one call at a time, none before the
    refresh window opens, none after a terminal failure, and only ever to a valid endpoint. */
module Economy {
  import opened Basics
  import opened Errors
  import opened HostPin
  import opened Tokens
  import opened SessionSpec
  import opened Interleaving
  import opened Invariant
  import opened Lifecycle

  // ----- one call at a time

  /** At most one request is with the IdP, and none while drained credentials are outstanding. */
  lemma OneCallAtATime(o: Oracle, tr: Trace, i: nat, t: nat, u: nat)
    requires IsRun(o, tr) && i < |tr.states|
    requires t < |tr.states[i].threads| && u < |tr.states[i].threads|
    requires InFlight(tr.states[i].threads[t])
    ensures InFlight(tr.states[i].threads[u]) ==> t == u
    ensures SnapshotOf(tr.states[i].threads[u]).None?
    ensures !tr.states[i].threads[u].DrainLocked?
  {
    RunInv(o, tr, i);
    var m := tr.states[i];
    assert ThreadOK(o, m.sh, t, m.threads[t]) && ThreadOK(o, m.sh, u, m.threads[u]);
    assert t != u ==> PairOK(m.threads[u], m.threads[t]);
  }

  // ----- none too early

  /** The step that stores a refreshed token with a known expiry at. */
  ghost predicate InstallsExpiry(m: Machine, a: Action, at: int) {
    Installs(m, a) && m.threads[a.t].expiry == Expiry(at, true)
  }

  /** State i is the first with an expiry at that a login, a takeover or a refresh has brought. */
  ghost predicate BringsExpiry(tr: Trace, i: nat, at: int)
    requires |tr.states| == |tr.acts| + 1 && i < |tr.states|
  {
    if i == 0 then
      var d := tr.states[0].sh.session.creds;
      d.hasExpiry && d.expiresAt == at
    else InstallsExpiry(tr.states[i - 1], tr.acts[i - 1], at)
  }

  /** The step that sends a request to the IdP. */
  ghost predicate Begins(m: Machine, a: Action) {
    a.Run? && a.t < |m.threads| && m.threads[a.t].Snapped? && m.threads[a.t].rt != ""
  }

  /** The session or its drained snapshot expires at the given time, and whoever is about to call
      the IdP does so inside the refresh window. */
  ghost predicate Governed(m: Machine, at: int) {
    && (m.sh.session.state.Ready? ==> m.sh.session.creds.hasExpiry && m.sh.session.creds.expiresAt == at)
    && forall t :: 0 <= t < |m.threads| ==> GovernedCaller(m.threads[t], m.sh.now, at)
  }

  ghost predicate GovernedCaller(pc: PC, now: int, at: int) {
    && (SnapshotOf(pc).Some? ==> SnapshotOf(pc).value.hasExpiry && SnapshotOf(pc).value.expiresAt == at)
    && (pc.Snapped? ==> now >= at - REFRESH_SKEW)
  }

  lemma InstallGoverns(o: Oracle, m: Machine, a: Action, m': Machine, at: int)
    requires Inv(o, m) && Step(o, m, a, m') && InstallsExpiry(m, a, at)
    ensures Governed(m', at)
  {
  }

  lemma StepperStaysGoverned(o: Oracle, sh: Shared, t: nat, pc: PC, at: int)
    requires SharedOK(o, sh) && ThreadOK(o, sh, t, pc) && CanRun(sh, pc)
    requires sh.session.state.Ready? ==> sh.session.creds.hasExpiry && sh.session.creds.expiresAt == at
    requires GovernedCaller(pc, sh.now, at)
    requires !(pc.Got? && sh.session.state.Ready? && sh.session.creds.refreshToken != "")
    ensures var sh' := LocalStep(o, sh, t, pc).0;
            && sh'.now == sh.now
            && (sh'.session.state.Ready? ==> sh'.session.creds.hasExpiry && sh'.session.creds.expiresAt == at)
            && GovernedCaller(LocalStep(o, sh, t, pc).1, sh.now, at)
  {
  }

  lemma StepStaysGoverned(o: Oracle, m: Machine, a: Action, m': Machine, at: int)
    requires Inv(o, m) && Step(o, m, a, m') && Governed(m, at) && !Installs(m, a)
    ensures Governed(m', at)
  {
    if a.Run? {
      assert ThreadOK(o, m.sh, a.t, m.threads[a.t]);
      StepperStaysGoverned(o, m.sh, a.t, m.threads[a.t], at);
    }
  }

  lemma StepOfRunStaysGoverned(o: Oracle, tr: Trace, i: nat, at: int)
    requires IsRun(o, tr) && i < |tr.acts|
    requires Governed(tr.states[i], at) && !Installs(tr.states[i], tr.acts[i])
    ensures Governed(tr.states[i + 1], at)
  {
    RunInv(o, tr, i);
    StepStaysGoverned(o, tr.states[i], tr.acts[i], tr.states[i + 1], at);
  }

  lemma {:induction false} GovernedUntil(o: Oracle, tr: Trace, i: nat, j: nat, at: int)
    requires IsRun(o, tr) && i <= j < |tr.states|
    requires Governed(tr.states[i], at)
    requires forall k :: i <= k < j ==> !Installs(tr.states[k], tr.acts[k])
    ensures Governed(tr.states[j], at)
  {
    if i < j {
      GovernedUntil(o, tr, i, j - 1, at);
      StepOfRunStaysGoverned(o, tr, j - 1, at);
    }
  }

  lemma BroughtExpiryGoverns(o: Oracle, tr: Trace, i: nat, at: int)
    requires IsRun(o, tr) && i < |tr.states| && BringsExpiry(tr, i, at)
    ensures Governed(tr.states[i], at)
  {
    if i > 0 {
      RunInv(o, tr, i - 1);
      InstallGoverns(o, tr.states[i - 1], tr.acts[i - 1], tr.states[i], at);
    }
  }

  /** Refresh economy: after a login, a takeover or a refresh has brought a token expiring at a known
      time, the next request to the IdP leaves no earlier than five minutes before that time, whoever
      sends it and whatever it saw before. */
  lemma NoEarlyRefresh(o: Oracle, tr: Trace, i: nat, j: nat, at: int)
    requires IsRun(o, tr) && i <= j < |tr.acts| && BringsExpiry(tr, i, at)
    requires forall k :: i <= k < j ==> !Installs(tr.states[k], tr.acts[k])
    requires Begins(tr.states[j], tr.acts[j])
    ensures tr.states[j].sh.now >= at - 300 * SECOND
  {
    BroughtExpiryGoverns(o, tr, i, at);
    GovernedUntil(o, tr, i, j, at);
    assert GovernedCaller(tr.states[j].threads[tr.acts[j].t], tr.states[j].sh.now, at);
  }

  // ----- none after the end

  /** The session is dead and nobody holds a snapshot to call the IdP with. */
  ghost predicate Retired(m: Machine) {
    && Dead(m.sh.session)
    && forall t :: 0 <= t < |m.threads| ==> !m.threads[t].Snapped?
  }

  lemma DeadSessionsTakeNoSnapshot(o: Oracle, m: Machine, a: Action, m': Machine, t: nat)
    requires Step(o, m, a, m') && Dead(m.sh.session)
    requires t < |m'.threads| && m'.threads[t].Snapped?
    ensures t < |m.threads| && m.threads[t].Snapped? && a != Run(t)
  {
  }

  lemma {:induction false} RetiredForever(o: Oracle, tr: Trace, i: nat, j: nat)
    requires IsRun(o, tr) && i <= j < |tr.states| && Retired(tr.states[i])
    ensures Retired(tr.states[j])
  {
    if i < j {
      RetiredForever(o, tr, i, j - 1);
      RunInv(o, tr, j - 1);
      var m, a, m' := tr.states[j - 1], tr.acts[j - 1], tr.states[j];
      DeadStaysDead(o, m, a, m');
      forall t | 0 <= t < |m'.threads| ensures !m'.threads[t].Snapped? {
        if m'.threads[t].Snapped? {
          DeadSessionsTakeNoSnapshot(o, m, a, m', t);
        }
      }
    }
  }

  /** The step in which a refresh itself ends the session. */
  ghost predicate RefreshEnds(m: Machine, a: Action) {
    a.Run? && a.t < |m.threads| && m.threads[a.t].Failed? && m.threads[a.t].verdict != TransientVerdict
  }

  lemma EndingRetires(o: Oracle, m: Machine, a: Action, m': Machine)
    requires Inv(o, m) && Step(o, m, a, m')
    requires RefreshEnds(m, a) || (Dead(m.sh.session) && Begins(m, a))
    ensures Retired(m')
  {
  }

  /** A refresh that ended the session is the last: no request to the IdP ever begins again. */
  lemma TerminalFailureIsTheLastCall(o: Oracle, tr: Trace, i: nat, j: nat)
    requires IsRun(o, tr) && i < j < |tr.acts| && RefreshEnds(tr.states[i], tr.acts[i])
    ensures !Begins(tr.states[j], tr.acts[j])
  {
    RunInv(o, tr, i);
    assert Step(o, tr.states[i], tr.acts[i], tr.states[i + 1]);
    EndingRetires(o, tr.states[i], tr.acts[i], tr.states[i + 1]);
    RetiredForever(o, tr, i + 1, j);
  }

  /** After a logout at most one more request begins, and its caller had copied the credentials
      before the logout. */
  lemma OneCallAfterLogout(o: Oracle, tr: Trace, i: nat, j: nat)
    requires IsRun(o, tr) && i < j < |tr.acts|
    requires Clears(tr.states[i], tr.acts[i]) && Begins(tr.states[j], tr.acts[j])
    ensures tr.acts[j].t < |tr.states[i].threads| && tr.states[i].threads[tr.acts[j].t].Snapped?
    ensures forall k :: j < k < |tr.acts| ==> !Begins(tr.states[k], tr.acts[k])
  {
    assert Step(o, tr.states[i], tr.acts[i], tr.states[i + 1]);
    ClearKills(o, tr.states[i], tr.acts[i], tr.states[i + 1]);
    SnappedSince(o, tr, i + 1, j, tr.acts[j].t);
    assert tr.acts[i] != Run(tr.acts[j].t);
    DeathIsAbsorbing(o, tr, i + 1, j);
    RunInv(o, tr, j);
    assert Step(o, tr.states[j], tr.acts[j], tr.states[j + 1]);
    EndingRetires(o, tr.states[j], tr.acts[j], tr.states[j + 1]);
    forall k | j < k < |tr.acts| ensures !Begins(tr.states[k], tr.acts[k]) {
      RetiredForever(o, tr, j + 1, k);
    }
  }

  lemma {:induction false} SnappedSince(o: Oracle, tr: Trace, i: nat, j: nat, t: nat)
    requires IsRun(o, tr) && i <= j < |tr.states| && Dead(tr.states[i].sh.session)
    requires t < |tr.states[j].threads| && tr.states[j].threads[t].Snapped?
    ensures t < |tr.states[i].threads| && tr.states[i].threads[t].Snapped?
  {
    if i < j {
      DeathIsAbsorbing(o, tr, i, j - 1);
      DeadSessionsTakeNoSnapshot(o, tr.states[j - 1], tr.acts[j - 1], tr.states[j], t);
      SnappedSince(o, tr, i, j - 1, t);
    }
  }

  // ----- where requests go, and arms that are never taken

  /** Every request carries a refresh token and goes, over https, to a host on the x.ai origin;
      discovery is never needed for it. */
  lemma RequestsStayOnOrigin(o: Oracle, parse: string -> Option<URL>, tr: Trace, i: nat, t: nat)
    requires Pinned(o, parse)
    requires IsRun(o, tr) && i < |tr.states| && t < |tr.states[i].threads| && tr.states[i].threads[t].Calling?
    ensures var pc := tr.states[i].threads[t];
            && !Blank(pc.rt)
            && parse(Trim(pc.ep)).Some?
            && parse(Trim(pc.ep)).value.scheme == "https"
            && NamesOrigin(Trim(parse(Trim(pc.ep)).value.hostname))
            && forall discovery, http :: Refresh(o, pc.ep, pc.rt, discovery, http) == RefreshReply(pc.rt, http)
  {
    RunInv(o, tr, i);
    var pc := tr.states[i].threads[t];
    assert ThreadOK(o, tr.states[i].sh, t, pc);
    TrimIsExact(pc.ep, Trim(pc.ep));
    ValidURLIsExact(parse, pc.ep, Trim(pc.ep));
    PinnedTrimsFirst(o, parse);
    forall discovery, http ensures Refresh(o, pc.ep, pc.rt, discovery, http) == RefreshReply(pc.rt, http) {
      TerminalVerdictIffCondemned(o, pc.ep, pc.rt, discovery, http);
    }
  }

  /** The defensive arms are dead code: no snapshot lacks a refresh token, and the region behind a
      successful IdP call meets only a session that was logged out or a ready one that still has
      its refresh token. */
  lemma DefensiveArmsAreDead(o: Oracle, tr: Trace, i: nat, t: nat)
    requires IsRun(o, tr) && i < |tr.states| && t < |tr.states[i].threads|
    ensures tr.states[i].threads[t].Snapped? ==> tr.states[i].threads[t].rt != ""
    ensures tr.states[i].threads[t].Got? ==>
              var s := tr.states[i].sh.session;
              s.state.ReauthRequired? || (s.state.Ready? && s.creds.refreshToken != "")
  {
    RunInv(o, tr, i);
    assert ThreadOK(o, tr.states[i].sh, t, tr.states[i].threads[t]);
  }
}
