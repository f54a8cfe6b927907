/** What /ready reports: "degraded" means exactly that the token has expired and the latest refresh
    attempt failed for a transient reason. */
module Health {
  import opened Basics
  import opened Errors
  import opened Tokens
  import opened SessionSpec
  import opened Interleaving
  import opened Invariant

  /** What a step says about the IdP. */
  datatype News = Trouble | Relief | NoNews

  /** Trouble is a refresh that failed transiently; a refresh that panicked leaves nothing behind, as in
      the program, and is no news; relief is a refresh that stored a token, or a rollback that gave the
      session back. */
  ghost function Report(m: Machine, a: Action): News {
    if !a.Run? || a.t >= |m.threads| then NoNews
    else
      match m.threads[a.t]
      case Failed(_, verdict, _) => if verdict == TransientVerdict then Trouble else NoNews
      case Got(_, _, _) => if m.sh.session.state.Ready? then Relief else NoNews
      case Restoring(_) => if m.sh.session.state.HandedOff? then Relief else NoNews
      case _ => NoNews
  }

  /** The latest news before state j, if there were any since login, was trouble. */
  ghost predicate InTrouble(tr: Trace, j: nat)
    requires |tr.states| == |tr.acts| + 1 && j < |tr.states|
  {
    j > 0 &&
    match Report(tr.states[j - 1], tr.acts[j - 1])
    case Trouble => true
    case Relief => false
    case NoNews => InTrouble(tr, j - 1)
  }

  lemma ErrorsFollowNews(o: Oracle, m: Machine, a: Action, m': Machine)
    requires Inv(o, m) && Step(o, m, a, m') && m'.sh.session.state.Ready?
    ensures Report(m, a) == Trouble ==> m'.sh.session.lastError != ""
    ensures Report(m, a) == Relief ==> m'.sh.session.lastError == ""
    ensures Report(m, a) == NoNews ==> m.sh.session.state.Ready? && m'.sh.session.lastError == m.sh.session.lastError
  {
  }

  lemma {:induction false} LastErrorIsTrouble(o: Oracle, tr: Trace, j: nat)
    requires IsRun(o, tr) && j < |tr.states| && tr.states[j].sh.session.state.Ready?
    ensures tr.states[j].sh.session.lastError != "" <==> InTrouble(tr, j)
  {
    if j > 0 {
      RunInv(o, tr, j - 1);
      ErrorsFollowNews(o, tr.states[j - 1], tr.acts[j - 1], tr.states[j]);
      if Report(tr.states[j - 1], tr.acts[j - 1]) == NoNews {
        LastErrorIsTrouble(o, tr, j - 1);
      }
    }
  }

  /** At every point of every run, the readiness report says "degraded" if and only if the session is
      ready, its token is past expiry (or has none), and the latest refresh attempt since login, the
      last success or the last rollback, not counting attempts that panicked, failed transiently; it
      says ready in the remaining ready states and names the state otherwise. */
  lemma DegradedMeansWhatItSays(o: Oracle, tr: Trace, j: nat)
    requires IsRun(o, tr) && j < |tr.states|
    ensures var sh := tr.states[j].sh;
            var (ready, reason) := Readiness(sh.session, sh.now);
            && (reason == "degraded" <==>
                  sh.session.state.Ready? && !HardValid(sh.session.creds, sh.now) && InTrouble(tr, j))
            && (ready <==> sh.session.state.Ready? && reason != "degraded")
            && (ready ==> HardValid(sh.session.creds, sh.now) || !InTrouble(tr, j))
            && (reason == "ready" <==> ready)
            && (reason == "reauth_required" <==> sh.session.state == ReauthRequired)
            && (reason == "tier_denied" <==> sh.session.state == TierDenied)
            && (reason == "handed_off" <==> sh.session.state == HandedOff)
  {
    if tr.states[j].sh.session.state.Ready? {
      LastErrorIsTrouble(o, tr, j);
    }
    NamesDiffer();
  }

  lemma NamesDiffer()
    ensures StateName(Ready) == "ready" && StateName(ReauthRequired) == "reauth_required"
    ensures StateName(TierDenied) == "tier_denied" && StateName(HandedOff) == "handed_off"
    ensures forall st :: StateName(st) != DEGRADED
    ensures forall st, other :: StateName(st) == StateName(other) ==> st == other
  {
    assert |"ready"| == 5 && |"reauth_required"| == 15 && |"tier_denied"| == 11 && |"handed_off"| == 10;
  }

  /** A session that is not ready says why: one that is handed over has nothing left but its notice, and
      a dead one has an error. */
  lemma {:induction false} QuietSessions(o: Oracle, tr: Trace, j: nat)
    requires IsRun(o, tr) && j < |tr.states|
    ensures tr.states[j].sh.session.state.HandedOff? ==>
              tr.states[j].sh.session == Session(Creds("", "", "", ZERO_TIME, false), HandedOff, "handed_off")
    ensures Dead(tr.states[j].sh.session) ==> tr.states[j].sh.session.lastError != ""
  {
    if j > 0 {
      QuietSessions(o, tr, j - 1);
      RunInv(o, tr, j - 1);
      QuietStep(o, tr.states[j - 1], tr.acts[j - 1], tr.states[j]);
    }
  }

  lemma QuietStep(o: Oracle, m: Machine, a: Action, m': Machine)
    requires Inv(o, m) && Step(o, m, a, m')
    requires m.sh.session.state.HandedOff? ==> m.sh.session == DRAINED
    requires Dead(m.sh.session) ==> m.sh.session.lastError != ""
    ensures m'.sh.session.state.HandedOff? ==> m'.sh.session == DRAINED
    ensures Dead(m'.sh.session) ==> m'.sh.session.lastError != ""
  {
    if a.Run? {
      assert ThreadOK(o, m.sh, a.t, m.threads[a.t]);
    }
  }

  /** What the status report tells at every point of every run: state and last_error are the session's,
      and a session that is not ready has an error to show; token_valid is exactly a ready state
      with a known expiry that lies ahead; last_error of a ready session is exactly trouble with the
      IdP; the readiness report and what a call arriving now is answered at once, if anything, can
      both be read off it. */
  lemma StatusTellsEverything(o: Oracle, tr: Trace, j: nat)
    requires IsRun(o, tr) && j < |tr.states|
    ensures var sh := tr.states[j].sh;
            var st := StatusOf(sh.session, sh.now);
            && st.state == sh.session.state && st.lastError == sh.session.lastError
            && (st.state.HandedOff? ==> st.lastError == "handed_off" && !st.hasExpiry)
            && (Dead(sh.session) ==> st.lastError != "")
            && (st.hasExpiry <==> sh.session.creds.hasExpiry)
            && st.expiresAt == (if st.hasExpiry then sh.session.creds.expiresAt else ZERO_TIME)
            && (st.tokenValid <==> st.state.Ready? && st.hasExpiry && sh.now < st.expiresAt)
            && (st.state.Ready? ==> (st.lastError != "" <==> InTrouble(tr, j)))
            && (Readiness(sh.session, sh.now).0 <==> st.state.Ready? && (st.tokenValid || st.lastError == ""))
            && (CheckGate(sh.session, sh.now).Refused? <==> !st.state.Ready?)
            && (CheckGate(sh.session, sh.now).Hit? <==> st.tokenValid && sh.now < st.expiresAt - 300 * SECOND)
  {
    RunInv(o, tr, j);
    QuietSessions(o, tr, j);
    assert Sound(o, tr.states[j].sh.session);
    if tr.states[j].sh.session.state.Ready? {
      LastErrorIsTrouble(o, tr, j);
    }
  }
}
