/** The object and the interleaving are the same program. Every region of the object is one step of the
    interleaving, whatever the other callers have left behind; so any schedule of callers, played on
    one object, takes it through the states of the run. A caller that runs alone, from its first step
    to its last, leaves what SessionObject.GetAccessToken promises. */
module Refinement {
  import opened Basics
  import opened Tokens
  import opened SessionSpec
  import opened Interleaving
  import opened Invariant
  import opened Progress
  import opened LiveSession

  // ----- one region of the object, one step of the interleaving

  /** singleflight.Do and the looks at the session that change nothing. */
  method AdvanceLooking(o: Oracle, s: SessionObject, t: nat, pc: PC, now: int) returns (next: PC)
    requires CanRun(s.View(now), pc)
    requires pc.GetEnter? || pc.GetMissed? || pc.Wait? || pc.Locked? || pc.Replied?
    modifies s`m, s`calls
    ensures (s.View(now), next) == LocalStep(o, old(s.View(now)), t, pc)
  {
    match pc {
      case GetEnter =>
        var gate := s.Look(now);
        next := AfterFirstLook(gate);
      case GetMissed =>
        next := s.Join(t, now);
      case Wait(c) =>
        next := GetDone(s.calls[c].result.value);
      case Locked(c) =>
        var gate := s.Look(now);
        next := AfterSecondLook(gate, c, s.Fields().creds);
      case Replied(_, _, _, _) =>
        next := AfterReply(o, pc, now);
    }
  }

  /** The regions of refreshIfNeeded that change the session. */
  method AdvanceRefreshing(o: Oracle, s: SessionObject, t: nat, pc: PC, now: int) returns (next: PC)
    requires CanRun(s.View(now), pc)
    requires pc.Snapped? || pc.Got? || pc.Failed?
    modifies s`accessToken, s`refreshToken, s`expiresAt, s`hasExpiry, s`state, s`lastError
    ensures (s.View(now), next) == LocalStep(o, old(s.View(now)), t, pc)
  {
    match pc {
      case Snapped(c, rt, ep) =>
        if rt != "" {
          return Calling(c, rt, ep);
        }
        s.NoteMissingRefresh();
        next := Unlocking(c, Fail(NeedsReauth));
      case Got(c, tr, e) =>
        var out := s.StoreTokens(tr, e);
        next := Unlocking(c, out);
      case Failed(c, verdict, message) =>
        match verdict {
          case ReauthVerdict =>
            s.WipeTokens(ReauthRequired, message);
            next := Unlocking(c, Fail(NeedsReauth));
          case TierVerdict =>
            s.WipeTokens(TierDenied, message);
            next := Unlocking(c, Fail(DeniedTier));
          case TransientVerdict =>
            var out := s.NoteTransient(message, now);
            next := Unlocking(c, out);
        }
    }
  }

  /** opMu, and the end of singleflight.Do. */
  method AdvanceReleasing(o: Oracle, s: SessionObject, t: nat, pc: PC, now: int) returns (next: PC)
    requires CanRun(s.View(now), pc)
    requires pc.Lead? || pc.Unlocking? || pc.Publishing? || pc.Removing?
    modifies s`opMu, s`m, s`calls
    ensures (s.View(now), next) == LocalStep(o, old(s.View(now)), t, pc)
  {
    match pc {
      case Lead(c) =>
        s.LockOp(t);
        next := Locked(c);
      case Unlocking(c, out) =>
        s.UnlockOp();
        next := Publishing(c, out);
      case Publishing(c, out) =>
        if c < |s.calls| {
          s.Publish(c, out);
        }
        next := Removing(c, out);
      case Removing(_, out) =>
        s.Forget();
        next := GetDone(out);
    }
  }

  /** handleHandoff and handleLogout. */
  method AdvanceDraining(o: Oracle, s: SessionObject, t: nat, pc: PC, now: int) returns (next: PC)
    requires CanRun(s.View(now), pc)
    requires pc.DrainEnter? || pc.DrainLocked? || pc.DrainUnlocking? || pc.Restoring? || pc.ClearEnter?
    modifies s`accessToken, s`refreshToken, s`tokenEndpoint, s`expiresAt, s`hasExpiry, s`state, s`lastError, s`opMu
    ensures (s.View(now), next) == LocalStep(o, old(s.View(now)), t, pc)
  {
    match pc {
      case DrainEnter =>
        s.LockOp(t);
        next := DrainLocked;
      case DrainLocked =>
        var d, found := s.Drain();
        next := DrainUnlocking(d, found);
      case DrainUnlocking(d, found) =>
        s.UnlockOp();
        next := if d.Some? then Delivering(d.value) else HandoffDone(Conflict(found));
      case Restoring(d) =>
        s.RestoreHandoff(Some(d));
        next := HandoffDone(RolledBack);
      case ClearEnter =>
        s.Clear();
        next := ClearDone;
    }
  }

  /** Whatever the shared state, and wherever the caller stands, the region of the object that comes
      next for it does exactly the step of the interleaving. */
  method Advance(o: Oracle, s: SessionObject, t: nat, pc: PC, now: int) returns (next: PC)
    requires CanRun(s.View(now), pc)
    modifies s
    ensures (s.View(now), next) == LocalStep(o, old(s.View(now)), t, pc)
  {
    if pc.GetEnter? || pc.GetMissed? || pc.Wait? || pc.Locked? || pc.Replied? {
      next := AdvanceLooking(o, s, t, pc, now);
    } else if pc.Snapped? || pc.Got? || pc.Failed? {
      next := AdvanceRefreshing(o, s, t, pc, now);
    } else if pc.Lead? || pc.Unlocking? || pc.Publishing? || pc.Removing? {
      next := AdvanceReleasing(o, s, t, pc, now);
    } else {
      next := AdvanceDraining(o, s, t, pc, now);
    }
  }

  /** Any run, played on an object that starts from the session of its login: callers, clock, IdP and
      network take turns as the run says, and the object ends up, with all callers, in the last state
      of the run, invariant included. */
  method Play(o: Oracle, ghost tr: Trace, acts: seq<Action>, s: SessionObject, start: int)
    returns (threads: seq<PC>, now: int)
    requires IsRun(o, tr) && acts == tr.acts && s.View(start) == tr.states[0].sh
    modifies s
    ensures Machine(s.View(now), threads) == tr.states[|acts|]
    ensures Inv(o, Machine(s.View(now), threads))
  {
    threads, now := [], start;
    for i := 0 to |acts|
      invariant Machine(s.View(now), threads) == tr.states[i]
    {
      assert Step(o, tr.states[i], acts[i], tr.states[i + 1]);
      match acts[i] {
        case Spawn(op) =>
          threads := threads + [Entry(op)];
        case Tick(elapsed) =>
          now := now + elapsed;
        case Run(t) =>
          var next := Advance(o, s, t, threads[t], now);
          threads := threads[t := next];
        case Answer(t, answer) =>
          var pc := threads[t];
          threads := threads[t := Replied(pc.c, pc.rt, pc.ep, answer)];
        case Deliver(t, written) =>
          var d := threads[t].snapshot;
          threads := threads[t := if written then HandoffDone(Delivered(d)) else Restoring(d)];
      }
    }
    RunInv(o, tr, |acts|);
  }

  // ----- a call that runs alone

  /** What a lone call meets: the time of its second look, the time its IdP call is over, and the
      answer. */
  datatype Weather = Weather(secondLook: int, back: int, answer: IdpAnswer)

  /** Caller t, standing at pc, runs to its end with nobody else about. Time passes before opMu is
      locked and while the IdP works. */
  function Alone(o: Oracle, sh: Shared, t: nat, pc: PC, w: Weather): (Shared, PC)
    decreases Rank(pc)
  {
    if pc.Calling? then
      Alone(o, sh.(now := w.back), t, Replied(pc.c, pc.rt, pc.ep, w.answer), w)
    else if CanRun(sh, pc) then
      var at := if pc.Lead? then sh.(now := w.secondLook) else sh;
      var (sh', pc') := LocalStep(o, at, t, pc);
      RankDrops(o, at, t, pc);
      Alone(o, sh', t, pc', w)
    else (sh, pc)
  }

  /** The caller holds opMu and leads call c, which is in the map. */
  ghost predicate InCharge(sh: Shared, t: nat, c: nat) {
    sh.opMu == Some(t) && sh.entry == Some(c) && c < |sh.calls|
  }

  /** Everything let go of, and the call object filled in. */
  function Released(sh: Shared, c: nat, out: Outcome): Shared {
    sh.(opMu := None, entry := None, calls := Finish(sh.calls, c, out))
  }

  lemma ClosesAlone(o: Oracle, sh: Shared, t: nat, c: nat, out: Outcome, w: Weather)
    requires InCharge(sh, t, c)
    ensures Alone(o, sh, t, Unlocking(c, out), w) == (Released(sh, c, out), GetDone(out))
  {
    var sh1 := sh.(opMu := None);
    assert LocalStep(o, sh, t, Unlocking(c, out)) == (sh1, Publishing(c, out));
    PublishesAlone(o, sh1, t, c, out, w);
  }

  lemma PublishesAlone(o: Oracle, sh: Shared, t: nat, c: nat, out: Outcome, w: Weather)
    requires sh.opMu == None && sh.entry == Some(c) && c < |sh.calls|
    ensures Alone(o, sh, t, Publishing(c, out), w) == (Released(sh, c, out), GetDone(out))
  {
    var sh1 := sh.(calls := Finish(sh.calls, c, out));
    assert LocalStep(o, sh, t, Publishing(c, out)) == (sh1, Removing(c, out));
    var sh2 := sh1.(entry := None);
    assert LocalStep(o, sh1, t, Removing(c, out)) == (sh2, GetDone(out));
    assert Alone(o, sh2, t, GetDone(out), w) == (sh2, GetDone(out));
    assert Alone(o, sh1, t, Removing(c, out), w) == (sh2, GetDone(out));
  }

  /** One step that settles the call, then the closing ones. */
  lemma SettlesAlone(o: Oracle, sh: Shared, t: nat, pc: PC, c: nat, s: Session, out: Outcome, w: Weather)
    requires InCharge(sh, t, c)
    requires !pc.Calling? && !pc.Lead? && CanRun(sh, pc)
    requires LocalStep(o, sh, t, pc) == (sh.(session := s), Unlocking(c, out))
    ensures Alone(o, sh, t, pc, w) == (Released(sh.(session := s), c, out), GetDone(out))
  {
    ClosesAlone(o, sh.(session := s), t, c, out, w);
  }

  lemma ReplySettlesAlone(o: Oracle, sh: Shared, t: nat, c: nat, rt: string, ep: string, w: Weather)
    requires InCharge(sh, t, c)
    requires sh.session.state.Ready?
    requires sh.session.creds.refreshToken == rt != "" && sh.session.creds.tokenEndpoint == ep
    requires !Fresh(sh.session.creds, w.secondLook) && sh.now == w.back
    ensures var (s, out) := SoloRefresh(o, sh.session, w.secondLook, w.back, w.answer);
            Alone(o, sh, t, Replied(c, rt, ep, w.answer), w) == (Released(sh.(session := s), c, out), GetDone(out))
  {
    var pc := Replied(c, rt, ep, w.answer);
    var next := AfterReply(o, pc, sh.now);
    var (s, out) := SoloRefresh(o, sh.session, w.secondLook, w.back, w.answer);
    assert LocalStep(o, sh, t, pc) == (sh, next);
    if w.answer.Panicked? {
      ClosesAlone(o, sh, t, c, out, w);
    } else {
      assert LocalStep(o, sh, t, next) == (sh.(session := s), Unlocking(c, out));
      SettlesAlone(o, sh, t, next, c, s, out, w);
    }
  }

  lemma RefreshesAlone(o: Oracle, sh: Shared, t: nat, c: nat, w: Weather)
    requires InCharge(sh, t, c) && sh.now == w.secondLook
    ensures var (s, out) := SoloRefresh(o, sh.session, w.secondLook, w.back, w.answer);
            var (sh', pc') := Alone(o, sh, t, Locked(c), w);
            sh'.(now := sh.now) == Released(sh.(session := s), c, out) && pc' == GetDone(out)
  {
    var s := sh.session;
    var gate := CheckGate(s, sh.now);
    var rt, ep := s.creds.refreshToken, s.creds.tokenEndpoint;
    assert LocalStep(o, sh, t, Locked(c)) == (sh, AfterSecondLook(gate, c, s.creds));
    if gate != Miss {
      ClosesAlone(o, sh, t, c, if gate.Hit? then Token(gate.token) else Fail(gate.failure), w);
    } else if rt == "" {
      SettlesAlone(o, sh, t, Snapped(c, rt, ep), c, MissingRefresh(s), Fail(NeedsReauth), w);
    } else {
      assert LocalStep(o, sh, t, Snapped(c, rt, ep)) == (sh, Calling(c, rt, ep));
      var late := sh.(now := w.back);
      ReplySettlesAlone(o, late, t, c, rt, ep, w);
      assert Alone(o, sh, t, Calling(c, rt, ep), w) == Alone(o, late, t, Replied(c, rt, ep, w.answer), w);
      assert Alone(o, sh, t, Snapped(c, rt, ep), w) == Alone(o, sh, t, Calling(c, rt, ep), w);
    }
  }

  /** Run alone from a session that nobody is busy with, GetAccessToken in the interleaving ends with
      the session and the outcome of SoloGet, opMu and the singleflight entry free again, and every
      call object filled in. */
  lemma LoneCallIsSoloGet(o: Oracle, sh: Shared, t: nat, w: Weather)
    requires sh.opMu.None? && sh.entry.None?
    ensures var (s, out) := SoloGet(o, sh.session, sh.now, w.secondLook, w.back, w.answer);
            var (sh', pc') := Alone(o, sh, t, GetEnter, w);
            && pc' == GetDone(out)
            && sh'.session == s && sh'.opMu.None? && sh'.entry.None?
            && (sh'.calls == sh.calls || sh'.calls == sh.calls + [Call(t, Some(out))])
  {
    var gate := CheckGate(sh.session, sh.now);
    assert LocalStep(o, sh, t, GetEnter) == (sh, AfterFirstLook(gate));
    if gate == Miss {
      var (sh1, pc1) := JoinFlight(sh, t);
      assert LocalStep(o, sh, t, GetMissed) == (sh1, pc1);
      LeadsAlone(o, sh1, t, |sh.calls|, w);
    }
  }

  lemma LeadsAlone(o: Oracle, sh: Shared, t: nat, c: nat, w: Weather)
    requires sh.opMu.None? && sh.entry == Some(c) && c < |sh.calls|
    ensures var (s, out) := SoloRefresh(o, sh.session, w.secondLook, w.back, w.answer);
            var (sh', pc') := Alone(o, sh, t, Lead(c), w);
            && pc' == GetDone(out)
            && sh'.session == s && sh'.opMu.None? && sh'.entry.None? && sh'.calls == Finish(sh.calls, c, out)
  {
    var at := sh.(now := w.secondLook);
    var locked := at.(opMu := Some(t));
    assert LocalStep(o, at, t, Lead(c)) == (locked, Locked(c));
    RefreshesAlone(o, locked, t, c, w);
  }
}
