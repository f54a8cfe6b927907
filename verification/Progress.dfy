/** Deadlock freedom and termination: as long as the IdP answers or panics and responses get
    written or fail, some caller can always move, and only boundedly often. */
module Progress {
  import opened Tokens
  import opened Interleaving
  import opened Invariant

  /** An upper bound on the steps a caller still has before it. */
  function Rank(pc: PC): nat {
    match pc
    case GetEnter => 12
    case GetMissed => 11
    case Lead(_) => 10
    case Locked(_) => 9
    case Snapped(_, _, _) => 8
    case Calling(_, _, _) => 7
    case Replied(_, _, _, _) => 6
    case Got(_, _, _) => 5
    case Failed(_, _, _) => 5
    case Unlocking(_, _) => 4
    case Publishing(_, _) => 3
    case Removing(_, _) => 2
    case Wait(_) => 1
    case DrainEnter => 5
    case DrainLocked => 4
    case DrainUnlocking(_, _) => 3
    case Delivering(_) => 2
    case Restoring(_) => 1
    case ClearEnter => 1
    case _ => 0
  }

  function Work(threads: seq<PC>): nat {
    if threads == [] then 0 else Rank(threads[0]) + Work(threads[1..])
  }

  lemma {:induction false} WorkAfterUpdate(threads: seq<PC>, t: nat, pc: PC)
    requires t < |threads|
    ensures Work(threads[t := pc]) == Work(threads) - Rank(threads[t]) + Rank(pc)
  {
    var after := threads[t := pc];
    if t == 0 {
      assert after[1..] == threads[1..];
    } else {
      assert after[1..] == threads[1..][t - 1 := pc];
      WorkAfterUpdate(threads[1..], t - 1, pc);
    }
  }

  /** A caller takes a step, by itself or moved by the IdP or the network. */
  predicate Moves(a: Action) {
    a.Run? || a.Answer? || a.Deliver?
  }

  lemma RankDrops(o: Oracle, sh: Shared, t: nat, pc: PC)
    requires CanRun(sh, pc)
    ensures Rank(LocalStep(o, sh, t, pc).1) < Rank(pc)
  {
  }

  lemma MovesDecreaseWork(o: Oracle, m: Machine, a: Action, m': Machine)
    requires Step(o, m, a, m') && !a.Spawn?
    ensures Moves(a) ==> Work(m'.threads) < Work(m.threads)
    ensures !Moves(a) ==> m'.threads == m.threads
  {
    if Moves(a) {
      if a.Run? {
        RankDrops(o, m.sh, a.t, m.threads[a.t]);
      }
      WorkAfterUpdate(m.threads, a.t, m'.threads[a.t]);
    }
  }

  /** How often callers move between two points of a run. */
  ghost function MovesBetween(tr: Trace, i: nat, j: nat): nat
    requires i <= j <= |tr.acts|
  {
    if i == j then 0 else MovesBetween(tr, i, j - 1) + if Moves(tr.acts[j - 1]) then 1 else 0
  }

  lemma MovesOfRunDecreaseWork(o: Oracle, tr: Trace, i: nat)
    requires IsRun(o, tr) && i < |tr.acts| && !tr.acts[i].Spawn?
    ensures Work(tr.states[i + 1].threads) + (if Moves(tr.acts[i]) then 1 else 0) <= Work(tr.states[i].threads)
  {
    MovesDecreaseWork(o, tr.states[i], tr.acts[i], tr.states[i + 1]);
  }

  /** Termination: from any point of a run on, if nobody new arrives, callers move at most as often
      as the work they had left. */
  lemma {:induction false} MovesAreBounded(o: Oracle, tr: Trace, i: nat, j: nat)
    requires IsRun(o, tr) && i <= j < |tr.states|
    requires forall k :: i <= k < j ==> !tr.acts[k].Spawn?
    ensures MovesBetween(tr, i, j) + Work(tr.states[j].threads) <= Work(tr.states[i].threads)
  {
    if i < j {
      MovesAreBounded(o, tr, i, j - 1);
      MovesOfRunDecreaseWork(o, tr, j - 1);
    }
  }

  /** Whoever stands between lock and unlock of opMu is never blocked. */
  lemma HolderMoves(m: Machine, h: nat) returns (a: Action)
    requires h < |m.threads| && HoldsOp(m.threads[h])
    ensures Moves(a) && Enabled(m, a)
  {
    a := if m.threads[h].Calling? then Answer(h, Panicked) else Run(h);
  }

  lemma LockWaiterOrHolderMoves(o: Oracle, m: Machine, t: nat) returns (a: Action)
    requires Inv(o, m) && t < |m.threads|
    requires !Done(m.threads[t]) && !m.threads[t].Wait?
    ensures Moves(a) && Enabled(m, a)
  {
    var pc := m.threads[t];
    if (pc.Lead? || pc.DrainEnter?) && m.sh.opMu.Some? {
      var h := m.sh.opMu.value;
      assert ThreadOK(o, m.sh, h, m.threads[h]);
      a := HolderMoves(m, h);
    } else {
      a := if pc.Calling? then Answer(t, Panicked) else if pc.Delivering? then Deliver(t, true) else Run(t);
    }
  }

  /** Deadlock freedom: while some caller is not finished, some caller can move. */
  lemma SomeoneMoves(o: Oracle, m: Machine, t: nat) returns (a: Action)
    requires Inv(o, m) && t < |m.threads| && !Done(m.threads[t])
    ensures Moves(a) && Enabled(m, a)
  {
    var pc := m.threads[t];
    assert ThreadOK(o, m.sh, t, pc);
    if pc.Wait? && m.sh.calls[pc.c].result.None? {
      // the call is still in the map, so its leader is still on its way
      a := LockWaiterOrHolderMoves(o, m, m.sh.calls[pc.c].leader);
    } else if pc.Wait? {
      a := Run(t);
    } else {
      a := LockWaiterOrHolderMoves(o, m, t);
    }
  }

  /** Where a run can go no further, every caller has returned, waiters included, and opMu and the
      singleflight entry are free, even if refreshes panicked on the way. */
  lemma StuckMeansFinished(o: Oracle, tr: Trace, i: nat)
    requires IsRun(o, tr) && i < |tr.states|
    requires forall a :: Moves(a) ==> !Enabled(tr.states[i], a)
    ensures forall t :: 0 <= t < |tr.states[i].threads| ==> Done(tr.states[i].threads[t])
    ensures tr.states[i].sh.opMu.None? && tr.states[i].sh.entry.None?
  {
    var m := tr.states[i];
    RunInv(o, tr, i);
    assert m.sh.opMu.Some? ==> HoldsOp(m.threads[m.sh.opMu.value]) by {
      if m.sh.opMu.Some? {
        assert ThreadOK(o, m.sh, m.sh.opMu.value, m.threads[m.sh.opMu.value]);
      }
    }
    forall t | 0 <= t < |m.threads| ensures Done(m.threads[t]) {
      if !Done(m.threads[t]) {
        var a := SomeoneMoves(o, m, t);
      }
    }
  }
}
