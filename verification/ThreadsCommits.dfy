/** One commit in every interleaving: exactly when its effect is there to stay. */
module ThreadsCommits {
  import opened Threads
  import opened ThreadsTicks
  import opened ThreadsBounds
  import opened ThreadsProgress

  // The stored state contains the effect of commit j.
  ghost predicate Contains(w: World, j: nat) {
    var h := w.shared.history;
    WellFormed(h) && j < |h| && Survives(h, |h|, j)
  }

  // A tick between its snapshot and its commit whose snapshot does not contain the commit.
  ghost predicate Overlooks(h: seq<Commit>, th: Thread, j: nat)
    requires WellFormed(h)
  {
    HasSnapshot(th) && (th.loc.base > |h| || !Survives(h, th.loc.base, j))
  }

  // After a crash nobody commits any more.
  ghost predicate Kept(w: World, j: nat) {
    Contains(w, j) && (w.crashed || forall t :: 0 <= t < |w.threads| ==> !Overlooks(w.shared.history, w.threads[t], j))
  }

  lemma {:induction false} LaterCommitsChangeNoChain(h: seq<Commit>, h': seq<Commit>, i: nat)
    requires WellFormed(h) && WellFormed(h') && h <= h' && i <= |h|
    ensures Chained(h', i) == Chained(h, i)
  {
    if i != 0 {
      LaterCommitsChangeNoChain(h, h', h[i - 1].parent);
    }
  }

  // A chain that ends in a new commit is that of its snapshot and the commit itself.
  lemma NewChain(h: seq<Commit>, h': seq<Commit>, j: nat)
    requires WellFormed(h) && WellFormed(h') && h <= h' && |h| < |h'| && j < |h| && h'[|h'| - 1].parent <= |h|
    ensures Survives(h', |h'|, j) <==> Survives(h, h'[|h'| - 1].parent, j)
  {
    LaterCommitsChangeNoChain(h, h', h'[|h'| - 1].parent);
  }

  // ---------------------------------------------------------------- a kept commit stays

  // The statement commits, takes a snapshot, or leaves history and snapshot alone.
  lemma StatementOnHistory(l: Label, s: Shared, loc: Locals, addr: nat)
    requires Code(l).Do? && !Faults(l, s, loc)
    ensures l != InTick(TickCommit) ==> SharedEffect(l, s, loc, addr).history == s.history
    ensures l == InTick(TickCommit) ==> SharedEffect(l, s, loc, addr).history == s.history + [Commit(loc.base, loc.delta, loc.work)]
    ensures var next := At(Code(l).next, LocalEffect(l, s, loc, addr));
            HasSnapshot(next) ==> if l == InTick(TickSnapshot) then next.loc.base == |s.history|
                                  else HasSnapshot(At(l, loc)) && next.loc.base == loc.base
  {
  }

  lemma ControlOnSnapshot(l: Label, loc: Locals)
    ensures match Code(l)
            case Lock(_, next) => HasSnapshot(At(next, loc)) ==> HasSnapshot(At(l, loc))
            case Unlock(_, next) => HasSnapshot(At(next, loc)) ==> HasSnapshot(At(l, loc))
            case Branch(yes, no) => !HasSnapshot(At(yes, loc)) && !HasSnapshot(At(no, loc))
            case Signal(next) => !HasSnapshot(At(next, loc))
            case _ => true
  {
  }

  lemma CommitKeepsKept(w: World, t: nat, m: Move, j: nat)
    requires Kept(w, j) && Enabled(w, t, m) && !Next(w, t, m).crashed && WellFormed(Next(w, t, m).shared.history)
    requires w.threads[t].At? && w.threads[t].pc == InTick(TickCommit)
    ensures Kept(Next(w, t, m), j)
  {
    var w', th, h := Next(w, t, m), w.threads[t], w.shared.history;
    var h' := w'.shared.history;
    StatementOnHistory(th.pc, w.shared, th.loc, m.index);
    assert !Overlooks(h, th, j);
    NewChain(h, h', j);
    forall u | 0 <= u < |w'.threads| ensures !Overlooks(h', w'.threads[u], j) {
      if HasSnapshot(w'.threads[u]) {
        assert u != t && !Overlooks(h, w.threads[u], j);
        LaterCommitsChangeNoChain(h, h', w.threads[u].loc.base);
      }
    }
  }

  lemma StepKeepsKept(w: World, t: nat, m: Move, j: nat)
    requires Kept(w, j) && Enabled(w, t, m) && WellFormed(Next(w, t, m).shared.history)
    ensures Kept(Next(w, t, m), j)
  {
    var w', th := Next(w, t, m), w.threads[t];
    if th.At? && !w'.crashed {
      assert !Overlooks(w.shared.history, th, j);
      ControlOnSnapshot(th.pc, th.loc);
      if th.pc == InTick(TickCommit) {
        CommitKeepsKept(w, t, m, j);
      } else if Code(th.pc).Do? {
        StatementOnHistory(th.pc, w.shared, th.loc, m.index);
      }
    }
  }

  lemma {:induction false} KeptStays(threads: nat, turns: seq<Turn>, more: seq<Turn>, j: nat)
    requires Kept(After(threads, turns), j)
    ensures Kept(After(threads, turns + more), j)
  {
    if more == [] {
      assert turns + more == turns;
    } else {
      var before, turn := more[..|more| - 1], more[|more| - 1];
      KeptStays(threads, turns, before, j);
      assert (turns + more)[..|turns + more| - 1] == turns + before && (turns + more)[|turns + more| - 1] == turn;
      if Enabled(After(threads, turns + before), turn.thread, turn.move) {
        ReachableTicksInv(threads, turns + more, 1, false);
        StepKeepsKept(After(threads, turns + before), turn.thread, turn.move, j);
      }
    }
  }

  // ---------------------------------------------------------------- an overlooked commit can be lost

  // The inputs were allocated before the first commit.
  ghost predicate AllocatedInv(w: World) {
    && (w.shared.history != [] ==> w.shared.lastInputs.Some?)
    && forall t :: 0 <= t < |w.threads| && w.threads[t].At? && HasDelta(w.threads[t].pc) ==> w.shared.lastInputs.Some?
  }

  lemma StatementKeepsAllocated(l: Label, s: Shared, loc: Locals, addr: nat)
    requires Code(l).Do? && !Faults(l, s, loc) && (s.history != [] || HasDelta(l) ==> s.lastInputs.Some?)
    ensures var s' := SharedEffect(l, s, loc, addr);
            (s.lastInputs.Some? || s'.history != [] || HasDelta(Code(l).next)) ==> s'.lastInputs.Some?
  {
  }

  lemma ControlKeepsDelta(l: Label)
    ensures match Code(l)
            case Lock(_, next) => HasDelta(next) ==> HasDelta(l)
            case Unlock(_, next) => HasDelta(next) ==> HasDelta(l)
            case Branch(yes, no) => !HasDelta(yes) && !HasDelta(no)
            case Signal(next) => !HasDelta(next)
            case _ => true
  {
  }

  lemma {:induction false} ReachableAllocated(threads: nat, turns: seq<Turn>)
    ensures AllocatedInv(After(threads, turns))
  {
    if turns != [] {
      ReachableAllocated(threads, turns[..|turns| - 1]);
      var w, turn := After(threads, turns[..|turns| - 1]), turns[|turns| - 1];
      if Enabled(w, turn.thread, turn.move) {
        StepKeepsAllocated(w, turn.thread, turn.move);
      }
    }
  }

  lemma StepKeepsAllocated(w: World, t: nat, m: Move)
    requires AllocatedInv(w) && Enabled(w, t, m)
    ensures AllocatedInv(Next(w, t, m))
  {
    var th := w.threads[t];
    if th.At? {
      ControlKeepsDelta(th.pc);
      if Code(th.pc).Do? && !Faults(th.pc, w.shared, th.loc) {
        StatementKeepsAllocated(th.pc, w.shared, th.loc, m.index);
      }
    }
  }

  // The tick that overlooks it, run to its commit, takes its effect away.
  lemma LoseCommit(threads: nat, turns: seq<Turn>, t: nat, j: nat) returns (more: seq<Turn>)
    requires t < threads && Contains(After(threads, turns), j) && Overlooks(After(threads, turns).shared.history, After(threads, turns).threads[t], j)
    requires Running(After(threads, turns))
    ensures !Contains(After(threads, turns + more), j)
  {
    more := RunToCommit(threads, turns, t);
    ReachableTicksInv(threads, turns, 1, false);
    ReachableTicksInv(threads, turns + more, 1, false);
    assert ThreadTicks(After(threads, turns).shared.history, After(threads, turns).threads[t], 1, false);
    NewChain(After(threads, turns).shared.history, After(threads, turns + more).shared.history, j);
  }

  // The effect of a commit is there in every continuation of a run exactly when it is there now
  // and no tick between its snapshot and its commit overlooks it.
  lemma {:induction false} CommitStaysIffKept(threads: nat, turns: seq<Turn>, j: nat)
    ensures (forall more: seq<Turn> :: Contains(After(threads, turns + more), j)) <==> Kept(After(threads, turns), j)
  {
    var w := After(threads, turns);
    if Kept(w, j) {
      forall more: seq<Turn> ensures Contains(After(threads, turns + more), j) {
        KeptStays(threads, turns, more, j);
      }
    } else {
      assert turns + [] == turns;
      if Contains(w, j) {
        var t :| 0 <= t < |w.threads| && Overlooks(w.shared.history, w.threads[t], j);
        ReachableAllocated(threads, turns);
        var more := LoseCommit(threads, turns, t, j);
        assert !Contains(After(threads, turns + more), j);
      } else {
        assert !Contains(After(threads, turns + []), j);
      }
    }
  }
}
