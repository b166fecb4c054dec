/**
 * The mark that a slave exists, in every interleaving: a tick whose snapshot is older than the
 * mark erases it when it commits. Exactly when a mark is there to stay.
 */
module ThreadsMarks {
  import opened Protocol
  import opened Client
  import opened Threads
  import opened ThreadsProgress
  import opened ThreadsRuns

  // Position n exists in the stored state.
  predicate Marked(w: World, n: nat)
    requires 1 <= n <= 4
  {
    w.shared.gameState.Some? && Exists(w.shared.gameState.value, n)
  }

  // A tick between its snapshot and its commit whose working copy lacks the mark.
  predicate Misses(th: Thread, n: nat)
    requires 1 <= n <= 4
  {
    HasSnapshot(th) && !Exists(th.loc.work, n)
  }

  // After a crash nobody commits any more.
  ghost predicate Settled(w: World, n: nat)
    requires 1 <= n <= 4
  {
    Marked(w, n) && (w.crashed || forall t :: 0 <= t < |w.threads| ==> !Misses(w.threads[t], n))
  }

  // ---------------------------------------------------------------- a settled mark stays

  lemma StatementKeepsMark(l: Label, s: Shared, loc: Locals, addr: nat, n: nat)
    requires 1 <= n <= 4 && s.gameState.Some? && Exists(s.gameState.value, n) && !Misses(At(l, loc), n)
    requires Code(l).Do? && !Faults(l, s, loc)
    ensures var s' := SharedEffect(l, s, loc, addr); s'.gameState.Some? && Exists(s'.gameState.value, n)
    ensures !Misses(At(Code(l).next, LocalEffect(l, s, loc, addr)), n)
  {
  }

  lemma ControlKeepsMark(l: Label, loc: Locals, n: nat)
    requires 1 <= n <= 4 && !Misses(At(l, loc), n)
    ensures match Code(l)
            case Lock(_, next) => !Misses(At(next, loc), n)
            case Unlock(_, next) => !Misses(At(next, loc), n)
            case Branch(yes, no) => !Misses(At(yes, loc), n) && !Misses(At(no, loc), n)
            case _ => true
  {
  }

  lemma StepKeepsSettled(w: World, t: nat, m: Move, n: nat)
    requires 1 <= n <= 4 && Settled(w, n) && Enabled(w, t, m)
    ensures Settled(Next(w, t, m), n)
  {
    var th := w.threads[t];
    assert !Misses(th, n);
    if th.At? {
      ControlKeepsMark(th.pc, th.loc, n);
      if Code(th.pc).Do? && !Faults(th.pc, w.shared, th.loc) {
        StatementKeepsMark(th.pc, w.shared, th.loc, m.index, n);
      }
    }
  }

  lemma {:induction false} SettledStays(threads: nat, turns: seq<Turn>, more: seq<Turn>, n: nat)
    requires 1 <= n <= 4 && Settled(After(threads, turns), n)
    ensures Settled(After(threads, turns + more), n)
  {
    if more == [] {
      assert turns + more == turns;
    } else {
      var before, turn := more[..|more| - 1], more[|more| - 1];
      SettledStays(threads, turns, before, n);
      assert (turns + more)[..|turns + more| - 1] == turns + before && (turns + more)[|turns + more| - 1] == turn;
      if Enabled(After(threads, turns + before), turn.thread, turn.move) {
        StepKeepsSettled(After(threads, turns + before), turn.thread, turn.move, n);
      }
    }
  }

  // ---------------------------------------------------------------- an unsettled mark can be erased

  // Once the inputs are allocated, the mark of a slave is there in every continuation of a run
  // exactly when it is there now and no tick between its snapshot and its commit misses it.
  lemma {:induction false} MarkStaysIffSettled(threads: nat, turns: seq<Turn>, n: nat)
    requires 2 <= n <= 4 && After(threads, turns).shared.lastInputs.Some?
    ensures (forall more: seq<Turn> :: Marked(After(threads, turns + more), n)) <==> Settled(After(threads, turns), n)
  {
    var w := After(threads, turns);
    if Settled(w, n) {
      forall more: seq<Turn> ensures Marked(After(threads, turns + more), n) {
        SettledStays(threads, turns, more, n);
      }
    } else {
      assert turns + [] == turns;
      if Marked(w, n) {
        var t :| 0 <= t < |w.threads| && Misses(w.threads[t], n);
        var more := RunToCommit(threads, turns, t);
        assert !Marked(After(threads, turns + more), n);
      } else {
        assert !Marked(After(threads, turns + []), n);
      }
    }
  }

  // A run in which it happens: the news of slave 1 arrives while a tick is under way, position 2
  // is marked, and the commit takes the mark away.
  lemma NewsDuringTickIsLost(input: UserInput) returns (turns: seq<Turn>, more: seq<Turn>)
    ensures Marked(After(3, turns), 2) && !Marked(After(3, turns + more), 2)
  {
    var threads, loc;
    turns, threads := InitialiseThree();
    turns := Start(3, turns, threads, 0, InTick(TickLockUi), TickArgs(input), MASTER_READY);
    turns, loc := ReachSnapshot(3, turns, threads, 0, TickArgs(input), MASTER_READY);
    threads := threads[0 := At(InTick(TickOwnInput), loc)];
    assert Misses(threads[0], 2);
    turns := NewsArrives(3, turns, threads, 1, UserInfo(1, false), MASTER_READY);
    more := RunToCommit(3, turns, 0);
  }
}
