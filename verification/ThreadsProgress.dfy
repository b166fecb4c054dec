/**
 * Progress: once the inputs are allocated, a tick between its snapshot and its commit can be run
 * to its commit from every reachable state that has not crashed.
 */
module ThreadsProgress {
  import opened Base
  import opened Protocol
  import opened Client
  import opened Threads
  import opened ThreadsLocking
  import opened ThreadsTicks
  import opened ThreadsFaults

  // ---------------------------------------------------------------- freeing a mutex

  // How many statements a critical section outside the queue still has.
  function Remaining(l: Label): nat {
    match Code(l)
    case Unlock(_, _) => 1
    case Do(_) => 2
    case _ => 3
  }

  lemma TestsEnd(l: Label)
    requires !l.InQueue? && HeldAt(l).Some? && Code(l).Branch?
    ensures !Code(l).yes.InQueue? && HeldAt(Code(l).yes) == HeldAt(l) && Remaining(Code(l).yes) < Remaining(l)
    ensures !Code(l).no.InQueue? && HeldAt(Code(l).no) == HeldAt(l) && Remaining(Code(l).no) < Remaining(l)
  {
  }

  lemma StatementsEnd(l: Label)
    requires !l.InQueue? && HeldAt(l).Some? && Code(l).Do?
    ensures !Code(l).next.InQueue? && HeldAt(Code(l).next) == HeldAt(l) && Remaining(Code(l).next) < Remaining(l)
  {
  }

  lemma SectionsEnd(l: Label)
    requires !l.InQueue? && HeldAt(l).Some?
    ensures match Code(l)
            case Unlock(x, next) => HeldAt(l) == Some(x)
            case Do(next) => !next.InQueue? && HeldAt(next) == HeldAt(l) && Remaining(next) < Remaining(l)
            case Branch(yes, no) =>
              && !yes.InQueue? && HeldAt(yes) == HeldAt(l) && Remaining(yes) < Remaining(l)
              && !no.InQueue? && HeldAt(no) == HeldAt(l) && Remaining(no) < Remaining(l)
            case _ => false
  {
    EveryPathBalances(l);
    match Code(l) {
      case Branch(_, _) => TestsEnd(l);
      case Do(_) => StatementsEnd(l);
      case _ =>
    }
  }

  lemma QueueHoldsItsOwn(l: Label)
    requires HeldAt(l).Some? && HeldAt(l) != Some(QueueMutex)
    ensures !l.InQueue?
  {
  }

  lemma HoldersNeedNoPeer(l: Label)
    requires HeldAt(l).Some?
    ensures !NeedsPeer(l) && !Sends(l)
  {
  }

  // What the shared data keeps on the way.
  ghost predicate Running(w: World) {
    !w.crashed && w.shared.lastInputs.Some?
  }

  lemma StepsKeepRunning(w: World, t: nat, m: Move)
    requires Running(w) && Enabled(w, t, m)
    requires w.threads[t].At? ==> !Faults(w.threads[t].pc, w.shared, w.threads[t].loc)
    ensures Running(Next(w, t, m)) && w.shared.history <= Next(w, t, m).shared.history
  {
  }

  // A thread inside a critical section other than the queue's comes closer to its end with each
  // statement.
  lemma SectionGoesOn(w: World, t: nat, m: Move, x: Mutex)
    requires LockInv(w) && x in w.owner && w.owner[x] == t && x != QueueMutex && Enabled(w, t, m)
    requires w.threads[t].At? && !Faults(w.threads[t].pc, w.shared, w.threads[t].loc)
    ensures var w' := Next(w, t, m);
            && (x in w'.owner ==> w'.owner[x] == t && w'.threads[t].At? && Remaining(w'.threads[t].pc) < Remaining(w.threads[t].pc))
            && forall u :: 0 <= u < |w.threads| && u != t ==> w'.threads[u] == w.threads[u]
  {
    QueueHoldsItsOwn(w.threads[t].pc);
    SectionsEnd(w.threads[t].pc);
  }

  lemma OwnerGoesOn(threads: nat, turns: seq<Turn>, x: Mutex) returns (m: Move)
    requires x != QueueMutex && x in After(threads, turns).owner && Running(After(threads, turns))
    ensures var w := After(threads, turns);
            && w.owner[x] < threads && w.threads[w.owner[x]].At? && Enabled(w, w.owner[x], m)
            && !Faults(w.threads[w.owner[x]].pc, w.shared, w.threads[w.owner[x]].loc)
  {
    ReachableLockInv(threads, turns);
    var w := After(threads, turns);
    HoldersNeedNoPeer(w.threads[w.owner[x]].pc);
    FaultsExactly(threads, turns, w.owner[x]);
    m := OwnerCanRun(w, x);
  }

  // The owner of a mutex can be run until it releases it, without touching thread t.
  lemma {:induction false} FreeMutex(threads: nat, turns: seq<Turn>, x: Mutex, t: nat) returns (more: seq<Turn>)
    requires t < threads && x != QueueMutex && Running(After(threads, turns))
    requires x in After(threads, turns).owner ==> After(threads, turns).owner[x] != t
    ensures var w, w' := After(threads, turns), After(threads, turns + more);
            x !in w'.owner && w'.threads[t] == w.threads[t] && Running(w') && w.shared.history <= w'.shared.history
    decreases var w := After(threads, turns);
              if x in w.owner && w.owner[x] < |w.threads| && w.threads[w.owner[x]].At? then Remaining(w.threads[w.owner[x]].pc) else 0
  {
    var w := After(threads, turns);
    if x !in w.owner {
      more := [];
      assert turns + more == turns;
    } else {
      var u := w.owner[x];
      var m := OwnerGoesOn(threads, turns, x);
      ReachableLockInv(threads, turns);
      SectionGoesOn(w, u, m, x);
      StepsKeepRunning(w, u, m);
      OneTurn(threads, turns, Turn(u, m));
      var rest := FreeMutex(threads, turns + [Turn(u, m)], x, t);
      more := [Turn(u, m)] + rest;
      assert turns + more == turns + [Turn(u, m)] + rest;
    }
  }

  // ---------------------------------------------------------------- running a tick to its commit

  // Between snapshot and commit.
  predicate HasSnapshot(th: Thread) {
    th.At? && th.pc.InTick? && KeepsSnapshot(th.pc.tick)
  }

  // How many statements a tick still has before and with its commit.
  function ToCommit(l: Label): nat {
    match l
    case InTick(TickUnlockState) => 7
    case InTick(TickOwnInput) => 6
    case InTick(TickLockInputs) => 5
    case InTick(TickAddInputs) => 4
    case InTick(TickUnlockInputs) => 3
    case InTick(TickLockCommit) => 2
    case _ => 1
  }

  lemma OtherMutexes(l: Label)
    requires l.InTick?
    ensures Code(l).Lock? ==> Code(l).mutex != QueueMutex
  {
  }

  // A thread waiting for a mutex can be given it.
  lemma MakeWay(threads: nat, turns: seq<Turn>, t: nat) returns (more: seq<Turn>, m: Move)
    requires t < threads && HasSnapshot(After(threads, turns).threads[t]) && Running(After(threads, turns))
    ensures var w, w' := After(threads, turns), After(threads, turns + more);
            w'.threads[t] == w.threads[t] && Running(w') && w.shared.history <= w'.shared.history && Enabled(w', t, m)
  {
    ReachableLockInv(threads, turns);
    var l := After(threads, turns).threads[t].pc;
    EveryPathBalances(l);
    OtherMutexes(l);
    if Code(l).Lock? {
      more := FreeMutex(threads, turns, Code(l).mutex, t);
      m := Run(0, false);
    } else {
      more := [];
      assert turns + more == turns;
      m := NonLockCanRun(After(threads, turns), t);
    }
  }

  // The working copy gains marks at position 1 only.
  predicate SameMarks(g: GameState, h: GameState) {
    Exists(g, 2) == Exists(h, 2) && Exists(g, 3) == Exists(h, 3) && Exists(g, 4) == Exists(h, 4)
  }

  // The world stands behind the commit of a tick that had this snapshot.
  ghost predicate Committed(w: World, base: nat, work: GameState) {
    && w.shared.history != []
    && var c := w.shared.history[|w.shared.history| - 1];
       c.parent == base && SameMarks(c.state, work) && w.shared.gameState == Some(c.state)
  }

  lemma TickGoesOn(w: World, t: nat, m: Move)
    requires Enabled(w, t, m) && HasSnapshot(w.threads[t]) && !Faults(w.threads[t].pc, w.shared, w.threads[t].loc)
    ensures var w', loc := Next(w, t, m), w.threads[t].loc;
            if w.threads[t].pc == InTick(TickCommit) then
              |w'.shared.history| == |w.shared.history| + 1 && Committed(w', loc.base, loc.work)
            else
              && HasSnapshot(w'.threads[t]) && ToCommit(w'.threads[t].pc) < ToCommit(w.threads[t].pc)
              && w'.threads[t].loc.base == loc.base && SameMarks(w'.threads[t].loc.work, loc.work)
  {
  }

  lemma TickStep(threads: nat, turns: seq<Turn>, t: nat) returns (more: seq<Turn>)
    requires t < threads && HasSnapshot(After(threads, turns).threads[t]) && Running(After(threads, turns))
    ensures var w, w' := After(threads, turns), After(threads, turns + more);
            var loc := w.threads[t].loc;
            && Running(w') && w.shared.history <= w'.shared.history
            && if w.threads[t].pc == InTick(TickCommit) then
                 |w.shared.history| < |w'.shared.history| && Committed(w', loc.base, loc.work)
               else
                 && HasSnapshot(w'.threads[t]) && ToCommit(w'.threads[t].pc) < ToCommit(w.threads[t].pc)
                 && w'.threads[t].loc.base == loc.base && SameMarks(w'.threads[t].loc.work, loc.work)
  {
    var way, m := MakeWay(threads, turns, t);
    var turns1 := turns + way;
    FaultsExactly(threads, turns1, t);
    TickGoesOn(After(threads, turns1), t, m);
    StepsKeepRunning(After(threads, turns1), t, m);
    OneTurn(threads, turns1, Turn(t, m));
    more := way + [Turn(t, m)];
    assert turns + more == turns1 + [Turn(t, m)];
  }

  // The world after a tick that had this snapshot was run to its commit.
  ghost predicate RanToCommit(w: World, w': World, base: nat, work: GameState) {
    w.shared.history <= w'.shared.history && |w.shared.history| < |w'.shared.history| && Committed(w', base, work)
  }

  lemma EarlierRan(w: World, w1: World, w': World, base: nat, work: GameState, work1: GameState)
    requires w.shared.history <= w1.shared.history && SameMarks(work1, work) && RanToCommit(w1, w', base, work1)
    ensures RanToCommit(w, w', base, work)
  {
  }

  // A tick that has its snapshot can be run to its commit.
  lemma {:induction false} RunToCommit(threads: nat, turns: seq<Turn>, t: nat) returns (more: seq<Turn>)
    requires t < threads && HasSnapshot(After(threads, turns).threads[t]) && Running(After(threads, turns))
    ensures var w := After(threads, turns);
            RanToCommit(w, After(threads, turns + more), w.threads[t].loc.base, w.threads[t].loc.work)
    decreases ToCommit(After(threads, turns).threads[t].pc)
  {
    var w := After(threads, turns);
    more := TickStep(threads, turns, t);
    if w.threads[t].pc != InTick(TickCommit) {
      var w1 := After(threads, turns + more);
      var rest := RunToCommit(threads, turns + more, t);
      EarlierRan(w, w1, After(threads, turns + more + rest), w.threads[t].loc.base, w.threads[t].loc.work, w1.threads[t].loc.work);
      assert turns + (more + rest) == turns + more + rest;
      more := more + rest;
    }
  }
}
