/**
 * Ticks in every interleaving. A tick reads the game state, the inputs and writes the game
 * state back in three critical sections, so a commit may overwrite others; what a coordinate
 * then is, how large it can get, and exactly when no tick is lost.
 */
module ThreadsTicks {
  import opened Base
  import opened Protocol
  import opened Client
  import opened Threads

  // ---------------------------------------------------------------- chains of commits

  // A commit's snapshot was taken no later than the commit.
  ghost predicate WellFormed(h: seq<Commit>) {
    forall i :: 0 <= i < |h| ==> h[i].parent <= i && |h[i].delta| == 8
  }

  function Amount(delta: seq<int>, n: nat, vertical: bool): int
    requires |delta| == 8 && 1 <= n <= 4
  {
    delta[2 * (n - 1) + if vertical then 1 else 0]
  }

  // The commits whose effect the state after the first i commits contains: the latest one, the
  // latest one its snapshot had seen, and so on.
  ghost function Chained(h: seq<Commit>, i: nat): (s: set<nat>)
    requires WellFormed(h) && i <= |h|
    ensures forall j :: j in s ==> j < i
  {
    if i == 0 then {} else Chained(h, h[i - 1].parent) + {i - 1}
  }

  // What they add to a coordinate.
  ghost function ChainSum(h: seq<Commit>, i: nat, n: nat, vertical: bool): int
    requires WellFormed(h) && i <= |h| && 1 <= n <= 4
  {
    if i == 0 then 0 else ChainSum(h, h[i - 1].parent, n, vertical) + Amount(h[i - 1].delta, n, vertical)
  }

  // What all commits together added.
  ghost function Total(h: seq<Commit>, i: nat, n: nat, vertical: bool): int
    requires WellFormed(h) && i <= |h| && 1 <= n <= 4
  {
    if i == 0 then 0 else Total(h, i - 1, n, vertical) + Amount(h[i - 1].delta, n, vertical)
  }

  lemma {:induction false} LaterCommitsChangeNoSum(h: seq<Commit>, c: Commit, i: nat, n: nat, vertical: bool)
    requires WellFormed(h) && WellFormed(h + [c]) && i <= |h| && 1 <= n <= 4
    ensures ChainSum(h + [c], i, n, vertical) == ChainSum(h, i, n, vertical)
  {
    if i != 0 {
      LaterCommitsChangeNoSum(h, c, h[i - 1].parent, n, vertical);
    }
  }

  ghost predicate Within(delta: seq<int>, bound: nat) {
    forall k :: 0 <= k < |delta| ==> -delta[k] <= bound && delta[k] <= bound
  }

  // A chain is no longer than its commits are many.
  lemma {:induction false} ChainSumBound(h: seq<Commit>, i: nat, n: nat, vertical: bool, bound: nat)
    requires WellFormed(h) && i <= |h| && 1 <= n <= 4
    requires forall k :: 0 <= k < |h| ==> Within(h[k].delta, bound)
    ensures -(bound * i) <= ChainSum(h, i, n, vertical) <= bound * i
  {
    if i != 0 {
      var p := h[i - 1].parent;
      ChainSumBound(h, p, n, vertical, bound);
      assert bound * p <= bound * (i - 1) && bound * i == bound * (i - 1) + bound by { MoreIsMore(bound, p, i - 1); }
      assert Within(h[i - 1].delta, bound);
    }
  }

  lemma MoreIsMore(bound: nat, p: nat, i: nat)
    requires p <= i
    ensures bound * p <= bound * i && bound * (i + 1) == bound * i + bound
  {
  }

  // Every commit read the state the one before it wrote.
  ghost predicate Serial(h: seq<Commit>) {
    forall i :: 0 <= i < |h| ==> h[i].parent == i
  }

  // The state after the first i commits contains the effect of commit j.
  ghost predicate Survives(h: seq<Commit>, i: nat, j: nat)
    requires WellFormed(h) && i <= |h|
  {
    j in Chained(h, i)
  }

  ghost predicate NothingLost(h: seq<Commit>, i: nat)
    requires WellFormed(h) && i <= |h|
  {
    forall j :: 0 <= j < i ==> Survives(h, i, j)
  }

  lemma {:induction false} FullChainIsSerial(h: seq<Commit>, i: nat)
    requires WellFormed(h) && i <= |h| && NothingLost(h, i)
    ensures forall k :: 0 <= k < i ==> h[k].parent == k
  {
    if i != 0 {
      var p := h[i - 1].parent;
      assert !Survives(h, p, p) && Survives(h, i, p);
      forall j | 0 <= j < p ensures Survives(h, p, j) {
        assert Survives(h, i, j);
      }
      FullChainIsSerial(h, p);
    }
  }

  lemma {:induction false} SerialChainIsFull(h: seq<Commit>, i: nat)
    requires WellFormed(h) && i <= |h| && Serial(h)
    ensures NothingLost(h, i)
    ensures forall n, vertical :: 1 <= n <= 4 ==> ChainSum(h, i, n, vertical) == Total(h, i, n, vertical)
  {
    if i != 0 {
      var p := i - 1;
      SerialChainIsFull(h, p);
      forall j | 0 <= j < i ensures Survives(h, i, j) {
        assert j < p ==> Survives(h, p, j);
      }
    }
  }

  // No commit is lost exactly when no commit fell between another tick's snapshot and its own
  // commit.
  lemma NothingLostIffSerial(h: seq<Commit>)
    requires WellFormed(h)
    ensures NothingLost(h, |h|) <==> Serial(h)
  {
    if Serial(h) {
      SerialChainIsFull(h, |h|);
    }
    if NothingLost(h, |h|) {
      FullChainIsSerial(h, |h|);
    }
  }

  // A commit off the chain is lost for good: whatever it added, the state is the same.
  lemma {:induction false} LostCommitLeavesNoTrace(h: seq<Commit>, i: nat, lost: nat, delta: seq<int>, n: nat, vertical: bool)
    requires WellFormed(h) && i <= |h| && lost < |h| && |delta| == 8 && 1 <= n <= 4
    requires !Survives(h, i, lost)
    ensures WellFormed(h[lost := h[lost].(delta := delta)])
    ensures ChainSum(h[lost := h[lost].(delta := delta)], i, n, vertical) == ChainSum(h, i, n, vertical)
  {
    if i != 0 {
      LostCommitLeavesNoTrace(h, h[i - 1].parent, lost, delta, n, vertical);
    }
  }

  // ---------------------------------------------------------------- what holds between the critical sections

  // Between snapshot and commit.
  predicate KeepsSnapshot(s: TickStep) {
    match s
    case TickUnlockState | TickOwnInput | TickLockInputs | TickAddInputs | TickUnlockInputs | TickLockCommit | TickCommit => true
    case _ => false
  }

  function OwnAmount(input: UserInput, n: nat, vertical: bool): Int32 {
    if n != 1 then 0 else if vertical then input.y else input.x
  }

  // The working copy is the snapshot plus this much.
  ghost predicate Carries(h: seq<Commit>, work: GameState, base: nat, n: nat, vertical: bool, added: int)
    requires WellFormed(h) && 1 <= n <= 4
  {
    base <= |h| && Coordinate(work, n, vertical) == ToInt32(ChainSum(h, base, n, vertical) + added)
  }

  ghost predicate TickLocal(h: seq<Commit>, s: TickStep, loc: Locals, n: nat, vertical: bool)
    requires WellFormed(h) && 1 <= n <= 4
  {
    match s
    case TickUnlockState | TickOwnInput => Carries(h, loc.work, loc.base, n, vertical, 0)
    case TickLockInputs | TickAddInputs => Carries(h, loc.work, loc.base, n, vertical, OwnAmount(loc.input, n, vertical))
    case TickUnlockInputs | TickLockCommit | TickCommit =>
      |loc.delta| == 8 && Carries(h, loc.work, loc.base, n, vertical, Amount(loc.delta, n, vertical))
    case _ => true
  }

  ghost predicate ThreadTicks(h: seq<Commit>, th: Thread, n: nat, vertical: bool)
    requires WellFormed(h) && 1 <= n <= 4
  {
    th.At? && th.pc.InTick? ==> TickLocal(h, th.pc.tick, th.loc, n, vertical)
  }

  // The stored coordinate is the sum over the chain of the latest commit.
  ghost predicate StateFollows(s: Shared, n: nat, vertical: bool)
    requires WellFormed(s.history) && 1 <= n <= 4
  {
    match s.gameState
    case None => s.history == []
    case Some(g) => Coordinate(g, n, vertical) == ToInt32(ChainSum(s.history, |s.history|, n, vertical))
  }

  // So is the coordinate of every state a commit wrote.
  ghost predicate CommitsFollow(h: seq<Commit>, n: nat, vertical: bool)
    requires WellFormed(h) && 1 <= n <= 4
  {
    forall i :: 0 <= i < |h| ==> Carries(h, h[i].state, i + 1, n, vertical, 0)
  }

  ghost predicate TicksInv(w: World, n: nat, vertical: bool)
    requires 1 <= n <= 4
  {
    && WellFormed(w.shared.history)
    && StateFollows(w.shared, n, vertical)
    && CommitsFollow(w.shared.history, n, vertical)
    && forall t :: 0 <= t < |w.threads| ==> ThreadTicks(w.shared.history, w.threads[t], n, vertical)
  }

  lemma OwnInputAdds(h: seq<Commit>, loc: Locals, n: nat, vertical: bool)
    requires WellFormed(h) && 1 <= n <= 4 && Carries(h, loc.work, loc.base, n, vertical, 0)
    ensures Carries(h, OwnInput(loc.work, loc.ticks, loc.input), loc.base, n, vertical, OwnAmount(loc.input, n, vertical))
  {
    WrapOfSum(ChainSum(h, loc.base, n, vertical), OwnAmount(loc.input, n, vertical));
  }

  lemma OthersInputsAdd(h: seq<Commit>, loc: Locals, inputs: seq<PlayerInput>, n: nat, vertical: bool)
    requires WellFormed(h) && 1 <= n <= 4 && |inputs| == OTHERS_COUNT
    requires Carries(h, loc.work, loc.base, n, vertical, OwnAmount(loc.input, n, vertical))
    ensures Carries(h, OthersInputs(loc.work, inputs), loc.base, n, vertical, Amount(DeltaOf(loc.input, inputs), n, vertical))
  {
    var sum, others := ChainSum(h, loc.base, n, vertical), Amount(DeltaOf(loc.input, inputs), n, vertical) - OwnAmount(loc.input, n, vertical);
    WrapOfSum(sum + OwnAmount(loc.input, n, vertical), others);
  }

  lemma ThreadSurvivesCommit(h: seq<Commit>, c: Commit, th: Thread, n: nat, vertical: bool)
    requires 1 <= n <= 4 && WellFormed(h) && WellFormed(h + [c]) && ThreadTicks(h, th, n, vertical)
    ensures ThreadTicks(h + [c], th, n, vertical)
  {
    if th.At? && th.loc.base <= |h| {
      LaterCommitsChangeNoSum(h, c, th.loc.base, n, vertical);
    }
  }

  lemma CommitsStillFollow(h: seq<Commit>, c: Commit, n: nat, vertical: bool)
    requires 1 <= n <= 4 && WellFormed(h) && WellFormed(h + [c]) && CommitsFollow(h, n, vertical)
    requires |c.delta| == 8 && Carries(h, c.state, c.parent, n, vertical, Amount(c.delta, n, vertical))
    ensures CommitsFollow(h + [c], n, vertical)
  {
    var h' := h + [c];
    forall i | 0 <= i < |h'| ensures Carries(h', h'[i].state, i + 1, n, vertical, 0) {
      if i < |h| {
        assert Carries(h, h[i].state, i + 1, n, vertical, 0);
        LaterCommitsChangeNoSum(h, c, i + 1, n, vertical);
      } else {
        LaterCommitsChangeNoSum(h, c, c.parent, n, vertical);
      }
    }
  }

  lemma CommitKeeps(w: World, t: nat, m: Move, n: nat, vertical: bool)
    requires 1 <= n <= 4 && TicksInv(w, n, vertical) && Enabled(w, t, m)
    requires w.threads[t].At? && w.threads[t].pc == InTick(TickCommit) && w.shared.gameState.Some?
    ensures TicksInv(Next(w, t, m), n, vertical)
  {
    var h, loc, w' := w.shared.history, w.threads[t].loc, Next(w, t, m);
    var c := Commit(loc.base, loc.delta, loc.work);
    assert ThreadTicks(h, w.threads[t], n, vertical);
    LaterCommitsChangeNoSum(h, c, loc.base, n, vertical);
    CommitsStillFollow(h, c, n, vertical);
    forall u | 0 <= u < |w'.threads| ensures ThreadTicks(h + [c], w'.threads[u], n, vertical) {
      if u != t {
        ThreadSurvivesCommit(h, c, w.threads[u], n, vertical);
      }
    }
  }

  // A step without a commit, by which the stored coordinates do not change.
  lemma QuietKeeps(w: World, w': World, t: nat, n: nat, vertical: bool)
    requires 1 <= n <= 4 && TicksInv(w, n, vertical) && t < |w.threads|
    requires |w'.threads| == |w.threads| && forall u :: 0 <= u < |w.threads| && u != t ==> w'.threads[u] == w.threads[u]
    requires w'.shared.history == w.shared.history && StateFollows(w'.shared, n, vertical)
    requires ThreadTicks(w.shared.history, w'.threads[t], n, vertical)
    ensures TicksInv(w', n, vertical)
  {
  }

  lemma TickStepEstablishes(s: Shared, step: TickStep, loc: Locals, addr: nat, n: nat, vertical: bool)
    requires 1 <= n <= 4 && WellFormed(s.history) && StateFollows(s, n, vertical) && TickLocal(s.history, step, loc, n, vertical)
    requires TickCode(step).Do? && step != TickCommit && !Faults(InTick(step), s, loc)
    ensures ThreadTicks(s.history, At(TickCode(step).next, LocalEffect(InTick(step), s, loc, addr)), n, vertical)
  {
    match step {
      case TickOwnInput => OwnInputAdds(s.history, loc, n, vertical);
      case TickAddInputs => OthersInputsAdd(s.history, loc, s.lastInputs.value, n, vertical);
      case _ =>
    }
  }

  // Lock operations and tests lead to statements that ask no more.
  lemma TickControlEstablishes(h: seq<Commit>, step: TickStep, loc: Locals, n: nat, vertical: bool)
    requires 1 <= n <= 4 && WellFormed(h) && TickLocal(h, step, loc, n, vertical)
    ensures match TickCode(step)
            case Lock(_, next) => ThreadTicks(h, At(next, loc), n, vertical)
            case Unlock(_, next) => ThreadTicks(h, At(next, loc), n, vertical)
            case Branch(yes, no) => ThreadTicks(h, At(yes, loc), n, vertical) && ThreadTicks(h, At(no, loc), n, vertical)
            case _ => true
  {
  }

  // The code of the other functions enters a tick only at its beginning.
  predicate NoTickYet(l: Label) {
    l.InTick? ==> l.tick == TickLockUi
  }

  lemma OtherCodeStartsTicks(l: Label)
    requires !l.InTick?
    ensures match Code(l)
            case Lock(_, next) => NoTickYet(next)
            case Unlock(_, next) => NoTickYet(next)
            case Branch(yes, no) => NoTickYet(yes) && NoTickYet(no)
            case Do(next) => NoTickYet(next)
            case Signal(next) => NoTickYet(next)
            case _ => true
  {
  }

  // Statements other than the commit leave every coordinate and the history.
  lemma OtherEffects(l: Label, s: Shared, loc: Locals, addr: nat, n: nat, vertical: bool)
    requires 1 <= n <= 4 && WellFormed(s.history) && StateFollows(s, n, vertical) && l != InTick(TickCommit)
    ensures SharedEffect(l, s, loc, addr).history == s.history
    ensures StateFollows(SharedEffect(l, s, loc, addr), n, vertical)
  {
  }

  lemma SignalKeeps(w: World, t: nat, m: Move, n: nat, vertical: bool)
    requires 1 <= n <= 4 && TicksInv(w, n, vertical) && Enabled(w, t, m)
    requires w.threads[t].At? && w.threads[t].pc == InQueue(PushSignal)
    ensures TicksInv(Next(w, t, m), n, vertical)
  {
    var w1 := Goto(w, t, InQueue(PushUnlock), w.threads[t].loc);
    QuietKeeps(w, w1, t, n, vertical);
    if SomeoneAsleep(w.threads) {
      QuietKeeps(w1, Next(w, t, m), m.index, n, vertical);
    }
  }

  // What a statement leads to, for the thread that executes it.
  lemma StatementEstablishes(s: Shared, l: Label, loc: Locals, addr: nat, n: nat, vertical: bool)
    requires 1 <= n <= 4 && WellFormed(s.history) && StateFollows(s, n, vertical) && ThreadTicks(s.history, At(l, loc), n, vertical)
    requires l != InTick(TickCommit) && !Faults(l, s, loc)
    ensures match Code(l)
            case Lock(_, next) => ThreadTicks(s.history, At(next, loc), n, vertical)
            case Unlock(_, next) => ThreadTicks(s.history, At(next, loc), n, vertical)
            case Branch(yes, no) => ThreadTicks(s.history, At(yes, loc), n, vertical) && ThreadTicks(s.history, At(no, loc), n, vertical)
            case Do(next) => ThreadTicks(s.history, At(next, LocalEffect(l, s, loc, addr)), n, vertical)
            case _ => true
  {
    if l.InTick? {
      TickControlEstablishes(s.history, l.tick, loc, n, vertical);
      if TickCode(l.tick).Do? {
        TickStepEstablishes(s, l.tick, loc, addr, n, vertical);
      }
    } else {
      OtherCodeStartsTicks(l);
    }
  }

  lemma StatementKeeps(w: World, t: nat, m: Move, n: nat, vertical: bool)
    requires 1 <= n <= 4 && TicksInv(w, n, vertical) && Enabled(w, t, m) && !Next(w, t, m).crashed
    requires w.threads[t].At? && w.threads[t].pc != InTick(TickCommit) && w.threads[t].pc != InQueue(PushSignal)
    ensures TicksInv(Next(w, t, m), n, vertical)
  {
    var th := w.threads[t];
    assert ThreadTicks(w.shared.history, th, n, vertical);
    OtherEffects(th.pc, w.shared, th.loc, m.index, n, vertical);
    if Code(th.pc).Do? || !Faults(th.pc, w.shared, th.loc) {
      StatementEstablishes(w.shared, th.pc, th.loc, m.index, n, vertical);
    }
    QuietKeeps(w, Next(w, t, m), t, n, vertical);
  }

  lemma StepKeepsTicksInv(w: World, t: nat, m: Move, n: nat, vertical: bool)
    requires 1 <= n <= 4 && TicksInv(w, n, vertical) && Enabled(w, t, m)
    ensures TicksInv(Next(w, t, m), n, vertical)
  {
    var w', th := Next(w, t, m), w.threads[t];
    if w'.crashed {
    } else if !th.At? {
      QuietKeeps(w, w', t, n, vertical);
    } else if th.pc == InTick(TickCommit) {
      CommitKeeps(w, t, m, n, vertical);
    } else if th.pc == InQueue(PushSignal) {
      SignalKeeps(w, t, m, n, vertical);
    } else {
      StatementKeeps(w, t, m, n, vertical);
    }
  }

  lemma {:induction false} ReachableTicksInv(threads: nat, turns: seq<Turn>, n: nat, vertical: bool)
    requires 1 <= n <= 4
    ensures TicksInv(After(threads, turns), n, vertical)
  {
    if turns != [] {
      ReachableTicksInv(threads, turns[..|turns| - 1], n, vertical);
      var w, turn := After(threads, turns[..|turns| - 1]), turns[|turns| - 1];
      if Enabled(w, turn.thread, turn.move) {
        StepKeepsTicksInv(w, turn.thread, turn.move, n, vertical);
      }
    }
  }

  // ---------------------------------------------------------------- the committed coordinate

  // In every interleaving a committed coordinate is the fold of a chain of ticks linked by which
  // commit each snapshot read.
  lemma {:induction false} CoordinateIsChainSum(threads: nat, turns: seq<Turn>, n: nat, vertical: bool)
    requires 1 <= n <= 4
    ensures var s := After(threads, turns).shared;
            && WellFormed(s.history)
            && (s.gameState.None? ==> s.history == [])
            && (s.gameState.Some? ==>
                  Coordinate(s.gameState.value, n, vertical) == ToInt32(ChainSum(s.history, |s.history|, n, vertical)))
  {
    ReachableTicksInv(threads, turns, n, vertical);
  }

  // So is every coordinate of the states the commits wrote.
  lemma {:induction false} CommittedStateIsChainSum(threads: nat, turns: seq<Turn>, i: nat, n: nat, vertical: bool)
    requires 1 <= n <= 4 && i < |After(threads, turns).shared.history|
    ensures var h := After(threads, turns).shared.history;
            WellFormed(h) && Coordinate(h[i].state, n, vertical) == ToInt32(ChainSum(h, i + 1, n, vertical))
  {
    ReachableTicksInv(threads, turns, n, vertical);
    assert Carries(After(threads, turns).shared.history, After(threads, turns).shared.history[i].state, i + 1, n, vertical, 0);
  }
}
