/** How large coordinates get in every interleaving, and when ticks lose nothing. */
module ThreadsBounds {
  import opened Base
  import opened Protocol
  import opened Client
  import opened Threads
  import opened ThreadsTicks
  import opened ThreadsFaults

  // ---------------------------------------------------------------- bounded inputs

  predicate Small(a: int, bound: nat) {
    -a <= bound && a <= bound
  }

  predicate ArgsWithin(loc: Locals, bound: nat) {
    Small(loc.input.x, bound) && Small(loc.input.y, bound) && Small(loc.slaveInput.x, bound) && Small(loc.slaveInput.y, bound)
  }

  // Every input a user typed or the network delivered in this run.
  ghost predicate InputsWithin(turns: seq<Turn>, bound: nat) {
    forall i :: 0 <= i < |turns| && turns[i].move.Begin? ==> ArgsWithin(turns[i].move.args, bound)
  }

  ghost predicate StoredWithin(s: Shared, bound: nat) {
    s.lastInputs.Some? ==>
      && |s.lastInputs.value| == OTHERS_COUNT
      && forall i :: 0 <= i < OTHERS_COUNT ==> Small(s.lastInputs.value[i].x, bound) && Small(s.lastInputs.value[i].y, bound)
  }

  ghost predicate DeltasWithin(h: seq<Commit>, bound: nat) {
    forall i :: 0 <= i < |h| ==> Within(h[i].delta, bound)
  }

  // Between the adding of the inputs and the commit.
  predicate HasDelta(l: Label) {
    l == InTick(TickUnlockInputs) || l == InTick(TickLockCommit) || l == InTick(TickCommit)
  }

  ghost predicate ThreadWithin(th: Thread, bound: nat) {
    && (!th.Idle? ==> ArgsWithin(th.loc, bound))
    && (th.At? && HasDelta(th.pc) ==> Within(th.loc.delta, bound))
  }

  ghost predicate BoundInv(w: World, bound: nat) {
    && StoredWithin(w.shared, bound)
    && DeltasWithin(w.shared.history, bound)
    && forall t :: 0 <= t < |w.threads| ==> ThreadWithin(w.threads[t], bound)
  }

  lemma DoKeepsBounds(l: Label, s: Shared, loc: Locals, addr: nat, bound: nat)
    requires StoredWithin(s, bound) && DeltasWithin(s.history, bound) && ThreadWithin(At(l, loc), bound)
    requires Code(l).Do? && !Faults(l, s, loc)
    ensures StoredWithin(SharedEffect(l, s, loc, addr), bound) && DeltasWithin(SharedEffect(l, s, loc, addr).history, bound)
    ensures ThreadWithin(At(Code(l).next, LocalEffect(l, s, loc, addr)), bound)
  {
    if l == InTick(TickAddInputs) {
      assert Within(DeltaOf(loc.input, s.lastInputs.value), bound);
    } else if l == InNet(InputStore) {
      assert StoredWithin(SharedEffect(l, s, loc, addr), bound);
    } else {
      assert HasDelta(Code(l).next) ==> HasDelta(l);
    }
  }

  lemma ControlKeepsBounds(l: Label, loc: Locals, bound: nat)
    requires ThreadWithin(At(l, loc), bound)
    ensures match Code(l)
            case Lock(_, next) => ThreadWithin(At(next, loc), bound)
            case Unlock(_, next) => ThreadWithin(At(next, loc), bound)
            case Branch(yes, no) => ThreadWithin(At(yes, loc), bound) && ThreadWithin(At(no, loc), bound)
            case _ => true
  {
  }

  lemma StepKeepsBounds(w: World, t: nat, m: Move, bound: nat)
    requires BoundInv(w, bound) && Enabled(w, t, m) && (m.Begin? ==> ArgsWithin(m.args, bound))
    ensures BoundInv(Next(w, t, m), bound)
  {
    var th := w.threads[t];
    assert ThreadWithin(th, bound);
    if th.At? {
      ControlKeepsBounds(th.pc, th.loc, bound);
      if Code(th.pc).Do? && !Faults(th.pc, w.shared, th.loc) {
        DoKeepsBounds(th.pc, w.shared, th.loc, m.index, bound);
      }
    }
  }

  lemma {:induction false} ReachableBounds(threads: nat, turns: seq<Turn>, bound: nat)
    requires InputsWithin(turns, bound)
    ensures BoundInv(After(threads, turns), bound)
  {
    if turns != [] {
      ReachableBounds(threads, turns[..|turns| - 1], bound);
      var w, turn := After(threads, turns[..|turns| - 1]), turns[|turns| - 1];
      if Enabled(w, turn.thread, turn.move) {
        StepKeepsBounds(w, turn.thread, turn.move, bound);
      }
    }
  }

  // ---------------------------------------------------------------- no overflow

  lemma ExactWhileSmall(a: int)
    requires Small(a, 0x7fff_ffff)
    ensures ToInt32(a) == a
  {
  }

  // A committed coordinate is at most the number of commits times the largest input, however
  // the threads interleave and however many updates are lost.
  lemma {:induction false} PositionBound(threads: nat, turns: seq<Turn>, n: nat, vertical: bool, bound: nat)
    requires 1 <= n <= 4 && InputsWithin(turns, bound)
    ensures var s := After(threads, turns).shared;
            WellFormed(s.history) && (s.gameState.Some? && bound * |s.history| < 0x8000_0000 ==>
              && Coordinate(s.gameState.value, n, vertical) == ChainSum(s.history, |s.history|, n, vertical)
              && Small(Coordinate(s.gameState.value, n, vertical), bound * |s.history|))
  {
    ReachableTicksInv(threads, turns, n, vertical);
    ReachableBounds(threads, turns, bound);
    var h := After(threads, turns).shared.history;
    ChainSumBound(h, |h|, n, vertical, bound);
    if bound * |h| < 0x8000_0000 {
      ExactWhileSmall(ChainSum(h, |h|, n, vertical));
    }
  }

  // What the statement a tick is about to execute adds to a coordinate of its working copy.
  function Addend(w: World, t: nat, n: nat, vertical: bool): Option<int>
    requires t < |w.threads| && 1 <= n <= 4
  {
    if !w.threads[t].At? then None
    else if w.threads[t].pc == InTick(TickOwnInput) then Some(OwnAmount(w.threads[t].loc.input, n, vertical))
    else if w.threads[t].pc == InTick(TickAddInputs) && w.shared.lastInputs.Some? && |w.shared.lastInputs.value| == OTHERS_COUNT then
      Some(Amount(DeltaOf(w.threads[t].loc.input, w.shared.lastInputs.value), n, vertical) - OwnAmount(w.threads[t].loc.input, n, vertical))
    else None
  }

  // A working copy that carries `before` on top of its snapshot has room for the rest of the tick.
  lemma RoomForTheRest(h: seq<Commit>, loc: Locals, n: nat, vertical: bool, bound: nat, before: int, rest: int)
    requires 1 <= n <= 4 && WellFormed(h) && DeltasWithin(h, bound) && bound * (|h| + 1) < 0x8000_0000
    requires Carries(h, loc.work, loc.base, n, vertical, before) && Small(before, bound) && Small(before + rest, bound)
    ensures Small(Coordinate(loc.work, n, vertical) + rest, 0x7fff_ffff)
  {
    ChainSumBound(h, loc.base, n, vertical, bound);
    MoreIsMore(bound, loc.base, |h|);
    ExactWhileSmall(ChainSum(h, loc.base, n, vertical) + before);
  }

  lemma TickAmountsAreSmall(loc: Locals, inputs: seq<PlayerInput>, n: nat, vertical: bool, bound: nat)
    requires 1 <= n <= 4 && ArgsWithin(loc, bound) && |inputs| == OTHERS_COUNT
    requires forall i :: 0 <= i < OTHERS_COUNT ==> Small(inputs[i].x, bound) && Small(inputs[i].y, bound)
    ensures Small(OwnAmount(loc.input, n, vertical), bound) && Small(Amount(DeltaOf(loc.input, inputs), n, vertical), bound)
  {
  }

  // No addition of any tick overflows while the bound times one more commit fits 31 bits.
  lemma {:induction false} NoSignedOverflow(threads: nat, turns: seq<Turn>, t: nat, n: nat, vertical: bool, bound: nat)
    requires 1 <= n <= 4 && t < threads && InputsWithin(turns, bound)
    requires bound * (|After(threads, turns).shared.history| + 1) < 0x8000_0000
    ensures var w := After(threads, turns);
            Addend(w, t, n, vertical).Some? ==>
              Small(Coordinate(w.threads[t].loc.work, n, vertical) + Addend(w, t, n, vertical).value, 0x7fff_ffff)
  {
    ReachableTicksInv(threads, turns, n, vertical);
    ReachableBounds(threads, turns, bound);
    AdditionFits(After(threads, turns), t, n, vertical, bound);
  }

  lemma AdditionFits(w: World, t: nat, n: nat, vertical: bool, bound: nat)
    requires 1 <= n <= 4 && t < |w.threads| && TicksInv(w, n, vertical) && BoundInv(w, bound)
    requires bound * (|w.shared.history| + 1) < 0x8000_0000
    ensures Addend(w, t, n, vertical).Some? ==>
              Small(Coordinate(w.threads[t].loc.work, n, vertical) + Addend(w, t, n, vertical).value, 0x7fff_ffff)
  {
    var h := w.shared.history;
    if Addend(w, t, n, vertical).Some? {
      var th := w.threads[t];
      assert ThreadTicks(h, th, n, vertical) && ThreadWithin(th, bound);
      if th.pc == InTick(TickOwnInput) {
        RoomForTheRest(h, th.loc, n, vertical, bound, 0, OwnAmount(th.loc.input, n, vertical));
      } else {
        TickAmountsAreSmall(th.loc, w.shared.lastInputs.value, n, vertical, bound);
        RoomForTheRest(h, th.loc, n, vertical, bound, OwnAmount(th.loc.input, n, vertical), Addend(w, t, n, vertical).value);
      }
    }
  }

  // ---------------------------------------------------------------- one ticking thread loses nothing

  // Only this thread runs ticks (directly or from the frame loop).
  ghost predicate OnlyTicker(turns: seq<Turn>, ticker: nat) {
    forall i :: 0 <= i < |turns| && turns[i].move.Begin? && StartsTicks(turns[i].move.entry) ==> turns[i].thread == ticker
  }

  predicate HoldsSnapshot(l: Label) {
    l.InTick? && KeepsSnapshot(l.tick)
  }

  predicate StartsTicks(l: Label) {
    l.InTick? || l.InUser?
  }

  ghost predicate SerialInv(w: World, ticker: nat) {
    && Serial(w.shared.history)
    && (forall t :: 0 <= t < |w.threads| && w.threads[t].At? && StartsTicks(w.threads[t].pc) ==> t == ticker)
    && (ticker < |w.threads| && w.threads[ticker].At? && HoldsSnapshot(w.threads[ticker].pc) ==>
          w.threads[ticker].loc.base == |w.shared.history|)
  }

  lemma CodeKeepsKind(l: Label)
    ensures match Code(l)
            case Lock(_, next) => (StartsTicks(next) ==> StartsTicks(l)) && (HoldsSnapshot(next) ==> HoldsSnapshot(l))
            case Unlock(_, next) => (StartsTicks(next) ==> StartsTicks(l)) && (HoldsSnapshot(next) ==> HoldsSnapshot(l))
            case Branch(yes, no) =>
              (StartsTicks(yes) || StartsTicks(no) ==> StartsTicks(l)) && !HoldsSnapshot(yes) && !HoldsSnapshot(no)
            case Do(next) =>
              (StartsTicks(next) ==> StartsTicks(l)) && (HoldsSnapshot(next) ==> HoldsSnapshot(l) || l == InTick(TickSnapshot))
            case Signal(next) => !StartsTicks(next)
            case _ => true
  {
  }

  lemma DoKeepsSerial(l: Label, s: Shared, loc: Locals, addr: nat)
    requires Serial(s.history) && Code(l).Do? && !Faults(l, s, loc)
    requires HoldsSnapshot(l) ==> loc.base == |s.history|
    ensures Serial(SharedEffect(l, s, loc, addr).history)
    ensures HoldsSnapshot(Code(l).next) ==> LocalEffect(l, s, loc, addr).base == |SharedEffect(l, s, loc, addr).history|
    ensures SharedEffect(l, s, loc, addr).history == s.history || StartsTicks(l)
  {
  }

  lemma StepKeepsSerial(w: World, t: nat, m: Move, ticker: nat)
    requires SerialInv(w, ticker) && Enabled(w, t, m) && (m.Begin? && StartsTicks(m.entry) ==> t == ticker)
    ensures SerialInv(Next(w, t, m), ticker)
  {
    var th := w.threads[t];
    if th.At? {
      CodeKeepsKind(th.pc);
      if Code(th.pc).Do? && !Faults(th.pc, w.shared, th.loc) {
        DoKeepsSerial(th.pc, w.shared, th.loc, m.index);
      }
    }
  }

  lemma {:induction false} ReachableSerial(threads: nat, turns: seq<Turn>, ticker: nat)
    requires OnlyTicker(turns, ticker)
    ensures SerialInv(After(threads, turns), ticker)
  {
    if turns != [] {
      ReachableSerial(threads, turns[..|turns| - 1], ticker);
      var w, turn := After(threads, turns[..|turns| - 1]), turns[|turns| - 1];
      if Enabled(w, turn.thread, turn.move) {
        StepKeepsSerial(w, turn.thread, turn.move, ticker);
      }
    }
  }

  // If a single thread ticks, then whatever the network thread interleaves, no tick is lost:
  // every coordinate is the sum of what all commits added.
  lemma {:induction false} OneTickerLosesNothing(threads: nat, turns: seq<Turn>, ticker: nat, n: nat, vertical: bool)
    requires 1 <= n <= 4 && OnlyTicker(turns, ticker)
    ensures var s := After(threads, turns).shared;
            && WellFormed(s.history)
            && NothingLost(s.history, |s.history|)
            && (s.gameState.Some? ==>
                  Coordinate(s.gameState.value, n, vertical) == ToInt32(Total(s.history, |s.history|, n, vertical)))
  {
    ReachableTicksInv(threads, turns, n, vertical);
    ReachableSerial(threads, turns, ticker);
    var h := After(threads, turns).shared.history;
    SerialChainIsFull(h, |h|);
  }

  // With one ticking and one network thread, no two packets are sent at once, and besides the
  // sender only the network thread uses the connection.
  lemma {:induction false} OneTickerSendsAlone(threads: nat, turns: seq<Turn>, ticker: nat, net: nat, t: nat)
    requires OnlyTicker(turns, ticker) && OnlyConnector(turns, net)
    requires t < threads && After(threads, turns).threads[t].At?
    ensures Sends(After(threads, turns).threads[t].pc) ==> t == ticker
    ensures NeedsPeer(After(threads, turns).threads[t].pc) ==> t == net
  {
    ReachableSerial(threads, turns, ticker);
    ReachableConnInv(threads, turns, net);
  }
}
