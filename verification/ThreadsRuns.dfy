/**
 * Concrete runs: ticks that overlap lose an input; a tick that overlaps initialisation, and an
 * exit without a connection or during a tick, crash; three threads use the connection at once.
 */
module ThreadsRuns {
  import opened Base
  import opened Protocol
  import opened Client
  import opened Threads
  import opened ThreadsTicks
  import opened ThreadsFaults

  // After these turns thread t is about to execute l, the others stand as in `rest`.
  ghost predicate Stands(n: nat, turns: seq<Turn>, rest: seq<Thread>, t: nat, l: Label, loc: Locals, owner: map<Mutex, nat>, s: Shared) {
    t < |rest| && After(n, turns) == World(rest[t := At(l, loc)], owner, s, false)
  }

  lemma Start(n: nat, turns: seq<Turn>, threads: seq<Thread>, t: nat, entry: Label, args: Locals, s: Shared) returns (turns': seq<Turn>)
    requires After(n, turns) == World(threads, map[], s, false) && t < |threads| && threads[t].Idle? && IsEntry(entry)
    ensures Stands(n, turns', threads, t, entry, args, map[], s)
  {
    turns' := turns + [Turn(t, Begin(entry, args))];
    OneTurn(n, turns, Turn(t, Begin(entry, args)));
  }

  lemma Acquire(n: nat, turns: seq<Turn>, rest: seq<Thread>, t: nat, l: Label, loc: Locals, s: Shared) returns (turns': seq<Turn>)
    requires Stands(n, turns, rest, t, l, loc, map[], s) && Code(l).Lock?
    ensures Stands(n, turns', rest, t, Code(l).next, loc, map[Code(l).mutex := t], s)
  {
    turns' := turns + [Turn(t, Run(0, false))];
    OneTurn(n, turns, Turn(t, Run(0, false)));
    assert rest[t := At(l, loc)][t := At(Code(l).next, loc)] == rest[t := At(Code(l).next, loc)];
  }

  lemma Release(n: nat, turns: seq<Turn>, rest: seq<Thread>, t: nat, l: Label, loc: Locals, s: Shared) returns (turns': seq<Turn>)
    requires Code(l).Unlock? && Stands(n, turns, rest, t, l, loc, map[Code(l).mutex := t], s)
    ensures Stands(n, turns', rest, t, Code(l).next, loc, map[], s)
  {
    turns' := turns + [Turn(t, Run(0, false))];
    OneTurn(n, turns, Turn(t, Run(0, false)));
    assert rest[t := At(l, loc)][t := At(Code(l).next, loc)] == rest[t := At(Code(l).next, loc)];
    assert map[Code(l).mutex := t] - {Code(l).mutex} == map[];
  }

  lemma Choose(n: nat, turns: seq<Turn>, rest: seq<Thread>, t: nat, l: Label, loc: Locals, owner: map<Mutex, nat>, s: Shared)
    returns (turns': seq<Turn>)
    requires Stands(n, turns, rest, t, l, loc, owner, s) && Code(l).Branch?
    ensures Stands(n, turns', rest, t, if Test(l, s, loc, false) then Code(l).yes else Code(l).no, loc, owner, s)
  {
    var next := if Test(l, s, loc, false) then Code(l).yes else Code(l).no;
    turns' := turns + [Turn(t, Run(0, false))];
    OneTurn(n, turns, Turn(t, Run(0, false)));
    assert rest[t := At(l, loc)][t := At(next, loc)] == rest[t := At(next, loc)];
  }

  lemma Execute(n: nat, turns: seq<Turn>, rest: seq<Thread>, t: nat, l: Label, loc: Locals, owner: map<Mutex, nat>, s: Shared)
    returns (turns': seq<Turn>)
    requires Stands(n, turns, rest, t, l, loc, owner, s) && Code(l).Do? && !l.InQueue? && !Faults(l, s, loc)
    ensures Stands(n, turns', rest, t, Code(l).next, LocalEffect(l, s, loc, 0), owner, SharedEffect(l, s, loc, 0))
  {
    turns' := turns + [Turn(t, Run(0, false))];
    OneTurn(n, turns, Turn(t, Run(0, false)));
    assert rest[t := At(l, loc)][t := At(Code(l).next, LocalEffect(l, s, loc, 0))]
        == rest[t := At(Code(l).next, LocalEffect(l, s, loc, 0))];
  }

  // ---------------------------------------------------------------- one thread on its own

  // From the beginning of a master's tick to the copy of its user information.
  lemma PassRole(n: nat, turns: seq<Turn>, rest: seq<Thread>, t: nat, loc: Locals, s: Shared) returns (turns': seq<Turn>)
    requires Stands(n, turns, rest, t, InTick(TickLockUi), loc, map[], s)
    requires s.userInfo.Some? && s.userInfo.value.isMaster
    ensures Stands(n, turns', rest, t, InTick(TickLockState), loc.(myInfo := s.userInfo.value), map[], s)
  {
    turns' := Acquire(n, turns, rest, t, InTick(TickLockUi), loc, s);
    turns' := Choose(n, turns', rest, t, InTick(TickCheckUi), loc, map[UserInfoMutex := t], s);
    turns' := Execute(n, turns', rest, t, InTick(TickCopyUi), loc, map[UserInfoMutex := t], s);
    var loc' := loc.(myInfo := s.userInfo.value);
    turns' := Release(n, turns', rest, t, InTick(TickUnlockUi), loc', s);
    turns' := Choose(n, turns', rest, t, InTick(TickRole), loc', map[], s);
  }

  // From the beginning of a master's tick to its snapshot.
  lemma ReachSnapshot(n: nat, turns: seq<Turn>, rest: seq<Thread>, t: nat, loc: Locals, s: Shared)
    returns (turns': seq<Turn>, loc': Locals)
    requires Stands(n, turns, rest, t, InTick(TickLockUi), loc, map[], s)
    requires s.userInfo.Some? && s.userInfo.value.isMaster && s.gameState.Some?
    ensures loc' == loc.(myInfo := s.userInfo.value, work := s.gameState.value, base := |s.history|)
    ensures Stands(n, turns', rest, t, InTick(TickOwnInput), loc', map[], s)
  {
    turns' := PassRole(n, turns, rest, t, loc, s);
    var loc1 := loc.(myInfo := s.userInfo.value);
    turns' := Acquire(n, turns', rest, t, InTick(TickLockState), loc1, s);
    turns' := Choose(n, turns', rest, t, InTick(TickCheckState), loc1, map[GameStateMutex := t], s);
    turns' := Execute(n, turns', rest, t, InTick(TickSnapshot), loc1, map[GameStateMutex := t], s);
    loc' := loc1.(work := s.gameState.value, base := |s.history|);
    turns' := Release(n, turns', rest, t, InTick(TickUnlockState), loc', s);
  }

  // From the snapshot to the commit.
  lemma ReachCommit(n: nat, turns: seq<Turn>, rest: seq<Thread>, t: nat, loc: Locals, s: Shared)
    returns (turns': seq<Turn>, loc': Locals)
    requires Stands(n, turns, rest, t, InTick(TickOwnInput), loc, map[], s)
    requires s.lastInputs.Some? && |s.lastInputs.value| == OTHERS_COUNT
    ensures loc'.base == loc.base && loc'.delta == DeltaOf(loc.input, s.lastInputs.value)
    ensures loc'.work == OthersInputs(OwnInput(loc.work, loc.ticks, loc.input), s.lastInputs.value)
    ensures Stands(n, turns', rest, t, InTick(TickLockCommit), loc', map[], s)
  {
    turns' := Execute(n, turns, rest, t, InTick(TickOwnInput), loc, map[], s);
    var loc1 := loc.(work := OwnInput(loc.work, loc.ticks, loc.input));
    turns' := Acquire(n, turns', rest, t, InTick(TickLockInputs), loc1, s);
    turns' := Execute(n, turns', rest, t, InTick(TickAddInputs), loc1, map[InputsMutex := t], s);
    loc' := LocalEffect(InTick(TickAddInputs), s, loc1, 0);
    turns' := Release(n, turns', rest, t, InTick(TickUnlockInputs), loc', s);
  }

  lemma PassCommit(n: nat, turns: seq<Turn>, rest: seq<Thread>, t: nat, loc: Locals, s: Shared) returns (turns': seq<Turn>)
    requires Stands(n, turns, rest, t, InTick(TickLockCommit), loc, map[], s) && s.gameState.Some?
    ensures Stands(n, turns', rest, t, InTick(TickLockSend), loc, map[],
                   s.(gameState := Some(loc.work), history := s.history + [Commit(loc.base, loc.delta, loc.work)]))
  {
    turns' := Acquire(n, turns, rest, t, InTick(TickLockCommit), loc, s);
    turns' := Execute(n, turns', rest, t, InTick(TickCommit), loc, map[GameStateMutex := t], s);
    turns' := Release(n, turns', rest, t, InTick(TickUnlockCommit), loc,
                      s.(gameState := Some(loc.work), history := s.history + [Commit(loc.base, loc.delta, loc.work)]));
  }

  // A network thread that learns it is master and creates the game state, up to the statement
  // that locks the inputs.
  lemma CreateState(n: nat, turns: seq<Turn>, rest: seq<Thread>, t: nat, loc: Locals, s: Shared) returns (turns': seq<Turn>)
    requires Stands(n, turns, rest, t, InNet(InfoLock), loc, map[], s) && loc.message.isMaster && s.gameState.None?
    ensures Stands(n, turns', rest, t, InNet(InitLockInputs), loc, map[], s.(userInfo := Some(loc.message), gameState := Some(ZERO_STATE)))
  {
    var s1 := s.(userInfo := Some(loc.message));
    turns' := Acquire(n, turns, rest, t, InNet(InfoLock), loc, s);
    turns' := Execute(n, turns', rest, t, InNet(InfoStore), loc, map[UserInfoMutex := t], s);
    turns' := Release(n, turns', rest, t, InNet(InfoUnlock), loc, s1);
    turns' := Choose(n, turns', rest, t, InNet(InfoRole), loc, map[], s1);
    turns' := Acquire(n, turns', rest, t, InNet(InitLockState), loc, s1);
    turns' := Execute(n, turns', rest, t, InNet(InitState), loc, map[GameStateMutex := t], s1);
    turns' := Release(n, turns', rest, t, InNet(InitUnlockState), loc, s1.(gameState := Some(ZERO_STATE)));
  }

  lemma CreateInputs(n: nat, turns: seq<Turn>, rest: seq<Thread>, t: nat, loc: Locals, s: Shared) returns (turns': seq<Turn>)
    requires Stands(n, turns, rest, t, InNet(InitLockInputs), loc, map[], s) && s.lastInputs.None?
    ensures Stands(n, turns', rest, t, Done, loc, map[], s.(lastInputs := Some(ZERO_INPUTS)))
  {
    turns' := Acquire(n, turns, rest, t, InNet(InitLockInputs), loc, s);
    turns' := Choose(n, turns', rest, t, InNet(InitAlloc), loc, map[InputsMutex := t], s);
    turns' := Execute(n, turns', rest, t, InNet(InitInputs), loc, map[InputsMutex := t], s);
    turns' := Release(n, turns', rest, t, InNet(InitUnlockInputs), loc, s.(lastInputs := Some(ZERO_INPUTS)));
  }

  // ---------------------------------------------------------------- an input is lost

  const SOME_LOCALS := Locals(0, UserInput(0, 0), UserInfo(0, true), PlayerInput(0, 0, 0), 0, UserInfo(0, true), ZERO_STATE, false, 0, 0, [], None)

  function TickArgs(input: UserInput): Locals {
    SOME_LOCALS.(input := input)
  }

  lemma {:induction false} TwoFromOneSnapshot(h: seq<Commit>, a: seq<int>, b: seq<int>)
    requires |a| == 8 && |b| == 8 && |h| == 2 && h[0].parent == h[1].parent == 0 && h[0].delta == a && h[1].delta == b
    ensures WellFormed(h) && !Serial(h) && !Survives(h, 2, 0)
    ensures Total(h, 2, 1, false) == a[0] + b[0]
  {
    assert Total(h, 1, 1, false) == Total(h, 0, 1, false) + Amount(h[0].delta, 1, false);
    assert Chained(h, 2) == Chained(h, 0) + {1};
  }

  lemma NewsMarks(n: nat, turns: seq<Turn>, rest: seq<Thread>, t: nat, loc: Locals, s: Shared) returns (turns': seq<Turn>)
    requires Stands(n, turns, rest, t, InNet(NewsCheck), loc, map[GameStateMutex := t], s) && s.gameState.Some?
    ensures Stands(n, turns', rest, t, InNet(NewsUnlock), loc, map[GameStateMutex := t],
                   s.(gameState := Some(MarkExisting(s.gameState.value, loc.message.id))))
  {
    turns' := Choose(n, turns, rest, t, InNet(NewsCheck), loc, map[GameStateMutex := t], s);
    turns' := Execute(n, turns', rest, t, InNet(NewsMark), loc, map[GameStateMutex := t], s);
  }

  // An idle thread processes the news of a slave.
  lemma NewsArrives(n: nat, turns: seq<Turn>, threads: seq<Thread>, t: nat, slave: UserInfo, s: Shared) returns (turns': seq<Turn>)
    requires After(n, turns) == World(threads, map[], s, false) && t < |threads| && threads[t].Idle? && s.gameState.Some?
    ensures Stands(n, turns', threads, t, Done, SOME_LOCALS.(message := slave), map[],
                   s.(gameState := Some(MarkExisting(s.gameState.value, slave.id))))
  {
    var news := SOME_LOCALS.(message := slave);
    turns' := Start(n, turns, threads, t, InNet(NewsLock), news, s);
    turns' := Acquire(n, turns', threads, t, InNet(NewsLock), news, s);
    turns' := NewsMarks(n, turns', threads, t, news, s);
    turns' := Release(n, turns', threads, t, InNet(NewsUnlock), news,
                      s.(gameState := Some(MarkExisting(s.gameState.value, slave.id))));
  }

  lemma Finish(n: nat, turns: seq<Turn>, threads: seq<Thread>, t: nat, loc: Locals, s: Shared) returns (turns': seq<Turn>)
    requires Stands(n, turns, threads, t, Done, loc, map[], s) && threads[t].Idle?
    ensures After(n, turns') == World(threads, map[], s, false)
  {
    turns' := turns + [Turn(t, Run(0, false))];
    OneTurn(n, turns, Turn(t, Run(0, false)));
    assert threads[t := At(Done, loc)][t := Idle] == threads;
  }

  // An idle thread connects to the server.
  lemma MakeConnection(n: nat, turns: seq<Turn>, threads: seq<Thread>, t: nat, s: Shared) returns (turns': seq<Turn>)
    requires After(n, turns) == World(threads, map[], s, false) && t < |threads| && threads[t].Idle? && !s.link.gone
    ensures After(n, turns') == World(threads, map[], s.(link := LinkEffect(ConnectStore, s.link)), false)
  {
    turns' := Start(n, turns, threads, t, InConn(ConnectTest), SOME_LOCALS, s);
    turns' := Choose(n, turns', threads, t, InConn(ConnectTest), SOME_LOCALS, map[], s);
    turns' := Execute(n, turns', threads, t, InConn(ConnectStore), SOME_LOCALS, map[], s);
    turns' := Finish(n, turns', threads, t, SOME_LOCALS, s.(link := LinkEffect(ConnectStore, s.link)));
  }

  const LINKED := Link(Some(0), 1, {}, false)
  const CONNECTED := Shared(None, None, None, [], [], LINKED, EMPTY_QUEUE)
  const MASTER_READY := Shared(Some(UserInfo(0, true)), Some(ZERO_STATE), Some(ZERO_INPUTS), [], [], LINKED, EMPTY_QUEUE)

  lemma ConnectFirst(n: nat, t: nat) returns (turns: seq<Turn>, threads: seq<Thread>)
    requires t < n
    ensures |threads| == n && forall u :: 0 <= u < n ==> threads[u].Idle?
    ensures After(n, turns) == World(threads, map[], CONNECTED, false)
  {
    threads := seq(n, i => Idle);
    turns := MakeConnection(n, [], threads, t, Initial(n).shared);
  }

  // Thread 2 of three plays the network thread: it connects, learns it is master and initialises.
  lemma InitialiseThree() returns (turns: seq<Turn>, threads: seq<Thread>)
    ensures |threads| == 3 && threads[0].Idle? && threads[1].Idle? && threads[2].Idle?
    ensures After(3, turns) == World(threads, map[], MASTER_READY, false)
  {
    var net := SOME_LOCALS;
    turns, threads := ConnectFirst(3, 2);
    turns := Start(3, turns, threads, 2, InNet(InfoLock), net, CONNECTED);
    turns := CreateState(3, turns, threads, 2, net, CONNECTED);
    turns := CreateInputs(3, turns, threads, 2, net, CONNECTED.(userInfo := Some(net.message), gameState := Some(ZERO_STATE)));
    turns := Finish(3, turns, threads, 2, net, MASTER_READY);
  }

  // Threads 0 and 1 both take their snapshot of the fresh state.
  lemma SnapshotTwice(a: UserInput, b: UserInput)
    returns (turns: seq<Turn>, threads: seq<Thread>, first: Locals, second: Locals)
    ensures |threads| == 3 && After(3, turns) == World(threads, map[], MASTER_READY, false)
    ensures threads[0] == At(InTick(TickOwnInput), first) && threads[1] == At(InTick(TickOwnInput), second)
    ensures first.input == a && second.input == b && first.base == second.base == 0
    ensures first.work == ZERO_STATE && second.work == ZERO_STATE && first.ticks == 0 && second.ticks == 0
  {
    turns, threads := InitialiseThree();
    turns := Start(3, turns, threads, 0, InTick(TickLockUi), TickArgs(a), MASTER_READY);
    turns, first := ReachSnapshot(3, turns, threads, 0, TickArgs(a), MASTER_READY);
    threads := threads[0 := At(InTick(TickOwnInput), first)];
    turns := Start(3, turns, threads, 1, InTick(TickLockUi), TickArgs(b), MASTER_READY);
    turns, second := ReachSnapshot(3, turns, threads, 1, TickArgs(b), MASTER_READY);
    threads := threads[1 := At(InTick(TickOwnInput), second)];
  }

  // A thread that has its snapshot finishes its tick undisturbed.
  lemma FinishTick(turns: seq<Turn>, threads: seq<Thread>, t: nat, loc: Locals, s: Shared)
    returns (turns': seq<Turn>, threads': seq<Thread>, s': Shared)
    requires |threads| == 3 && t < 3 && After(3, turns) == World(threads, map[], s, false)
    requires threads[t] == At(InTick(TickOwnInput), loc) && s.gameState.Some? && s.lastInputs == Some(ZERO_INPUTS)
    ensures |threads'| == 3 && After(3, turns') == World(threads', map[], s', false)
    ensures forall u :: 0 <= u < 3 && u != t ==> threads'[u] == threads[u]
    ensures s'.gameState.Some?
    ensures s' == s.(gameState := Some(OthersInputs(OwnInput(loc.work, loc.ticks, loc.input), ZERO_INPUTS)),
                     history := s.history + [Commit(loc.base, DeltaOf(loc.input, ZERO_INPUTS), s'.gameState.value)])
  {
    assert threads[t := At(InTick(TickOwnInput), loc)] == threads;
    var loc';
    turns', loc' := ReachCommit(3, turns, threads, t, loc, s);
    turns' := PassCommit(3, turns', threads, t, loc', s);
    threads' := threads[t := At(InTick(TickLockSend), loc')];
    s' := After(3, turns').shared;
  }

  // Two ticks whose snapshots both precede the first commit: whatever the first user typed, the
  // state is as if only the second tick had happened.
  lemma OverlappingTicksLoseInput(a: UserInput, b: UserInput) returns (turns: seq<Turn>)
    ensures var s := After(3, turns).shared;
            && |s.history| == 2 && WellFormed(s.history) && !Serial(s.history) && !Survives(s.history, 2, 0)
            && Total(s.history, 2, 1, false) == a.x + b.x
            && s.gameState == Some(ZERO_STATE.(pos1 := PlayerPos(true, b.x, b.y)))
  {
    var threads, first, second, s;
    turns, threads, first, second := SnapshotTwice(a, b);
    turns, threads, s := FinishTick(turns, threads, 0, first, MASTER_READY);
    turns, threads, s := FinishTick(turns, threads, 1, second, s);
    TwoFromOneSnapshot(s.history, DeltaOf(a, ZERO_INPUTS), DeltaOf(b, ZERO_INPUTS));
  }

  // Thread 1 of two plays the network thread, between its two allocations.
  lemma HalfInitialise() returns (turns: seq<Turn>, threads: seq<Thread>)
    ensures |threads| == 2 && threads[0].Idle?
    ensures After(2, turns) == World(threads, map[], HALF_READY, false)
  {
    turns, threads := ConnectFirst(2, 1);
    turns := Start(2, turns, threads, 1, InNet(InfoLock), SOME_LOCALS, CONNECTED);
    turns := CreateState(2, turns, threads, 1, SOME_LOCALS, CONNECTED);
    threads := threads[1 := At(InNet(InitLockInputs), SOME_LOCALS)];
  }

  const HALF_READY := CONNECTED.(userInfo := Some(UserInfo(0, true)), gameState := Some(ZERO_STATE))

  // A tick up to the reading of the inputs.
  lemma ReachInputs(n: nat, turns: seq<Turn>, rest: seq<Thread>, t: nat, loc: Locals, s: Shared)
    returns (turns': seq<Turn>, loc': Locals)
    requires Stands(n, turns, rest, t, InTick(TickOwnInput), loc, map[], s)
    ensures Stands(n, turns', rest, t, InTick(TickAddInputs), loc', map[InputsMutex := t], s)
  {
    turns' := Execute(n, turns, rest, t, InTick(TickOwnInput), loc, map[], s);
    loc' := LocalEffect(InTick(TickOwnInput), s, loc, 0);
    turns' := Acquire(n, turns', rest, t, InTick(TickLockInputs), loc', s);
  }

  // A tick between the creation of the game state and that of the inputs crashes.
  lemma TickDuringInitCrashes(input: UserInput) returns (turns: seq<Turn>)
    ensures After(2, turns).crashed && After(2, turns).shared.lastInputs.None?
  {
    var threads, loc;
    turns, threads := HalfInitialise();
    turns := Start(2, turns, threads, 0, InTick(TickLockUi), TickArgs(input), HALF_READY);
    turns, loc := ReachSnapshot(2, turns, threads, 0, TickArgs(input), HALF_READY);
    turns, loc := ReachInputs(2, turns, threads, 0, loc, HALF_READY);
    turns := Crash(2, turns, threads, 0, InTick(TickAddInputs), loc, map[InputsMutex := 0], HALF_READY);
  }

  lemma Crash(n: nat, turns: seq<Turn>, rest: seq<Thread>, t: nat, l: Label, loc: Locals, owner: map<Mutex, nat>, s: Shared)
    returns (turns': seq<Turn>)
    requires Stands(n, turns, rest, t, l, loc, owner, s) && Code(l).Do? && !l.InQueue? && Faults(l, s, loc)
    ensures After(n, turns') == World(rest[t := At(l, loc)], owner, s, true)
  {
    turns' := turns + [Turn(t, Run(0, false))];
    OneTurn(n, turns, Turn(t, Run(0, false)));
  }

  // ---------------------------------------------------------------- the connection

  // The exit command before any connection: the disconnect follows a NULL peer.
  lemma ExitBeforeConnectCrashes() returns (turns: seq<Turn>)
    ensures After(1, turns).crashed && After(1, turns).shared.link == NO_LINK
  {
    var threads, s := seq(1, i => Idle), Initial(1).shared;
    turns := Start(1, [], threads, 0, InConn(DropTest), SOME_LOCALS, s);
    turns := Choose(1, turns, threads, 0, InConn(DropTest), SOME_LOCALS, map[], s);
    turns := Crash(1, turns, threads, 0, InConn(DropNotify), SOME_LOCALS, map[], s);
  }

  // From the commit of a master's tick to the copy of the state.
  lemma ReachCopy(n: nat, turns: seq<Turn>, rest: seq<Thread>, t: nat, loc: Locals, s: Shared) returns (turns': seq<Turn>)
    requires Stands(n, turns, rest, t, InTick(TickLockSend), loc, map[], s) && s.gameState.Some?
    ensures Stands(n, turns', rest, t, InTick(TickUnlockSend), loc.(work := s.gameState.value, base := |s.history|), map[GameStateMutex := t], s)
  {
    turns' := Acquire(n, turns, rest, t, InTick(TickLockSend), loc, s);
    turns' := Choose(n, turns', rest, t, InTick(TickCheckSend), loc, map[GameStateMutex := t], s);
    turns' := Execute(n, turns', rest, t, InTick(TickCopySend), loc, map[GameStateMutex := t], s);
  }

  // From the commit of a master's tick to the sending.
  lemma ReachSend(n: nat, turns: seq<Turn>, rest: seq<Thread>, t: nat, loc: Locals, s: Shared)
    returns (turns': seq<Turn>, loc': Locals)
    requires Stands(n, turns, rest, t, InTick(TickLockSend), loc, map[], s) && s.gameState.Some?
    ensures loc'.peer == s.link.peer
    ensures Stands(n, turns', rest, t, InTick(TickSend), loc', map[], s)
  {
    turns' := ReachCopy(n, turns, rest, t, loc, s);
    var loc1 := loc.(work := s.gameState.value, base := |s.history|);
    turns' := Release(n, turns', rest, t, InTick(TickUnlockSend), loc1, s);
    turns' := Execute(n, turns', rest, t, InTick(TickReadPeer), loc1, map[], s);
    loc' := loc1.(peer := s.link.peer);
  }

  // An idle thread of three ticks up to the sending.
  lemma TickUpToSend(turns: seq<Turn>, threads: seq<Thread>, t: nat, input: UserInput, s: Shared)
    returns (turns': seq<Turn>, threads': seq<Thread>, s': Shared)
    requires |threads| == 3 && t < 3 && After(3, turns) == World(threads, map[], s, false) && threads[t].Idle?
    requires s.userInfo.Some? && s.userInfo.value.isMaster && s.gameState.Some? && s.lastInputs == Some(ZERO_INPUTS)
    ensures |threads'| == 3 && After(3, turns') == World(threads', map[], s', false)
    ensures forall u :: 0 <= u < 3 && u != t ==> threads'[u] == threads[u]
    ensures threads'[t].At? && threads'[t].pc == InTick(TickSend) && threads'[t].loc.peer == s.link.peer
    ensures s'.userInfo == s.userInfo && s'.gameState.Some? && s'.lastInputs == s.lastInputs && s'.link == s.link
  {
    var loc;
    turns' := Start(3, turns, threads, t, InTick(TickLockUi), TickArgs(input), s);
    turns', loc := ReachSnapshot(3, turns', threads, t, TickArgs(input), s);
    turns', loc := ReachCommit(3, turns', threads, t, loc, s);
    turns' := PassCommit(3, turns', threads, t, loc, s);
    s' := s.(gameState := Some(loc.work), history := s.history + [Commit(loc.base, loc.delta, loc.work)]);
    turns', loc := ReachSend(3, turns', threads, t, loc, s');
    threads' := threads[t := At(InTick(TickSend), loc)];
  }

  // The disconnect command up to the destruction of the host.
  lemma DropUpToDestroyed(n: nat, turns: seq<Turn>, threads: seq<Thread>, t: nat, s: Shared) returns (turns': seq<Turn>)
    requires After(n, turns) == World(threads, map[], s, false) && t < |threads| && threads[t].Idle? && s.link == LINKED
    ensures Stands(n, turns', threads, t, InConn(DropClear), SOME_LOCALS, map[], s.(link := LINKED.(freed := {0})))
  {
    turns' := Start(n, turns, threads, t, InConn(DropTest), SOME_LOCALS, s);
    turns' := Choose(n, turns', threads, t, InConn(DropTest), SOME_LOCALS, map[], s);
    turns' := Execute(n, turns', threads, t, InConn(DropNotify), SOME_LOCALS, map[], s);
    turns' := Execute(n, turns', threads, t, InConn(DropDestroy), SOME_LOCALS, map[], s);
    assert LinkEffect(DropDestroy, LINKED) == LINKED.(freed := {0});
  }

  // The exit command while a tick is about to send: it sends through the peer just freed,
  // although everything a tick needs was allocated.
  lemma ExitDuringTickCrashes(input: UserInput) returns (turns: seq<Turn>)
    ensures After(3, turns).crashed && After(3, turns).shared.lastInputs.Some? && After(3, turns).shared.link.made == 1
  {
    var threads, s;
    turns, threads := InitialiseThree();
    turns, threads, s := TickUpToSend(turns, threads, 0, input, MASTER_READY);
    turns := DropUpToDestroyed(3, turns, threads, 2, s);
    var loc, s' := threads[0].loc, s.(link := LINKED.(freed := {0}));
    var rest := threads[2 := At(InConn(DropClear), SOME_LOCALS)];
    assert rest[0 := At(InTick(TickSend), loc)] == rest;
    turns := Crash(3, turns, rest, 0, InTick(TickSend), loc, map[], s');
  }

  // Two ticks and the network thread, all about to use the same connection at once.
  lemma ThreeThreadsInNetwork(a: UserInput, b: UserInput) returns (turns: seq<Turn>)
    ensures var w := After(3, turns);
            && !w.crashed && w.shared.link == LINKED
            && forall t :: 0 <= t < 3 ==> w.threads[t].At? && (Sends(w.threads[t].pc) || NeedsPeer(w.threads[t].pc))
  {
    var threads, s;
    turns, threads := InitialiseThree();
    turns, threads, s := TickUpToSend(turns, threads, 0, a, MASTER_READY);
    turns, threads, s := TickUpToSend(turns, threads, 1, b, s);
    turns := Start(3, turns, threads, 2, InConn(UseTest), SOME_LOCALS, s);
    turns := Choose(3, turns, threads, 2, InConn(UseTest), SOME_LOCALS, map[], s);
  }
}
