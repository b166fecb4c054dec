/**
 * One call at a time: a function run by one thread while no other moves does what the atomic
 * client does, so that every run of the atomic client is one of the schedules; and the calls of
 * the queue and of the connection do what they are for.
 */
module ThreadsAlone {
  import opened Base
  import opened Protocol
  import opened Client
  import opened Threads
  import opened ThreadsRuns

  function Data(s: Shared): ClientState {
    ClientState(s.userInfo, s.gameState, s.lastInputs)
  }

  // What was handed to the network, in bytes.
  function Packet(x: Sent): Bytes {
    match x
    case SentState(g, _) => [TypeCode(GameStateUpd)] + PackGameState(g)
    case SentInput(p) => [TypeCode(PlayerInputMsg)] + PackPlayerInput(p)
  }

  function Packets(sent: seq<Sent>): (packets: seq<Bytes>)
    ensures |packets| == |sent|
  {
    seq(|sent|, i requires 0 <= i < |sent| => Packet(sent[i]))
  }

  // No thread is inside a function or holds a mutex but those in `threads`, and t is idle.
  ghost predicate Quiet(n: nat, turns: seq<Turn>, threads: seq<Thread>, t: nat, s: Shared) {
    After(n, turns) == World(threads, map[], s, false) && t < |threads| && threads[t].Idle?
  }

  // ---------------------------------------------------------------- ticks

  // The connection is up, and nothing else changed but what the atomic tick changes and sends.
  ghost predicate Ticked(s: Shared, s': Shared, ticks: UInt32, input: UserInput) {
    && Data(s') == Tick(Data(s), ticks, input)
    && s'.link == s.link && s'.queue == s.queue
    && Packets(s'.sent) == Packets(s.sent) + match TickPacket(Data(s), ticks, input) case Some(p) => [p] case None => []
  }

  predicate IsUp(link: Link) {
    link.peer.Some? && !Dangling(link, link.peer) && !link.gone
  }

  // The tick fails before it does anything.
  lemma UnreadyTick(n: nat, turns: seq<Turn>, rest: seq<Thread>, t: nat, loc: Locals, s: Shared) returns (turns': seq<Turn>)
    requires Stands(n, turns, rest, t, InTick(TickLockUi), loc, map[], s) && s.userInfo.None?
    ensures Stands(n, turns', rest, t, Done, loc, map[], s)
  {
    turns' := Acquire(n, turns, rest, t, InTick(TickLockUi), loc, s);
    turns' := Choose(n, turns', rest, t, InTick(TickCheckUi), loc, map[UserInfoMutex := t], s);
    turns' := Release(n, turns', rest, t, InTick(TickUiMissing), loc, s);
  }

  // The role of a slave leads to the slave's tick.
  lemma PassSlaveRole(n: nat, turns: seq<Turn>, rest: seq<Thread>, t: nat, loc: Locals, s: Shared) returns (turns': seq<Turn>)
    requires Stands(n, turns, rest, t, InTick(TickLockUi), loc, map[], s)
    requires s.userInfo.Some? && !s.userInfo.value.isMaster
    ensures Stands(n, turns', rest, t, InUser(SlaveLockUi), loc.(myInfo := s.userInfo.value), map[], s)
  {
    turns' := Acquire(n, turns, rest, t, InTick(TickLockUi), loc, s);
    turns' := Choose(n, turns', rest, t, InTick(TickCheckUi), loc, map[UserInfoMutex := t], s);
    turns' := Execute(n, turns', rest, t, InTick(TickCopyUi), loc, map[UserInfoMutex := t], s);
    var loc' := loc.(myInfo := s.userInfo.value);
    turns' := Release(n, turns', rest, t, InTick(TickUnlockUi), loc', s);
    turns' := Choose(n, turns', rest, t, InTick(TickRole), loc', map[], s);
  }

  lemma SlaveTick(n: nat, turns: seq<Turn>, rest: seq<Thread>, t: nat, loc: Locals, s: Shared)
    returns (turns': seq<Turn>, loc': Locals)
    requires Stands(n, turns, rest, t, InUser(SlaveLockUi), loc, map[], s) && s.userInfo.Some? && IsUp(s.link)
    ensures Stands(n, turns', rest, t, Done, loc', map[],
                   s.(sent := s.sent + [SentInput(PlayerInput(s.userInfo.value.id, loc.input.x, loc.input.y))]))
  {
    turns' := Acquire(n, turns, rest, t, InUser(SlaveLockUi), loc, s);
    turns' := Execute(n, turns', rest, t, InUser(SlaveReadId), loc, map[UserInfoMutex := t], s);
    var loc1 := loc.(myInfo := s.userInfo.value);
    turns' := Release(n, turns', rest, t, InUser(SlaveUnlockUi), loc1, s);
    turns' := Execute(n, turns', rest, t, InUser(SlaveReadPeer), loc1, map[], s);
    loc' := loc1.(peer := s.link.peer);
    turns' := Execute(n, turns', rest, t, InUser(SlaveSend), loc', map[], s);
  }

  // A master whose game state is not there yet.
  lemma StatelessTick(n: nat, turns: seq<Turn>, rest: seq<Thread>, t: nat, loc: Locals, s: Shared)
    returns (turns': seq<Turn>, loc': Locals)
    requires Stands(n, turns, rest, t, InTick(TickLockUi), loc, map[], s)
    requires s.userInfo.Some? && s.userInfo.value.isMaster && s.gameState.None?
    ensures Stands(n, turns', rest, t, Done, loc', map[], s)
  {
    turns' := PassRole(n, turns, rest, t, loc, s);
    loc' := loc.(myInfo := s.userInfo.value);
    turns' := Acquire(n, turns', rest, t, InTick(TickLockState), loc', s);
    turns' := Choose(n, turns', rest, t, InTick(TickCheckState), loc', map[GameStateMutex := t], s);
    turns' := Release(n, turns', rest, t, InTick(TickStateMissing), loc', s);
  }

  lemma MasterTick(n: nat, turns: seq<Turn>, rest: seq<Thread>, t: nat, loc: Locals, s: Shared)
    returns (turns': seq<Turn>, loc': Locals, s': Shared)
    requires Stands(n, turns, rest, t, InTick(TickLockUi), loc, map[], s) && TickReady(Data(s)) && IsUp(s.link)
    ensures Stands(n, turns', rest, t, Done, loc', map[], s')
    ensures s'.gameState == Tick(Data(s), loc.ticks, loc.input).gameState
    ensures s' == s.(gameState := s'.gameState, history := s'.history,
                     sent := s.sent + [SentState(s'.gameState.value, |s'.history|)])
  {
    var g := OthersInputs(OwnInput(s.gameState.value, loc.ticks, loc.input), s.lastInputs.value);
    turns', loc' := ReachSnapshot(n, turns, rest, t, loc, s);
    turns', loc' := ReachCommit(n, turns', rest, t, loc', s);
    assert loc'.work == g;
    turns' := PassCommit(n, turns', rest, t, loc', s);
    var s1 := s.(gameState := Some(g), history := s.history + [Commit(loc'.base, loc'.delta, loc'.work)]);
    turns', loc' := SendState(n, turns', rest, t, loc', s1);
    s' := s1.(sent := s.sent + [SentState(g, |s1.history|)]);
  }

  lemma SendState(n: nat, turns: seq<Turn>, rest: seq<Thread>, t: nat, loc: Locals, s: Shared)
    returns (turns': seq<Turn>, loc': Locals)
    requires Stands(n, turns, rest, t, InTick(TickLockSend), loc, map[], s) && s.gameState.Some? && IsUp(s.link)
    ensures Stands(n, turns', rest, t, Done, loc', map[], s.(sent := s.sent + [SentState(s.gameState.value, |s.history|)]))
  {
    turns' := ReachCopy(n, turns, rest, t, loc, s);
    var loc1 := loc.(work := s.gameState.value, base := |s.history|);
    turns' := Release(n, turns', rest, t, InTick(TickUnlockSend), loc1, s);
    turns' := Execute(n, turns', rest, t, InTick(TickReadPeer), loc1, map[], s);
    loc' := loc1.(peer := s.link.peer);
    turns' := Execute(n, turns', rest, t, InTick(TickSend), loc', map[], s);
  }

  lemma OnePacketMore(sent: seq<Sent>, x: Sent)
    ensures Packets(sent + [x]) == Packets(sent) + [Packet(x)]
  {
  }

  lemma RunTick(n: nat, turns: seq<Turn>, rest: seq<Thread>, t: nat, loc: Locals, s: Shared)
    returns (turns': seq<Turn>, loc': Locals, s': Shared)
    requires Stands(n, turns, rest, t, InTick(TickLockUi), loc, map[], s) && IsUp(s.link)
    requires IsMaster(Data(s)) && s.gameState.Some? ==> TickReady(Data(s))
    ensures Stands(n, turns', rest, t, Done, loc', map[], s') && Ticked(s, s', loc.ticks, loc.input)
  {
    s' := s;
    if s.userInfo.None? {
      turns' := UnreadyTick(n, turns, rest, t, loc, s);
      loc' := loc;
    } else if !s.userInfo.value.isMaster {
      var p := PlayerInput(s.userInfo.value.id, loc.input.x, loc.input.y);
      turns' := PassSlaveRole(n, turns, rest, t, loc, s);
      turns', loc' := SlaveTick(n, turns', rest, t, loc.(myInfo := s.userInfo.value), s);
      s' := s.(sent := s.sent + [SentInput(p)]);
      OnePacketMore(s.sent, SentInput(p));
    } else if s.gameState.None? {
      turns', loc' := StatelessTick(n, turns, rest, t, loc, s);
    } else {
      turns', loc', s' := MasterTick(n, turns, rest, t, loc, s);
      OnePacketMore(s.sent, SentState(s'.gameState.value, |s'.history|));
    }
  }

  // A whole call of try_execute_tick, alone, is the atomic tick.
  lemma TickAlone(n: nat, turns: seq<Turn>, threads: seq<Thread>, t: nat, args: Locals, s: Shared)
    returns (turns': seq<Turn>, s': Shared)
    requires Quiet(n, turns, threads, t, s) && IsUp(s.link) && (IsMaster(Data(s)) && s.gameState.Some? ==> TickReady(Data(s)))
    ensures Quiet(n, turns', threads, t, s') && Ticked(s, s', args.ticks, args.input)
  {
    var loc;
    turns' := Start(n, turns, threads, t, InTick(TickLockUi), args, s);
    turns', loc, s' := RunTick(n, turns', threads, t, args, s);
    turns' := Finish(n, turns', threads, t, loc, s');
  }

  // One turn of the frame loop, alone: a tick exactly when the user information is there.
  lemma FrameAlone(n: nat, turns: seq<Turn>, threads: seq<Thread>, t: nat, args: Locals, s: Shared)
    returns (turns': seq<Turn>, s': Shared)
    requires Quiet(n, turns, threads, t, s) && IsUp(s.link) && (IsMaster(Data(s)) && s.gameState.Some? ==> TickReady(Data(s)))
    ensures Quiet(n, turns', threads, t, s')
    ensures if s.userInfo.None? then s' == s else Ticked(s, s', args.ticks, args.input)
  {
    turns' := Start(n, turns, threads, t, InUser(ReadyLock), args, s);
    turns' := Acquire(n, turns', threads, t, InUser(ReadyLock), args, s);
    turns' := Execute(n, turns', threads, t, InUser(ReadyRead), args, map[UserInfoMutex := t], s);
    var loc := args.(ready := s.userInfo.Some?);
    turns' := Release(n, turns', threads, t, InUser(ReadyUnlock), loc, s);
    turns' := Choose(n, turns', threads, t, InUser(ReadyTest), loc, map[], s);
    s' := s;
    if s.userInfo.Some? {
      turns', loc, s' := RunTick(n, turns', threads, t, loc, s);
    }
    turns' := Finish(n, turns', threads, t, loc, s');
  }

  // ---------------------------------------------------------------- deliveries

  lemma StoreInfo(n: nat, turns: seq<Turn>, rest: seq<Thread>, t: nat, loc: Locals, s: Shared) returns (turns': seq<Turn>)
    requires Stands(n, turns, rest, t, InNet(InfoLock), loc, map[], s)
    ensures Stands(n, turns', rest, t, if loc.message.isMaster then InNet(InitLockState) else Done, loc, map[],
                   s.(userInfo := Some(loc.message)))
  {
    turns' := Acquire(n, turns, rest, t, InNet(InfoLock), loc, s);
    turns' := Execute(n, turns', rest, t, InNet(InfoStore), loc, map[UserInfoMutex := t], s);
    turns' := Release(n, turns', rest, t, InNet(InfoUnlock), loc, s.(userInfo := Some(loc.message)));
    turns' := Choose(n, turns', rest, t, InNet(InfoRole), loc, map[], s.(userInfo := Some(loc.message)));
  }

  lemma Initialise(n: nat, turns: seq<Turn>, rest: seq<Thread>, t: nat, loc: Locals, s: Shared) returns (turns': seq<Turn>)
    requires Stands(n, turns, rest, t, InNet(InitLockState), loc, map[], s)
    ensures var c := InitByMaster(Data(s));
            Stands(n, turns', rest, t, Done, loc, map[], s.(gameState := c.gameState, lastInputs := c.lastInputs))
  {
    var c := InitByMaster(Data(s));
    turns' := Acquire(n, turns, rest, t, InNet(InitLockState), loc, s);
    turns' := Execute(n, turns', rest, t, InNet(InitState), loc, map[GameStateMutex := t], s);
    var s1 := s.(gameState := c.gameState);
    turns' := Release(n, turns', rest, t, InNet(InitUnlockState), loc, s1);
    turns' := Acquire(n, turns', rest, t, InNet(InitLockInputs), loc, s1);
    turns' := Choose(n, turns', rest, t, InNet(InitAlloc), loc, map[InputsMutex := t], s1);
    turns' := Execute(n, turns', rest, t, InNet(InitInputs), loc, map[InputsMutex := t], s1);
    turns' := Release(n, turns', rest, t, InNet(InitUnlockInputs), loc, s1.(lastInputs := c.lastInputs));
  }

  // If the inputs cannot be allocated, the game state is all a new master gets.
  lemma AllocationFails(n: nat, turns: seq<Turn>, rest: seq<Thread>, t: nat, loc: Locals, s: Shared) returns (turns': seq<Turn>)
    requires Stands(n, turns, rest, t, InNet(InitLockState), loc, map[], s) && s.lastInputs.None?
    ensures Stands(n, turns', rest, t, Done, loc, map[], s.(gameState := InitByMaster(Data(s)).gameState))
  {
    turns' := Acquire(n, turns, rest, t, InNet(InitLockState), loc, s);
    turns' := Execute(n, turns', rest, t, InNet(InitState), loc, map[GameStateMutex := t], s);
    var s1 := s.(gameState := InitByMaster(Data(s)).gameState);
    turns' := Release(n, turns', rest, t, InNet(InitUnlockState), loc, s1);
    turns' := Acquire(n, turns', rest, t, InNet(InitLockInputs), loc, s1);
    turns' := Fail(n, turns', rest, t, InNet(InitAlloc), loc, map[InputsMutex := t], s1);
    turns' := Release(n, turns', rest, t, InNet(InitFailed), loc, s1);
  }

  lemma InfoAlone(n: nat, turns: seq<Turn>, rest: seq<Thread>, t: nat, loc: Locals, s: Shared) returns (turns': seq<Turn>)
    requires Stands(n, turns, rest, t, InNet(InfoLock), loc, map[], s)
    ensures var c := Deliver(Data(s), OwnInfo(loc.message));
            Stands(n, turns', rest, t, Done, loc, map[], s.(userInfo := c.userInfo, gameState := c.gameState, lastInputs := c.lastInputs))
  {
    turns' := StoreInfo(n, turns, rest, t, loc, s);
    if loc.message.isMaster {
      turns' := Initialise(n, turns', rest, t, loc, s.(userInfo := Some(loc.message)));
    }
  }

  lemma NewsAlone(n: nat, turns: seq<Turn>, rest: seq<Thread>, t: nat, loc: Locals, s: Shared) returns (turns': seq<Turn>)
    requires Stands(n, turns, rest, t, InNet(NewsLock), loc, map[], s)
    ensures Stands(n, turns', rest, t, Done, loc, map[], s.(gameState := Deliver(Data(s), SlaveNews(loc.message)).gameState))
  {
    turns' := Acquire(n, turns, rest, t, InNet(NewsLock), loc, s);
    if s.gameState.Some? {
      turns' := NewsMarks(n, turns', rest, t, loc, s);
      turns' := Release(n, turns', rest, t, InNet(NewsUnlock), loc,
                        s.(gameState := Some(MarkExisting(s.gameState.value, loc.message.id))));
    } else {
      turns' := Choose(n, turns', rest, t, InNet(NewsCheck), loc, map[GameStateMutex := t], s);
      turns' := Release(n, turns', rest, t, InNet(NewsMissing), loc, s);
    }
  }

  lemma InputAlone(n: nat, turns: seq<Turn>, rest: seq<Thread>, t: nat, loc: Locals, s: Shared) returns (turns': seq<Turn>)
    requires Stands(n, turns, rest, t, InNet(InputRole), loc, map[], s)
    requires IsMaster(Data(s)) ==> s.lastInputs.Some? && |s.lastInputs.value| == OTHERS_COUNT
    ensures Stands(n, turns', rest, t, Done, loc, map[], s.(lastInputs := Deliver(Data(s), Input(loc.slaveInput)).lastInputs))
  {
    turns' := Choose(n, turns, rest, t, InNet(InputRole), loc, map[], s);
    if IsMaster(Data(s)) {
      turns' := Acquire(n, turns', rest, t, InNet(InputLock), loc, s);
      turns' := Execute(n, turns', rest, t, InNet(InputStore), loc, map[InputsMutex := t], s);
      turns' := Release(n, turns', rest, t, InNet(InputUnlock), loc,
                        s.(lastInputs := Some(StoreInput(s.lastInputs.value, loc.slaveInput))));
    }
  }

  // Nothing but the data of the client changed.
  ghost predicate Delivered(s: Shared, s': Shared, content: Content) {
    && Data(s') == Deliver(Data(s), content)
    && s' == s.(userInfo := s'.userInfo, gameState := s'.gameState, lastInputs := s'.lastInputs)
  }

  // A whole delivery, alone, is the atomic delivery.
  lemma DeliveryAlone(n: nat, turns: seq<Turn>, threads: seq<Thread>, t: nat, content: Content, s: Shared)
    returns (turns': seq<Turn>, s': Shared)
    requires Quiet(n, turns, threads, t, s)
    requires content.Input? && IsMaster(Data(s)) ==> s.lastInputs.Some? && |s.lastInputs.value| == OTHERS_COUNT
    ensures Quiet(n, turns', threads, t, s') && Delivered(s, s', content)
  {
    var c := Deliver(Data(s), content);
    s' := s.(userInfo := c.userInfo, gameState := c.gameState, lastInputs := c.lastInputs);
    match content {
      case OwnInfo(u) =>
        turns' := Start(n, turns, threads, t, InNet(InfoLock), SOME_LOCALS.(message := u), s);
        turns' := InfoAlone(n, turns', threads, t, SOME_LOCALS.(message := u), s);
        turns' := Finish(n, turns', threads, t, SOME_LOCALS.(message := u), s');
      case SlaveNews(u) =>
        turns' := Start(n, turns, threads, t, InNet(NewsLock), SOME_LOCALS.(message := u), s);
        turns' := NewsAlone(n, turns', threads, t, SOME_LOCALS.(message := u), s);
        turns' := Finish(n, turns', threads, t, SOME_LOCALS.(message := u), s');
      case Input(p) =>
        turns' := Start(n, turns, threads, t, InNet(InputRole), SOME_LOCALS.(slaveInput := p), s);
        turns' := InputAlone(n, turns', threads, t, SOME_LOCALS.(slaveInput := p), s);
        turns' := Finish(n, turns', threads, t, SOME_LOCALS.(slaveInput := p), s');
      case Nothing => turns' := turns;
    }
  }

  // ---------------------------------------------------------------- every atomic run is a schedule

  // The packets the ticks of a run send.
  function PacketsOf(events: seq<ClientEvent>): seq<Bytes> {
    if events == [] then []
    else
      var before := events[..|events| - 1];
      PacketsOf(before) +
      match events[|events| - 1]
      case TickEvent(ticks, input) =>
        (match TickPacket(AdvanceAll(FRESH_CLIENT, before), ticks, input) case Some(p) => [p] case None => [])
      case _ => []
  }

  // Whatever the atomic client can do, some schedule of the threads does: same data, same packets.
  lemma {:induction false} AtomicRunIsASchedule(n: nat, t: nat, events: seq<ClientEvent>)
    returns (turns: seq<Turn>, threads: seq<Thread>, s: Shared)
    requires t < n
    ensures Quiet(n, turns, threads, t, s) && s.link == LINKED
    ensures Data(s) == AdvanceAll(FRESH_CLIENT, events) && Packets(s.sent) == PacketsOf(events)
  {
    if events == [] {
      s := CONNECTED;
      turns, threads := ConnectFirst(n, t);
    } else {
      var before, e, s1 := events[..|events| - 1], events[|events| - 1], CONNECTED;
      turns, threads, s1 := AtomicRunIsASchedule(n, t, before);
      RunsKeepInvAndExistence(FRESH_CLIENT, before, 1);
      match e {
        case Delivery(content) =>
          turns, s := DeliveryAlone(n, turns, threads, t, content, s1);
        case TickEvent(ticks, input) =>
          turns, s := TickAlone(n, turns, threads, t, SOME_LOCALS.(ticks := ticks, input := input), s1);
      }
    }
  }

  // ---------------------------------------------------------------- the connection

  // Connecting, when the attempt succeeds and the client has not disconnected.
  lemma ConnectAlone(n: nat, turns: seq<Turn>, threads: seq<Thread>, t: nat, s: Shared) returns (turns': seq<Turn>, s': Shared)
    requires Quiet(n, turns, threads, t, s)
    ensures Quiet(n, turns', threads, t, s')
    ensures s' == if s.link.gone then s else s.(link := Link(Some(s.link.made), s.link.made + 1, s.link.freed, false))
  {
    s' := s;
    turns' := Start(n, turns, threads, t, InConn(ConnectTest), SOME_LOCALS, s);
    turns' := Choose(n, turns', threads, t, InConn(ConnectTest), SOME_LOCALS, map[], s);
    if !s.link.gone {
      turns' := Execute(n, turns', threads, t, InConn(ConnectStore), SOME_LOCALS, map[], s);
      s' := s.(link := Link(Some(s.link.made), s.link.made + 1, s.link.freed, false));
    }
    turns' := Finish(n, turns', threads, t, SOME_LOCALS, s');
  }

  // A test that an allocation or a connection attempt fails.
  lemma Fail(n: nat, turns: seq<Turn>, rest: seq<Thread>, t: nat, l: Label, loc: Locals, owner: map<Mutex, nat>, s: Shared)
    returns (turns': seq<Turn>)
    requires Stands(n, turns, rest, t, l, loc, owner, s) && Code(l).Branch?
    ensures Stands(n, turns', rest, t, if Test(l, s, loc, true) then Code(l).yes else Code(l).no, loc, owner, s)
  {
    var next := if Test(l, s, loc, true) then Code(l).yes else Code(l).no;
    turns' := turns + [Turn(t, Run(0, true))];
    OneTurn(n, turns, Turn(t, Run(0, true)));
    assert rest[t := At(l, loc)][t := At(next, loc)] == rest[t := At(next, loc)];
  }

  // A failed attempt to connect changes nothing.
  lemma ConnectFails(n: nat, turns: seq<Turn>, threads: seq<Thread>, t: nat, s: Shared)
    requires Quiet(n, turns, threads, t, s)
    ensures Quiet(n, turns + [Turn(t, Begin(InConn(ConnectTest), SOME_LOCALS)), Turn(t, Run(0, true)), Turn(t, Run(0, false))], threads, t, s)
  {
    var begun := turns + [Turn(t, Begin(InConn(ConnectTest), SOME_LOCALS))];
    var failed := begun + [Turn(t, Run(0, true))];
    OneTurn(n, turns, Turn(t, Begin(InConn(ConnectTest), SOME_LOCALS)));
    OneTurn(n, begun, Turn(t, Run(0, true)));
    OneTurn(n, failed, Turn(t, Run(0, false)));
    assert failed + [Turn(t, Run(0, false))]
        == turns + [Turn(t, Begin(InConn(ConnectTest), SOME_LOCALS)), Turn(t, Run(0, true)), Turn(t, Run(0, false))];
    assert After(n, failed + [Turn(t, Run(0, false))]).threads == threads;
  }

  // The disconnect command destroys the connection and is the last thing done to it.
  lemma DisconnectAlone(n: nat, turns: seq<Turn>, threads: seq<Thread>, t: nat, s: Shared) returns (turns': seq<Turn>, s': Shared)
    requires Quiet(n, turns, threads, t, s) && (!s.link.gone ==> IsUp(s.link))
    ensures Quiet(n, turns', threads, t, s')
    ensures s' == if s.link.gone then s
                  else s.(link := Link(None, s.link.made, s.link.freed + {s.link.peer.value}, true))
  {
    s' := s;
    turns' := Start(n, turns, threads, t, InConn(DropTest), SOME_LOCALS, s);
    turns' := Choose(n, turns', threads, t, InConn(DropTest), SOME_LOCALS, map[], s);
    if !s.link.gone {
      turns' := Execute(n, turns', threads, t, InConn(DropNotify), SOME_LOCALS, map[], s);
      turns' := Execute(n, turns', threads, t, InConn(DropDestroy), SOME_LOCALS, map[], s);
      var s1 := s.(link := s.link.(freed := s.link.freed + {s.link.peer.value}));
      turns' := Execute(n, turns', threads, t, InConn(DropClear), SOME_LOCALS, map[], s1);
      s' := s.(link := Link(None, s.link.made, s.link.freed + {s.link.peer.value}, true));
    }
    turns' := Finish(n, turns', threads, t, SOME_LOCALS, s');
  }
}
