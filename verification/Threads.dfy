/**
 * The client's threads at the granularity of single statements between lock operations: every
 * function that takes a mutex or uses the connection becomes a control graph, any number of
 * threads run any of them in any interleaving, and the data they share changes as the
 * statements say.
 */
module Threads {
  import opened Base
  import opened Protocol
  import opened Client

  datatype Mutex = UserInfoMutex | GameStateMutex | InputsMutex | QueueMutex

  // A statement about to be executed. Names give the function: Tick and Slave for
  // try_execute_tick and handle_cmd_slave_tick, Ready for is_user_info_ready, Info and Init for
  // the acceptance of user information, News for handle_on_slave_connected, Input for
  // update_games_state_by_slave_input, Push, Pop and Try for the queue, Take for the statements
  // both pops share, Connect and Drop for handle_cmd_connect_to_host and
  // handle_cmd_disconnect_n_free, Use for the other uses of CLIENT_PEER and CLIENT_HOST by the
  // network thread.
  datatype TickStep =
    | TickLockUi | TickCheckUi | TickUiMissing | TickCopyUi | TickUnlockUi | TickRole
    | TickLockState | TickCheckState | TickStateMissing | TickSnapshot | TickUnlockState
    | TickOwnInput | TickLockInputs | TickAddInputs | TickUnlockInputs
    | TickLockCommit | TickCommit | TickUnlockCommit
    | TickLockSend | TickCheckSend | TickSendMissing | TickCopySend | TickUnlockSend | TickReadPeer | TickSend

  datatype UserStep =
    | SlaveLockUi | SlaveReadId | SlaveUnlockUi | SlaveReadPeer | SlaveSend
    | ReadyLock | ReadyRead | ReadyUnlock | ReadyTest

  datatype NetStep =
    | InfoLock | InfoStore | InfoUnlock | InfoRole
    | InitLockState | InitState | InitUnlockState | InitLockInputs | InitAlloc | InitFailed | InitInputs | InitUnlockInputs
    | NewsLock | NewsCheck | NewsMissing | NewsMark | NewsUnlock
    | InputRole | InputLock | InputStore | InputUnlock

  datatype QueueStep =
    | PushAlloc | PushLock | PushCheckTail | PushLinkTail | PushSetHead | PushSetTail | PushSignal | PushUnlock
    | PopLock | PopCheck | PopWait | PopRecheck
    | TryLock | TryCheck | TryEmpty
    | TakeHead | TakeAdvance | TakeTest | TakeClearTail | TakeFree | TakeUnlock

  datatype ConnStep =
    | ConnectTest | ConnectStore
    | DropTest | DropNotify | DropDestroy | DropClear
    | UseTest | UsePeer

  datatype Label =
    | Done
    | InTick(tick: TickStep)
    | InUser(user: UserStep)
    | InNet(net: NetStep)
    | InQueue(step: QueueStep)
    | InConn(conn: ConnStep)

  datatype Instr =
    | Lock(mutex: Mutex, next: Label)
    | Unlock(mutex: Mutex, next: Label)
    | Branch(yes: Label, no: Label)
    | Do(next: Label)
    | Signal(next: Label)
    | Wait(next: Label)
    | Return

  function TickCode(s: TickStep): Instr {
    match s
    case TickLockUi => Lock(UserInfoMutex, InTick(TickCheckUi))
    case TickCheckUi => Branch(InTick(TickUiMissing), InTick(TickCopyUi))
    case TickUiMissing => Unlock(UserInfoMutex, Done)
    case TickCopyUi => Do(InTick(TickUnlockUi))
    case TickUnlockUi => Unlock(UserInfoMutex, InTick(TickRole))
    case TickRole => Branch(InTick(TickLockState), InUser(SlaveLockUi))
    case TickLockState => Lock(GameStateMutex, InTick(TickCheckState))
    case TickCheckState => Branch(InTick(TickStateMissing), InTick(TickSnapshot))
    case TickStateMissing => Unlock(GameStateMutex, Done)
    case TickSnapshot => Do(InTick(TickUnlockState))
    case TickUnlockState => Unlock(GameStateMutex, InTick(TickOwnInput))
    case TickOwnInput => Do(InTick(TickLockInputs))
    case TickLockInputs => Lock(InputsMutex, InTick(TickAddInputs))
    case TickAddInputs => Do(InTick(TickUnlockInputs))
    case TickUnlockInputs => Unlock(InputsMutex, InTick(TickLockCommit))
    case TickLockCommit => Lock(GameStateMutex, InTick(TickCommit))
    case TickCommit => Do(InTick(TickUnlockCommit))
    case TickUnlockCommit => Unlock(GameStateMutex, InTick(TickLockSend))
    case TickLockSend => Lock(GameStateMutex, InTick(TickCheckSend))
    case TickCheckSend => Branch(InTick(TickSendMissing), InTick(TickCopySend))
    case TickSendMissing => Unlock(GameStateMutex, Done)
    case TickCopySend => Do(InTick(TickUnlockSend))
    case TickUnlockSend => Unlock(GameStateMutex, InTick(TickReadPeer))
    case TickReadPeer => Do(InTick(TickSend))
    case TickSend => Do(Done)
  }

  function UserCode(s: UserStep): Instr {
    match s
    case SlaveLockUi => Lock(UserInfoMutex, InUser(SlaveReadId))
    case SlaveReadId => Do(InUser(SlaveUnlockUi))
    case SlaveUnlockUi => Unlock(UserInfoMutex, InUser(SlaveReadPeer))
    case SlaveReadPeer => Do(InUser(SlaveSend))
    case SlaveSend => Do(Done)
    case ReadyLock => Lock(UserInfoMutex, InUser(ReadyRead))
    case ReadyRead => Do(InUser(ReadyUnlock))
    case ReadyUnlock => Unlock(UserInfoMutex, InUser(ReadyTest))
    case ReadyTest => Branch(InTick(TickLockUi), Done)
  }

  function NetCode(s: NetStep): Instr {
    match s
    case InfoLock => Lock(UserInfoMutex, InNet(InfoStore))
    case InfoStore => Do(InNet(InfoUnlock))
    case InfoUnlock => Unlock(UserInfoMutex, InNet(InfoRole))
    case InfoRole => Branch(InNet(InitLockState), Done)
    case InitLockState => Lock(GameStateMutex, InNet(InitState))
    case InitState => Do(InNet(InitUnlockState))
    case InitUnlockState => Unlock(GameStateMutex, InNet(InitLockInputs))
    case InitLockInputs => Lock(InputsMutex, InNet(InitAlloc))
    case InitAlloc => Branch(InNet(InitFailed), InNet(InitInputs))
    case InitFailed => Unlock(InputsMutex, Done)
    case InitInputs => Do(InNet(InitUnlockInputs))
    case InitUnlockInputs => Unlock(InputsMutex, Done)
    case NewsLock => Lock(GameStateMutex, InNet(NewsCheck))
    case NewsCheck => Branch(InNet(NewsMissing), InNet(NewsMark))
    case NewsMissing => Unlock(GameStateMutex, Done)
    case NewsMark => Do(InNet(NewsUnlock))
    case NewsUnlock => Unlock(GameStateMutex, Done)
    case InputRole => Branch(InNet(InputLock), Done)
    case InputLock => Lock(InputsMutex, InNet(InputStore))
    case InputStore => Do(InNet(InputUnlock))
    case InputUnlock => Unlock(InputsMutex, Done)
  }

  function QueueCode(s: QueueStep): Instr {
    match s
    case PushAlloc => Do(InQueue(PushLock))
    case PushLock => Lock(QueueMutex, InQueue(PushCheckTail))
    case PushCheckTail => Branch(InQueue(PushLinkTail), InQueue(PushSetHead))
    case PushLinkTail => Do(InQueue(PushSetTail))
    case PushSetHead => Do(InQueue(PushSetTail))
    case PushSetTail => Do(InQueue(PushSignal))
    case PushSignal => Signal(InQueue(PushUnlock))
    case PushUnlock => Unlock(QueueMutex, Done)
    case PopLock => Lock(QueueMutex, InQueue(PopCheck))
    case PopCheck => Branch(InQueue(PopWait), InQueue(TakeHead))
    case PopWait => Wait(InQueue(PopRecheck))
    case PopRecheck => Branch(InQueue(PopWait), InQueue(TakeHead))
    case TryLock => Lock(QueueMutex, InQueue(TryCheck))
    case TryCheck => Branch(InQueue(TryEmpty), InQueue(TakeHead))
    case TryEmpty => Unlock(QueueMutex, Done)
    case TakeHead => Do(InQueue(TakeAdvance))
    case TakeAdvance => Do(InQueue(TakeTest))
    case TakeTest => Branch(InQueue(TakeClearTail), InQueue(TakeFree))
    case TakeClearTail => Do(InQueue(TakeFree))
    case TakeFree => Do(InQueue(TakeUnlock))
    case TakeUnlock => Unlock(QueueMutex, Done)
  }

  function ConnCode(s: ConnStep): Instr {
    match s
    case ConnectTest => Branch(Done, InConn(ConnectStore))
    case ConnectStore => Do(Done)
    case DropTest => Branch(Done, InConn(DropNotify))
    case DropNotify => Do(InConn(DropDestroy))
    case DropDestroy => Do(InConn(DropClear))
    case DropClear => Do(Done)
    case UseTest => Branch(Done, InConn(UsePeer))
    case UsePeer => Do(Done)
  }

  function Code(l: Label): Instr {
    match l
    case Done => Return
    case InTick(s) => TickCode(s)
    case InUser(s) => UserCode(s)
    case InNet(s) => NetCode(s)
    case InQueue(s) => QueueCode(s)
    case InConn(s) => ConnCode(s)
  }

  // Where a thread may begin: the functions the main, tick and network threads call.
  predicate IsEntry(l: Label) {
    || l == InTick(TickLockUi) || l == InUser(ReadyLock)
    || l == InNet(InfoLock) || l == InNet(NewsLock) || l == InNet(InputRole)
    || l == InQueue(PushAlloc) || l == InQueue(PopLock) || l == InQueue(TryLock)
    || l == InConn(ConnectTest) || l == InConn(DropTest) || l == InConn(UseTest)
  }

  // ---------------------------------------------------------------- data

  datatype QNode = QNode(data: int, next: Option<nat>)

  // The queue's nodes by address. `pushed` and `popped` record the values in the order of
  // linking and unlinking, `spine` the addresses linked now; no statement reads these three.
  datatype Queue = Queue(
    heap: map<nat, QNode>,
    head: Option<nat>,
    tail: Option<nat>,
    spine: seq<nat>,
    pushed: seq<int>,
    popped: seq<int>)

  // A committed tick: the number of commits its snapshot had seen, and the eight amounts it
  // added (x and y of each position), and the state it wrote.
  datatype Commit = Commit(parent: nat, delta: seq<int>, state: GameState)

  // CLIENT_PEER and CLIENT_HOST, which are set and cleared together, and IS_DISCONNECTED as
  // `gone`. Connections are numbered in the order they were made; destroying the host of one
  // frees its peer.
  datatype Link = Link(peer: Option<nat>, made: nat, freed: set<nat>, gone: bool)

  const NO_LINK := Link(None, 0, {}, false)

  predicate Dangling(link: Link, peer: Option<nat>) {
    peer.Some? && peer.value in link.freed
  }

  // What was handed to the network, and for a state the number of commits it has behind it.
  datatype Sent = SentState(state: GameState, seen: nat) | SentInput(input: PlayerInput)

  // The globals; `history` and `sent` only record what happened.
  datatype Shared = Shared(
    userInfo: Option<UserInfo>,
    gameState: Option<GameState>,
    lastInputs: Option<seq<PlayerInput>>,
    history: seq<Commit>,
    sent: seq<Sent>,
    link: Link,
    queue: Queue)

  // Arguments and local variables of the running function; `base` and `delta` record what
  // Commit and Sent will say.
  datatype Locals = Locals(
    ticks: UInt32,
    input: UserInput,
    message: UserInfo,
    slaveInput: PlayerInput,
    item: int,
    myInfo: UserInfo,
    work: GameState,
    ready: bool,
    node: nat,
    base: nat,
    delta: seq<int>,
    peer: Option<nat>)

  function DeltaOf(input: UserInput, inputs: seq<PlayerInput>): (d: seq<int>)
    requires |inputs| == OTHERS_COUNT
    ensures |d| == 8
  {
    [input.x, input.y, inputs[0].x, inputs[0].y, inputs[1].x, inputs[1].y, inputs[2].x, inputs[2].y]
  }

  // The outcome of a test; `flag` decides whether an allocation or a connection attempt fails.
  predicate Test(l: Label, s: Shared, loc: Locals, flag: bool) {
    match l
    case InTick(TickCheckUi) => s.userInfo.None?
    case InTick(TickRole) => loc.myInfo.isMaster
    case InTick(TickCheckState) => s.gameState.None?
    case InTick(TickCheckSend) => s.gameState.None?
    case InUser(ReadyTest) => loc.ready
    case InNet(InfoRole) => loc.message.isMaster
    case InNet(InitAlloc) => s.lastInputs.None? && flag
    case InNet(NewsCheck) => s.gameState.None?
    case InNet(InputRole) => s.userInfo.Some? && s.userInfo.value.isMaster
    case InQueue(PushCheckTail) => s.queue.tail.Some?
    case InQueue(PopCheck) => s.queue.head.None?
    case InQueue(PopRecheck) => s.queue.head.None?
    case InQueue(TryCheck) => s.queue.head.None?
    case InQueue(TakeTest) => s.queue.head.None?
    case InConn(ConnectTest) => s.link.gone || flag
    case InConn(DropTest) => s.link.gone
    case InConn(UseTest) => s.link.peer.None?
    case _ => flag
  }

  // Following a NULL or dangling pointer.
  predicate Faults(l: Label, s: Shared, loc: Locals) {
    match l
    case InTick(TickCopyUi) => s.userInfo.None?
    case InUser(SlaveReadId) => s.userInfo.None?
    case InTick(TickSnapshot) => s.gameState.None?
    case InTick(TickCommit) => s.gameState.None?
    case InTick(TickCopySend) => s.gameState.None?
    case InNet(NewsMark) => s.gameState.None?
    case InTick(TickAddInputs) => s.lastInputs.None? || |s.lastInputs.value| != OTHERS_COUNT
    case InNet(InputStore) => s.lastInputs.None? || |s.lastInputs.value| != OTHERS_COUNT
    case InQueue(PushLinkTail) => s.queue.tail.None? || s.queue.tail.value !in s.queue.heap
    case InQueue(TakeHead) => s.queue.head.None? || s.queue.head.value !in s.queue.heap
    case InQueue(TakeAdvance) => s.queue.head.None? || s.queue.head.value !in s.queue.heap
    case InQueue(TakeFree) => loc.node !in s.queue.heap
    case InTick(TickSend) => Dangling(s.link, loc.peer)
    case InUser(SlaveSend) => Dangling(s.link, loc.peer)
    case InConn(DropNotify) => s.link.peer.None? || Dangling(s.link, s.link.peer)
    case InConn(DropDestroy) => s.link.peer.None? || Dangling(s.link, s.link.peer)
    case InConn(UsePeer) => s.link.peer.None? || Dangling(s.link, s.link.peer)
    case _ => false
  }

  // What a statement on the queue does to it; `addr` is the address malloc returns.
  function QueueEffect(s: QueueStep, q: Queue, loc: Locals, addr: nat): Queue {
    match s
    case PushAlloc => q.(heap := q.heap[addr := QNode(loc.item, None)])
    case PushLinkTail =>
      if q.tail.None? || q.tail.value !in q.heap then q
      else q.(heap := q.heap[q.tail.value := q.heap[q.tail.value].(next := Some(loc.node))],
              spine := q.spine + [loc.node], pushed := q.pushed + [loc.item])
    case PushSetHead => q.(head := Some(loc.node), spine := q.spine + [loc.node], pushed := q.pushed + [loc.item])
    case PushSetTail => q.(tail := Some(loc.node))
    case TakeAdvance =>
      if q.head.None? || q.head.value !in q.heap then q
      else q.(head := q.heap[q.head.value].next,
              spine := if q.spine == [] then [] else q.spine[1..],
              popped := q.popped + [loc.item])
    case TakeClearTail => q.(tail := None)
    case TakeFree => q.(heap := q.heap - {loc.node})
    case _ => q
  }

  function LinkEffect(s: ConnStep, link: Link): Link {
    match s
    case ConnectStore => link.(peer := Some(link.made), made := link.made + 1)
    case DropDestroy => if link.peer.None? then link else link.(freed := link.freed + {link.peer.value})
    case DropClear => link.(peer := None, gone := true)
    case _ => link
  }

  // A send without a peer is refused; sends to a peer succeed.
  function SharedEffect(l: Label, s: Shared, loc: Locals, addr: nat): Shared {
    match l
    case InQueue(step) => s.(queue := QueueEffect(step, s.queue, loc, addr))
    case InNet(InfoStore) => s.(userInfo := Some(loc.message))
    case InNet(InitState) => if s.gameState.None? then s.(gameState := Some(ZERO_STATE)) else s
    case InNet(InitInputs) => if s.lastInputs.None? then s.(lastInputs := Some(ZERO_INPUTS)) else s
    case InNet(NewsMark) =>
      if s.gameState.None? then s else s.(gameState := Some(MarkExisting(s.gameState.value, loc.message.id)))
    case InNet(InputStore) =>
      if s.lastInputs.None? || |s.lastInputs.value| != OTHERS_COUNT then s
      else s.(lastInputs := Some(StoreInput(s.lastInputs.value, loc.slaveInput)))
    case InTick(TickCommit) => s.(gameState := Some(loc.work), history := s.history + [Commit(loc.base, loc.delta, loc.work)])
    case InTick(TickSend) => if loc.peer.None? then s else s.(sent := s.sent + [SentState(loc.work, loc.base)])
    case InUser(SlaveSend) =>
      if loc.peer.None? then s
      else s.(sent := s.sent + [SentInput(PlayerInput(loc.myInfo.id, loc.input.x, loc.input.y))])
    case InConn(step) => s.(link := LinkEffect(step, s.link))
    case _ => s
  }

  function LocalEffect(l: Label, s: Shared, loc: Locals, addr: nat): Locals {
    match l
    case InTick(TickCopyUi) => if s.userInfo.Some? then loc.(myInfo := s.userInfo.value) else loc
    case InTick(TickSnapshot) => if s.gameState.Some? then loc.(work := s.gameState.value, base := |s.history|) else loc
    case InTick(TickOwnInput) => loc.(work := OwnInput(loc.work, loc.ticks, loc.input))
    case InTick(TickAddInputs) =>
      if s.lastInputs.None? || |s.lastInputs.value| != OTHERS_COUNT then loc
      else loc.(work := OthersInputs(loc.work, s.lastInputs.value), delta := DeltaOf(loc.input, s.lastInputs.value))
    case InTick(TickCopySend) => if s.gameState.Some? then loc.(work := s.gameState.value, base := |s.history|) else loc
    case InUser(SlaveReadId) => if s.userInfo.Some? then loc.(myInfo := s.userInfo.value) else loc
    case InUser(ReadyRead) => loc.(ready := s.userInfo.Some?)
    case InTick(TickReadPeer) => loc.(peer := s.link.peer)
    case InUser(SlaveReadPeer) => loc.(peer := s.link.peer)
    case InQueue(PushAlloc) => loc.(node := addr)
    case InQueue(TakeHead) =>
      if s.queue.head.None? || s.queue.head.value !in s.queue.heap then loc
      else loc.(node := s.queue.head.value, item := s.queue.heap[s.queue.head.value].data)
    case _ => loc
  }

  // ---------------------------------------------------------------- worlds and steps

  datatype Thread =
    | Idle
    | At(pc: Label, loc: Locals)
    | Asleep(loc: Locals)      // inside pthread_cond_wait, mutex released
    | Woken(loc: Locals)       // wants the mutex back to recheck the queue

  datatype World = World(threads: seq<Thread>, owner: map<Mutex, nat>, shared: Shared, crashed: bool)

  // How a thread goes on: it begins a function, executes its next statement (with the address
  // malloc returns or the sleeper a signal reaches, and the outcome of an allocation), or wakes
  // spuriously.
  datatype Move = Begin(entry: Label, args: Locals) | Run(index: nat, flag: bool) | Spurious

  predicate SomeoneAsleep(threads: seq<Thread>) {
    exists t :: 0 <= t < |threads| && threads[t].Asleep?
  }

  predicate Enabled(w: World, t: nat, m: Move) {
    && !w.crashed
    && t < |w.threads|
    && match w.threads[t]
       case Idle => m.Begin? && IsEntry(m.entry)
       case Asleep(_) => m.Spurious?
       case Woken(_) => m.Run? && QueueMutex !in w.owner
       case At(l, _) =>
         && m.Run?
         && match Code(l)
            case Lock(x, _) => x !in w.owner
            case Signal(_) => SomeoneAsleep(w.threads) ==> m.index < |w.threads| && w.threads[m.index].Asleep?
            case Do(_) => l == InQueue(PushAlloc) ==> m.index !in w.shared.queue.heap
            case _ => true
  }

  function Goto(w: World, t: nat, l: Label, loc: Locals): World
    requires t < |w.threads|
  {
    w.(threads := w.threads[t := At(l, loc)])
  }

  function Next(w: World, t: nat, m: Move): (w': World)
    requires Enabled(w, t, m)
    ensures |w'.threads| == |w.threads|
  {
    match w.threads[t]
    case Idle => Goto(w, t, m.entry, m.args)
    case Asleep(loc) => w.(threads := w.threads[t := Woken(loc)])
    case Woken(loc) => Goto(w, t, InQueue(PopRecheck), loc).(owner := w.owner[QueueMutex := t])
    case At(l, loc) =>
      match Code(l)
      case Lock(x, next) => Goto(w, t, next, loc).(owner := w.owner[x := t])
      case Unlock(x, next) => Goto(w, t, next, loc).(owner := w.owner - {x})
      case Branch(yes, no) => Goto(w, t, if Test(l, w.shared, loc, m.flag) then yes else no, loc)
      case Do(next) =>
        if Faults(l, w.shared, loc) then w.(crashed := true)
        else Goto(w, t, next, LocalEffect(l, w.shared, loc, m.index)).(shared := SharedEffect(l, w.shared, loc, m.index))
      case Signal(next) =>
        var w' := Goto(w, t, next, loc);
        if SomeoneAsleep(w.threads) then w'.(threads := w'.threads[m.index := Woken(w.threads[m.index].loc)]) else w'
      case Wait(_) => w.(threads := w.threads[t := Asleep(loc)], owner := w.owner - {QueueMutex})
      case Return => w.(threads := w.threads[t := Idle])
  }

  datatype Turn = Turn(thread: nat, move: Move)

  const EMPTY_QUEUE := Queue(map[], None, None, [], [], [])

  function Initial(n: nat): World {
    World(seq(n, i => Idle), map[], Shared(None, None, None, [], [], NO_LINK, EMPTY_QUEUE), false)
  }

  // The world after a schedule of turns of `n` threads; a turn that is not enabled is skipped.
  function After(n: nat, turns: seq<Turn>): (w: World)
    ensures |w.threads| == n
  {
    if turns == [] then Initial(n)
    else
      var w, turn := After(n, turns[..|turns| - 1]), turns[|turns| - 1];
      if Enabled(w, turn.thread, turn.move) then Next(w, turn.thread, turn.move) else w
  }

  lemma {:induction false} OneTurn(n: nat, turns: seq<Turn>, turn: Turn)
    requires Enabled(After(n, turns), turn.thread, turn.move)
    ensures After(n, turns + [turn]) == Next(After(n, turns), turn.thread, turn.move)
  {
    assert (turns + [turn])[..|turns + [turn]| - 1] == turns;
  }
}
