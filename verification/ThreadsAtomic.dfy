/**
 * The interleaved threads and the client with atomic ticks: with one ticking and one network
 * thread that do not disturb each other at two points, every reachable state is the one the
 * atomic client reaches by the events of the run.
 */
module ThreadsAtomic {
  import opened Base
  import opened Client
  import opened Threads
  import opened ThreadsBounds
  import opened ThreadsFaults
  import opened ThreadsProgress

  // ---------------------------------------------------------------- the events of a run

  // The statement at which a delivery or a tick takes effect for the atomic client: a tick where
  // it reads the inputs.
  function EventAt(l: Label, loc: Locals): Option<ClientEvent> {
    match l
    case InNet(InfoStore) => Some(Delivery(OwnInfo(loc.message)))
    case InNet(NewsMark) => Some(Delivery(SlaveNews(loc.message)))
    case InNet(InputStore) => Some(Delivery(Input(loc.slaveInput)))
    case InTick(TickAddInputs) => Some(TickEvent(loc.ticks, loc.input))
    case _ => None
  }

  function EventOf(w: World, turn: Turn): Option<ClientEvent> {
    if Enabled(w, turn.thread, turn.move) && w.threads[turn.thread].At?
       && !Faults(w.threads[turn.thread].pc, w.shared, w.threads[turn.thread].loc)
    then EventAt(w.threads[turn.thread].pc, w.threads[turn.thread].loc) else None
  }

  function EventsOf(n: nat, turns: seq<Turn>): seq<ClientEvent> {
    if turns == [] then []
    else
      var before, turn := turns[..|turns| - 1], turns[|turns| - 1];
      EventsOf(n, before) + match EventOf(After(n, before), turn) case Some(e) => [e] case None => []
  }

  // ---------------------------------------------------------------- runs without disturbance

  // The master's tick relies on the role it copied until it reads the inputs.
  predicate ReliesOnRole(th: Thread) {
    th.At? && th.pc.InTick? &&
    match th.pc.tick
    case TickUnlockUi | TickRole | TickLockState | TickCheckState | TickSnapshot | TickUnlockState
       | TickOwnInput | TickLockInputs | TickAddInputs => true
    case _ => false
  }

  function ThreadAt(w: World, t: nat): Thread {
    if t < |w.threads| then w.threads[t] else Idle
  }

  // This turn starts ticks and network functions on their threads only; it brings no news between
  // a snapshot and its commit, no new role while the tick relies on the old one; and the inputs
  // are allocated.
  predicate CalmTurn(w: World, turn: Turn, ticker: nat, net: nat) {
    && (turn.move.Begin? && StartsTicks(turn.move.entry) ==> turn.thread == ticker)
    && (turn.move.Begin? && turn.move.entry.InNet? ==> turn.thread == net)
    && (turn.thread < |w.threads| && w.threads[turn.thread].At? ==>
          && (w.threads[turn.thread].pc == InNet(NewsMark) ==> !HasSnapshot(ThreadAt(w, ticker)))
          && (w.threads[turn.thread].pc == InNet(InfoStore) ==> !ReliesOnRole(ThreadAt(w, ticker)))
          && (w.threads[turn.thread].pc == InNet(InitAlloc) && turn.move.Run? ==> !turn.move.flag))
  }

  ghost predicate Undisturbed(n: nat, turns: seq<Turn>, ticker: nat, net: nat) {
    forall k {:trigger turns[k]} :: 0 <= k < |turns| ==> CalmTurn(After(n, turns[..k]), turns[k], ticker, net)
  }

  // ---------------------------------------------------------------- what the atomic client sees

  predicate PendingInputs(net: Thread) {
    net.At? && net.pc.InNet? &&
    match net.pc.net
    case InfoUnlock | InfoRole => net.loc.message.isMaster
    case InitLockState | InitState | InitUnlockState | InitLockInputs | InitAlloc | InitInputs => true
    case _ => false
  }

  predicate PendingState(net: Thread) {
    PendingInputs(net) && net.pc.net != InitUnlockState && net.pc.net != InitLockInputs
    && net.pc.net != InitAlloc && net.pc.net != InitInputs
  }

  predicate PendingCommit(tick: Thread) {
    tick.At? && HasDelta(tick.pc)
  }

  // A commit and an initialisation under way count as done.
  function Seen(s: Shared, tick: Thread, net: Thread): ClientState {
    ClientState(
      s.userInfo,
      if PendingCommit(tick) then Some(tick.loc.work)
      else if s.gameState.None? && PendingState(net) then Some(ZERO_STATE) else s.gameState,
      if s.lastInputs.None? && PendingInputs(net) then Some(ZERO_INPUTS) else s.lastInputs)
  }

  // What the ticking thread relies on.
  predicate TickerAt(s: Shared, step: TickStep, loc: Locals) {
    match step
    case TickUnlockUi | TickRole => s.userInfo == Some(loc.myInfo)
    case TickLockState | TickCheckState | TickSnapshot => s.userInfo == Some(loc.myInfo) && loc.myInfo.isMaster
    case TickUnlockState | TickOwnInput =>
      s.userInfo == Some(loc.myInfo) && loc.myInfo.isMaster && s.gameState == Some(loc.work)
    case TickLockInputs | TickAddInputs =>
      s.userInfo == Some(loc.myInfo) && loc.myInfo.isMaster && s.gameState.Some?
      && loc.work == OwnInput(s.gameState.value, loc.ticks, loc.input)
    case TickUnlockInputs | TickLockCommit | TickCommit => s.gameState.Some?
    case _ => true
  }

  predicate TickerOk(s: Shared, th: Thread) {
    th.At? ==> !th.pc.InNet? && (th.pc.InTick? ==> TickerAt(s, th.pc.tick, th.loc))
  }

  // What the network thread relies on.
  predicate NetAt(s: Shared, step: NetStep, loc: Locals) {
    match step
    case InfoUnlock | InfoRole => s.userInfo == Some(loc.message)
    case InitUnlockState => s.gameState.Some?
    case InitLockInputs | InitAlloc | InitInputs => s.gameState.Some?
    case InitFailed => false
    case InitUnlockInputs => s.lastInputs.Some?
    case InputLock | InputStore => s.userInfo.Some? && s.userInfo.value.isMaster
    case NewsMark => s.gameState.Some?
    case _ => true
  }

  predicate NetOk(s: Shared, th: Thread) {
    th.At? ==> !StartsTicks(th.pc) && (th.pc.InNet? ==> NetAt(s, th.pc.net, th.loc))
  }

  predicate OtherOk(th: Thread) {
    th.At? ==> !StartsTicks(th.pc) && !th.pc.InNet?
  }

  ghost predicate AtomicInv(w: World, ticker: nat, net: nat) {
    && TickerOk(w.shared, ThreadAt(w, ticker))
    && NetOk(w.shared, ThreadAt(w, net))
    && forall t :: 0 <= t < |w.threads| && t != ticker && t != net ==> OtherOk(w.threads[t])
  }

  function Look(w: World, ticker: nat, net: nat): ClientState {
    Seen(w.shared, ThreadAt(w, ticker), ThreadAt(w, net))
  }

  function AdvanceBy(c: ClientState, e: Option<ClientEvent>): ClientState {
    match e case Some(event) => Advance(c, event) case None => c
  }

  // ---------------------------------------------------------------- single statements

  // A statement of the ticking thread keeps what both threads rely on and is, for the atomic
  // client, its event or nothing.
  predicate TickerFollows(s: Shared, step: TickStep, loc: Locals, addr: nat, net: Thread)
    requires TickCode(step).Do?
  {
    var s', th' := SharedEffect(InTick(step), s, loc, addr), At(TickCode(step).next, LocalEffect(InTick(step), s, loc, addr));
    && TickerOk(s', th') && NetOk(s', net)
    && Seen(s', th', net) == AdvanceBy(Seen(s, At(InTick(step), loc), net), EventAt(InTick(step), loc))
  }

  lemma TickerReadsInputs(s: Shared, loc: Locals, addr: nat, net: Thread)
    requires InputsShaped(s) && TickerAt(s, TickAddInputs, loc) && NetOk(s, net) && !Faults(InTick(TickAddInputs), s, loc)
    ensures TickerFollows(s, TickAddInputs, loc, addr, net)
  {
  }

  lemma TickerCommits(s: Shared, loc: Locals, addr: nat, net: Thread)
    requires TickerAt(s, TickCommit, loc) && NetOk(s, net)
    ensures TickerFollows(s, TickCommit, loc, addr, net)
  {
  }

  lemma TickerReads(s: Shared, step: TickStep, loc: Locals, addr: nat, net: Thread)
    requires TickerAt(s, step, loc) && NetOk(s, net) && (step == TickCopyUi || step == TickSnapshot || step == TickOwnInput)
    requires !Faults(InTick(step), s, loc)
    ensures TickerFollows(s, step, loc, addr, net)
  {
  }

  lemma TickerCopies(s: Shared, step: TickStep, loc: Locals, addr: nat, net: Thread)
    requires NetOk(s, net) && (step == TickCopySend || step == TickReadPeer)
    ensures TickerFollows(s, step, loc, addr, net)
  {
    assert SharedEffect(InTick(step), s, loc, addr) == s;
  }

  lemma TickerSends(s: Shared, loc: Locals, addr: nat, net: Thread)
    requires NetOk(s, net)
    ensures TickerFollows(s, TickSend, loc, addr, net)
  {
  }

  lemma TickerDo(s: Shared, step: TickStep, loc: Locals, addr: nat, net: Thread)
    requires InputsShaped(s) && TickerAt(s, step, loc) && NetOk(s, net)
    requires TickCode(step).Do? && !Faults(InTick(step), s, loc)
    ensures TickerFollows(s, step, loc, addr, net)
  {
    match step {
      case TickAddInputs => TickerReadsInputs(s, loc, addr, net);
      case TickCommit => TickerCommits(s, loc, addr, net);
      case TickCopySend => TickerCopies(s, step, loc, addr, net);
      case TickReadPeer => TickerCopies(s, step, loc, addr, net);
      case TickSend => TickerSends(s, loc, addr, net);
      case _ => TickerReads(s, step, loc, addr, net);
    }
  }

  lemma TickerLock(s: Shared, step: TickStep, loc: Locals, net: Thread)
    requires TickerAt(s, step, loc) && (TickCode(step).Lock? || TickCode(step).Unlock?)
    ensures TickerOk(s, At(TickCode(step).next, loc))
    ensures Seen(s, At(TickCode(step).next, loc), net) == Seen(s, At(InTick(step), loc), net)
  {
  }

  lemma TickerTest(s: Shared, step: TickStep, loc: Locals, flag: bool, net: Thread)
    requires TickerAt(s, step, loc) && TickCode(step).Branch?
    ensures var next := if Test(InTick(step), s, loc, flag) then TickCode(step).yes else TickCode(step).no;
            TickerOk(s, At(next, loc)) && Seen(s, At(next, loc), net) == Seen(s, At(InTick(step), loc), net)
  {
  }

  // So does a statement of the network thread that does not disturb the tick.
  predicate NetFollows(s: Shared, step: NetStep, loc: Locals, addr: nat, tick: Thread)
    requires NetCode(step).Do?
  {
    var s', th' := SharedEffect(InNet(step), s, loc, addr), At(NetCode(step).next, LocalEffect(InNet(step), s, loc, addr));
    && TickerOk(s', tick) && NetOk(s', th')
    && Seen(s', tick, th') == AdvanceBy(Seen(s, tick, At(InNet(step), loc)), EventAt(InNet(step), loc))
  }

  lemma NetStoresInfo(s: Shared, loc: Locals, addr: nat, tick: Thread)
    requires TickerOk(s, tick) && !ReliesOnRole(tick)
    ensures NetFollows(s, InfoStore, loc, addr, tick)
  {
  }

  lemma NetStoresInput(s: Shared, loc: Locals, addr: nat, tick: Thread)
    requires InputsShaped(s) && NetAt(s, InputStore, loc) && TickerOk(s, tick) && !Faults(InNet(InputStore), s, loc)
    ensures NetFollows(s, InputStore, loc, addr, tick)
  {
  }

  lemma NetMarks(s: Shared, loc: Locals, addr: nat, tick: Thread)
    requires TickerOk(s, tick) && s.gameState.Some? && !HasSnapshot(tick)
    ensures NetFollows(s, NewsMark, loc, addr, tick)
  {
  }

  lemma NetInitialises(s: Shared, step: NetStep, loc: Locals, addr: nat, tick: Thread)
    requires NetAt(s, step, loc) && TickerOk(s, tick) && (step == InitState || step == InitInputs)
    ensures NetFollows(s, step, loc, addr, tick)
  {
  }

  lemma NetDo(s: Shared, step: NetStep, loc: Locals, addr: nat, tick: Thread)
    requires InputsShaped(s) && NetAt(s, step, loc) && TickerOk(s, tick)
    requires NetCode(step).Do? && !Faults(InNet(step), s, loc)
    requires step == NewsMark ==> !HasSnapshot(tick)
    requires step == InfoStore ==> !ReliesOnRole(tick)
    ensures NetFollows(s, step, loc, addr, tick)
  {
    match step {
      case InfoStore => NetStoresInfo(s, loc, addr, tick);
      case InputStore => NetStoresInput(s, loc, addr, tick);
      case NewsMark => NetMarks(s, loc, addr, tick);
      case _ => NetInitialises(s, step, loc, addr, tick);
    }
  }

  lemma NetLock(s: Shared, step: NetStep, loc: Locals, tick: Thread)
    requires NetAt(s, step, loc) && (NetCode(step).Lock? || NetCode(step).Unlock?)
    ensures NetOk(s, At(NetCode(step).next, loc))
    ensures Seen(s, tick, At(NetCode(step).next, loc)) == Seen(s, tick, At(InNet(step), loc))
  {
  }

  lemma NetTest(s: Shared, step: NetStep, loc: Locals, flag: bool, tick: Thread)
    requires NetAt(s, step, loc) && NetCode(step).Branch? && (step == InitAlloc ==> !flag)
    ensures var next := if Test(InNet(step), s, loc, flag) then NetCode(step).yes else NetCode(step).no;
            NetOk(s, At(next, loc)) && Seen(s, tick, At(next, loc)) == Seen(s, tick, At(InNet(step), loc))
  {
  }

  // Statements of the other functions.
  lemma OtherStatement(l: Label, s: Shared, loc: Locals, addr: nat)
    requires !l.InTick? && !l.InNet?
    ensures var s' := SharedEffect(l, s, loc, addr);
            s'.userInfo == s.userInfo && s'.gameState == s.gameState && s'.lastInputs == s.lastInputs
    ensures EventAt(l, loc) == None
  {
  }

  predicate Plain(l: Label, before: Label) {
    && !l.InNet?
    && (l.InTick? ==> l.tick == TickLockUi)
    && (StartsTicks(l) ==> StartsTicks(before))
  }

  lemma OtherCode(l: Label)
    requires !l.InTick? && !l.InNet?
    ensures match Code(l)
            case Lock(_, next) => Plain(next, l)
            case Unlock(_, next) => Plain(next, l)
            case Branch(yes, no) => Plain(yes, l) && Plain(no, l)
            case Do(next) => Plain(next, l)
            case Signal(next) => Plain(next, l)
            case Wait(next) => Plain(next, l)
            case Return => true
  {
  }

  // ---------------------------------------------------------------- steps of the world

  // A step of one thread that changes nothing the atomic client sees.
  lemma UnseenStep(w: World, w': World, t: nat, ticker: nat, net: nat)
    requires AtomicInv(w, ticker, net) && t < |w.threads| == |w'.threads| && ticker != net
    requires forall u :: 0 <= u < |w.threads| && u != t ==> w'.threads[u] == w.threads[u]
    requires w'.shared.userInfo == w.shared.userInfo && w'.shared.gameState == w.shared.gameState
    requires w'.shared.lastInputs == w.shared.lastInputs
    requires var th, th' := w.threads[t], w'.threads[t];
             && (th.At? ==> !th.pc.InTick? && !th.pc.InNet?)
             && (th'.At? ==> (th'.pc.InNet? ==> t == net && (th'.pc.net == InfoLock || th'.pc.net == NewsLock || th'.pc.net == InputRole))
                             && (th'.pc.InTick? ==> th'.pc.tick == TickLockUi) && (StartsTicks(th'.pc) ==> t == ticker))
    ensures AtomicInv(w', ticker, net) && Look(w', ticker, net) == Look(w, ticker, net)
  {
  }

  lemma TickerStep(w: World, m: Move, ticker: nat, net: nat)
    requires AtomicInv(w, ticker, net) && FaultInv(w) && Enabled(w, ticker, m) && ticker != net
    requires w.threads[ticker].At? && w.threads[ticker].pc.InTick?
    ensures AtomicInv(Next(w, ticker, m), ticker, net)
    ensures Look(Next(w, ticker, m), ticker, net) == AdvanceBy(Look(w, ticker, net), EventOf(w, Turn(ticker, m)))
  {
    var step, loc, other := w.threads[ticker].pc.tick, w.threads[ticker].loc, ThreadAt(w, net);
    match TickCode(step) {
      case Lock(_, _) => TickerLock(w.shared, step, loc, other);
      case Unlock(_, _) => TickerLock(w.shared, step, loc, other);
      case Branch(_, _) => TickerTest(w.shared, step, loc, m.flag, other);
      case Do(_) =>
        if !Faults(InTick(step), w.shared, loc) { TickerDo(w.shared, step, loc, m.index, other); }
      case _ =>
    }
  }

  lemma NetStepSimulates(w: World, m: Move, ticker: nat, net: nat)
    requires AtomicInv(w, ticker, net) && FaultInv(w) && Enabled(w, net, m) && ticker != net
    requires w.threads[net].At? && w.threads[net].pc.InNet? && CalmTurn(w, Turn(net, m), ticker, net)
    ensures AtomicInv(Next(w, net, m), ticker, net)
    ensures Look(Next(w, net, m), ticker, net) == AdvanceBy(Look(w, ticker, net), EventOf(w, Turn(net, m)))
  {
    var step, loc, tick := w.threads[net].pc.net, w.threads[net].loc, ThreadAt(w, ticker);
    match NetCode(step) {
      case Lock(_, _) => NetLock(w.shared, step, loc, tick);
      case Unlock(_, _) => NetLock(w.shared, step, loc, tick);
      case Branch(_, _) => NetTest(w.shared, step, loc, m.flag, tick);
      case Do(_) =>
        if !Faults(InNet(step), w.shared, loc) { NetDo(w.shared, step, loc, m.index, tick); }
      case _ =>
    }
  }

  lemma PlainStep(w: World, t: nat, m: Move, ticker: nat, net: nat)
    requires AtomicInv(w, ticker, net) && Enabled(w, t, m) && ticker != net && CalmTurn(w, Turn(t, m), ticker, net)
    requires w.threads[t].At? ==> !w.threads[t].pc.InTick? && !w.threads[t].pc.InNet? && w.threads[t].pc != InQueue(PushSignal)
    ensures AtomicInv(Next(w, t, m), ticker, net)
    ensures Look(Next(w, t, m), ticker, net) == AdvanceBy(Look(w, ticker, net), EventOf(w, Turn(t, m)))
  {
    var th := w.threads[t];
    if th.At? {
      OtherStatement(th.pc, w.shared, th.loc, m.index);
      OtherCode(th.pc);
      assert t != ticker ==> !StartsTicks(th.pc);
    }
    UnseenStep(w, Next(w, t, m), t, ticker, net);
  }

  lemma SignalStep(w: World, t: nat, m: Move, ticker: nat, net: nat)
    requires AtomicInv(w, ticker, net) && Enabled(w, t, m) && ticker != net
    requires w.threads[t].At? && w.threads[t].pc == InQueue(PushSignal)
    ensures AtomicInv(Next(w, t, m), ticker, net)
    ensures Look(Next(w, t, m), ticker, net) == AdvanceBy(Look(w, ticker, net), EventOf(w, Turn(t, m)))
  {
    var w1 := Goto(w, t, InQueue(PushUnlock), w.threads[t].loc);
    UnseenStep(w, w1, t, ticker, net);
    if SomeoneAsleep(w.threads) {
      UnseenStep(w1, Next(w, t, m), m.index, ticker, net);
    }
  }

  lemma StepSimulates(w: World, t: nat, m: Move, ticker: nat, net: nat)
    requires AtomicInv(w, ticker, net) && FaultInv(w) && Enabled(w, t, m) && ticker != net && CalmTurn(w, Turn(t, m), ticker, net)
    ensures AtomicInv(Next(w, t, m), ticker, net)
    ensures Look(Next(w, t, m), ticker, net) == AdvanceBy(Look(w, ticker, net), EventOf(w, Turn(t, m)))
  {
    var th := w.threads[t];
    if th.At? && th.pc.InTick? {
      assert t == ticker;
      TickerStep(w, m, ticker, net);
    } else if th.At? && th.pc.InNet? {
      assert t == net;
      NetStepSimulates(w, m, ticker, net);
    } else if th.At? && th.pc == InQueue(PushSignal) {
      SignalStep(w, t, m, ticker, net);
    } else {
      PlainStep(w, t, m, ticker, net);
    }
  }

  // ---------------------------------------------------------------- runs

  lemma {:induction false} AdvanceOneMore(events: seq<ClientEvent>, e: Option<ClientEvent>)
    ensures AdvanceAll(FRESH_CLIENT, events + match e case Some(event) => [event] case None => [])
         == AdvanceBy(AdvanceAll(FRESH_CLIENT, events), e)
  {
    match e {
      case Some(event) => assert (events + [event])[..|events + [event]| - 1] == events;
      case None => assert events + [] == events;
    }
  }

  lemma {:induction false} UndisturbedBefore(n: nat, turns: seq<Turn>, ticker: nat, net: nat)
    requires Undisturbed(n, turns, ticker, net) && turns != []
    ensures Undisturbed(n, turns[..|turns| - 1], ticker, net)
    ensures CalmTurn(After(n, turns[..|turns| - 1]), turns[|turns| - 1], ticker, net)
  {
    var before := turns[..|turns| - 1];
    forall k {:trigger before[k]} | 0 <= k < |before| ensures CalmTurn(After(n, before[..k]), before[k], ticker, net) {
      assert before[..k] == turns[..k] && before[k] == turns[k];
    }
  }

  // What the atomic client sees after an undisturbed run is where the run's events lead it.
  lemma {:induction false} RunSimulates(n: nat, turns: seq<Turn>, ticker: nat, net: nat)
    requires Undisturbed(n, turns, ticker, net) && ticker != net
    ensures AtomicInv(After(n, turns), ticker, net)
    ensures Look(After(n, turns), ticker, net) == AdvanceAll(FRESH_CLIENT, EventsOf(n, turns))
  {
    if turns != [] {
      var before, turn := turns[..|turns| - 1], turns[|turns| - 1];
      UndisturbedBefore(n, turns, ticker, net);
      RunSimulates(n, before, ticker, net);
      ReachableFaultInv(n, before);
      var w := After(n, before);
      AdvanceOneMore(EventsOf(n, before), EventOf(w, turn));
      if Enabled(w, turn.thread, turn.move) {
        StepSimulates(w, turn.thread, turn.move, ticker, net);
      }
    }
  }

  // In every reachable state of an undisturbed run in which no tick is between its reading of the
  // inputs and its commit and no initialisation is under way, the shared data is what the atomic
  // client holds after the events of the run.
  lemma {:induction false} InterleavingIsAtomic(n: nat, turns: seq<Turn>, ticker: nat, net: nat)
    requires Undisturbed(n, turns, ticker, net) && ticker != net
    requires !PendingCommit(ThreadAt(After(n, turns), ticker)) && !PendingInputs(ThreadAt(After(n, turns), net))
    ensures var s := After(n, turns).shared;
            ClientState(s.userInfo, s.gameState, s.lastInputs) == AdvanceAll(FRESH_CLIENT, EventsOf(n, turns))
  {
    RunSimulates(n, turns, ticker, net);
  }
}
