/**
 * Nothing out of thin air: in every interleaving, whatever is stored, committed, sent or pushed
 * stems from the arguments some thread was called with.
 */
module ThreadsArguments {
  import opened Base
  import opened Protocol
  import opened Client
  import opened Threads
  import opened ThreadsQueue
  import opened ThreadsSent

  // ---------------------------------------------------------------- calls

  datatype Call = TickCall | InfoCall | NewsCall | InputCall | PushCall | PopCall | ConnectionCall

  // The call a statement belongs to; returning belongs to none.
  function CallOf(l: Label): Option<Call> {
    match l
    case Done => None
    case InTick(_) => Some(TickCall)
    case InUser(_) => Some(TickCall)
    case InNet(NewsLock) | InNet(NewsCheck) | InNet(NewsMissing) | InNet(NewsMark) | InNet(NewsUnlock) => Some(NewsCall)
    case InNet(InputRole) | InNet(InputLock) | InNet(InputStore) | InNet(InputUnlock) => Some(InputCall)
    case InNet(_) => Some(InfoCall)
    case InQueue(PushAlloc) | InQueue(PushLock) | InQueue(PushCheckTail) | InQueue(PushLinkTail) | InQueue(PushSetHead)
       | InQueue(PushSetTail) | InQueue(PushSignal) | InQueue(PushUnlock) => Some(PushCall)
    case InQueue(_) => Some(PopCall)
    case InConn(_) => Some(ConnectionCall)
  }

  // The calls made in a schedule, in order.
  function CallsOf(n: nat, turns: seq<Turn>): seq<Move> {
    if turns == [] then []
    else
      var before, turn := turns[..|turns| - 1], turns[|turns| - 1];
      CallsOf(n, before) + if turn.move.Begin? && Enabled(After(n, before), turn.thread, turn.move) then [turn.move] else []
  }

  // One of them called the function with these arguments.
  ghost predicate Called(calls: seq<Move>, call: Call, args: Locals) {
    exists k :: 0 <= k < |calls| && calls[k].Begin? && CallOf(calls[k].entry) == Some(call) && calls[k].args == args
  }

  ghost predicate CalledTick(calls: seq<Move>, ticks: UInt32, input: UserInput) {
    exists args :: Called(calls, TickCall, args) && args.ticks == ticks && args.input == input
  }

  ghost predicate CalledInfo(calls: seq<Move>, u: UserInfo) {
    exists args :: Called(calls, InfoCall, args) && args.message == u
  }

  ghost predicate CalledNews(calls: seq<Move>, id: int) {
    exists args :: Called(calls, NewsCall, args) && args.message.id == id
  }

  ghost predicate CalledInput(calls: seq<Move>, p: PlayerInput) {
    exists args :: Called(calls, InputCall, args) && args.slaveInput == p
  }

  ghost predicate CalledPush(calls: seq<Move>, item: int) {
    exists args :: Called(calls, PushCall, args) && args.item == item
  }

  // What a thread in the middle of a call was called with, as far as it is used.
  ghost predicate Stems(calls: seq<Move>, call: Call, loc: Locals) {
    match call
    case TickCall => CalledTick(calls, loc.ticks, loc.input)
    case InfoCall => CalledInfo(calls, loc.message)
    case NewsCall => CalledNews(calls, loc.message.id)
    case InputCall => CalledInput(calls, loc.slaveInput)
    case PushCall => CalledPush(calls, loc.item)
    case _ => true
  }

  lemma CallStems(calls: seq<Move>, m: Move)
    requires m in calls && m.Begin? && CallOf(m.entry).Some?
    ensures Stems(calls, CallOf(m.entry).value, m.args)
  {
    assert Called(calls, CallOf(m.entry).value, m.args);
  }

  lemma CallsStay(l: Label, s: Shared, loc: Locals, flag: bool)
    ensures match Code(l)
            case Lock(_, next) => CallOf(next).None? || CallOf(next) == CallOf(l)
            case Unlock(_, next) => CallOf(next).None? || CallOf(next) == CallOf(l)
            case Branch(yes, no) => var next := if Test(l, s, loc, flag) then yes else no; CallOf(next).None? || CallOf(next) == CallOf(l)
            case Do(next) => CallOf(next).None? || CallOf(next) == CallOf(l)
            case Signal(next) => CallOf(next).None? || CallOf(next) == CallOf(l)
            case _ => true
  {
  }

  lemma ArgumentsStay(calls: seq<Move>, l: Label, s: Shared, loc: Locals, addr: nat)
    requires CallOf(l).Some? && Stems(calls, CallOf(l).value, loc)
    ensures Stems(calls, CallOf(l).value, LocalEffect(l, s, loc, addr))
  {
  }

  // ---------------------------------------------------------------- what stems from them

  // Positions exist by a tick or by the news of their slave.
  ghost predicate StateStems(calls: seq<Move>, g: GameState) {
    && (Exists(g, 1) ==> exists ticks, input :: CalledTick(calls, ticks, input))
    && (Exists(g, 2) ==> CalledNews(calls, 1))
    && (Exists(g, 3) ==> CalledNews(calls, 2))
    && (Exists(g, 4) ==> CalledNews(calls, 3))
  }

  // The tick a state carries and what it added to position 1 are those of one call.
  ghost predicate CommitStems(calls: seq<Move>, c: Commit) {
    && StateStems(calls, c.state)
    && Exists(c.state, 1)
    && |c.delta| == 8
    && CalledTick(calls, c.state.tick, UserInput32(c.delta[0], c.delta[1]))
  }

  function UserInput32(x: int, y: int): UserInput {
    UserInput(ToInt32(x), ToInt32(y))
  }

  ghost predicate SentStems(calls: seq<Move>, x: Sent) {
    match x
    case SentState(g, _) => StateStems(calls, g)
    case SentInput(p) =>
      && (exists ticks, input :: CalledTick(calls, ticks, input) && p.x == input.x && p.y == input.y)
      && (exists u :: CalledInfo(calls, u) && p.id == u.id)
  }

  ghost predicate InputStems(calls: seq<Move>, k: nat, p: PlayerInput) {
    p.id == k + 1 && ((p.x == 0 && p.y == 0) || CalledInput(calls, p))
  }

  ghost predicate SharedStems(calls: seq<Move>, s: Shared) {
    && (s.userInfo.Some? ==> CalledInfo(calls, s.userInfo.value))
    && (s.gameState.Some? ==> StateStems(calls, s.gameState.value))
    && (s.lastInputs.Some? ==>
          |s.lastInputs.value| == OTHERS_COUNT && forall k :: 0 <= k < OTHERS_COUNT ==> InputStems(calls, k, s.lastInputs.value[k]))
    && (forall i :: 0 <= i < |s.history| ==> CommitStems(calls, s.history[i]))
    && (forall i :: 0 <= i < |s.sent| ==> SentStems(calls, s.sent[i]))
    && (forall i :: 0 <= i < |s.queue.pushed| ==> CalledPush(calls, s.queue.pushed[i]))
  }

  // The working copy of a tick, and the identity a slave sends under.
  ghost predicate WorkStems(calls: seq<Move>, l: Label, loc: Locals) {
    match l
    case InTick(TickUnlockState) | InTick(TickOwnInput) => StateStems(calls, loc.work)
    case InTick(TickLockInputs) | InTick(TickAddInputs) =>
      StateStems(calls, loc.work) && Exists(loc.work, 1) && loc.work.tick == loc.ticks
    case InTick(TickUnlockInputs) | InTick(TickLockCommit) | InTick(TickCommit) =>
      CommitStems(calls, Commit(loc.base, loc.delta, loc.work))
    case InTick(TickUnlockSend) | InTick(TickReadPeer) | InTick(TickSend) => StateStems(calls, loc.work)
    case InUser(SlaveUnlockUi) | InUser(SlaveReadPeer) | InUser(SlaveSend) => CalledInfo(calls, loc.myInfo)
    case _ => true
  }

  ghost predicate ThreadStems(calls: seq<Move>, th: Thread) {
    th.At? ==> (CallOf(th.pc).Some? ==> Stems(calls, CallOf(th.pc).value, th.loc)) && WorkStems(calls, th.pc, th.loc)
  }

  ghost predicate StemsInv(calls: seq<Move>, w: World) {
    SharedStems(calls, w.shared) && forall t :: 0 <= t < |w.threads| ==> ThreadStems(calls, w.threads[t])
  }

  // ---------------------------------------------------------------- single statements

  lemma OwnInputStems(calls: seq<Move>, loc: Locals)
    requires StateStems(calls, loc.work) && CalledTick(calls, loc.ticks, loc.input)
    ensures var g := OwnInput(loc.work, loc.ticks, loc.input); StateStems(calls, g) && Exists(g, 1) && g.tick == loc.ticks
  {
  }

  lemma AddInputsStems(calls: seq<Move>, s: Shared, loc: Locals)
    requires SharedStems(calls, s) && s.lastInputs.Some? && CalledTick(calls, loc.ticks, loc.input)
    requires StateStems(calls, loc.work) && Exists(loc.work, 1) && loc.work.tick == loc.ticks
    ensures CommitStems(calls, Commit(loc.base, DeltaOf(loc.input, s.lastInputs.value), OthersInputs(loc.work, s.lastInputs.value)))
  {
    var g, delta := OthersInputs(loc.work, s.lastInputs.value), DeltaOf(loc.input, s.lastInputs.value);
    assert g.tick == loc.ticks && Exists(g, 1) && Exists(g, 2) == Exists(loc.work, 2);
    assert UserInput32(delta[0], delta[1]) == loc.input;
  }

  lemma MarkStems(calls: seq<Move>, g: GameState, id: UInt32)
    requires StateStems(calls, g) && CalledNews(calls, id)
    ensures StateStems(calls, MarkExisting(g, id))
  {
  }

  lemma StoreStems(calls: seq<Move>, inputs: seq<PlayerInput>, p: PlayerInput)
    requires |inputs| == OTHERS_COUNT && CalledInput(calls, p)
    requires forall k :: 0 <= k < OTHERS_COUNT ==> InputStems(calls, k, inputs[k])
    ensures forall k :: 0 <= k < OTHERS_COUNT ==> InputStems(calls, k, StoreInput(inputs, p)[k])
  {
    forall k | 0 <= k < OTHERS_COUNT ensures InputStems(calls, k, StoreInput(inputs, p)[k]) {
      assert InputStems(calls, k, inputs[k]);
      if p.id == k + 1 {
        assert StoreInput(inputs, p)[k] == p;
      }
    }
  }

  lemma PushStems(calls: seq<Move>, s: Shared, step: QueueStep, loc: Locals, addr: nat)
    requires SharedStems(calls, s) && (CallOf(InQueue(step)) == Some(PushCall) ==> CalledPush(calls, loc.item))
    ensures SharedStems(calls, SharedEffect(InQueue(step), s, loc, addr))
  {
  }

  lemma TickWorkStems(calls: seq<Move>, step: TickStep, s: Shared, loc: Locals, addr: nat)
    requires SharedStems(calls, s) && ThreadStems(calls, At(InTick(step), loc)) && TickCode(step).Do? && !Faults(InTick(step), s, loc)
    ensures WorkStems(calls, TickCode(step).next, LocalEffect(InTick(step), s, loc, addr))
  {
    if step == TickOwnInput {
      OwnInputStems(calls, loc);
    } else if step == TickAddInputs {
      AddInputsStems(calls, s, loc);
    }
  }

  lemma OtherWorkStems(calls: seq<Move>, l: Label, s: Shared, loc: Locals, addr: nat)
    requires SharedStems(calls, s) && ThreadStems(calls, At(l, loc)) && Code(l).Do? && !l.InTick? && !Faults(l, s, loc)
    ensures WorkStems(calls, Code(l).next, LocalEffect(l, s, loc, addr))
  {
  }

  lemma TickSharedStems(calls: seq<Move>, step: TickStep, s: Shared, loc: Locals, addr: nat)
    requires SharedStems(calls, s) && ThreadStems(calls, At(InTick(step), loc)) && TickCode(step).Do?
    ensures SharedStems(calls, SharedEffect(InTick(step), s, loc, addr))
  {
  }

  lemma NetSharedStems(calls: seq<Move>, step: NetStep, s: Shared, loc: Locals, addr: nat)
    requires SharedStems(calls, s) && ThreadStems(calls, At(InNet(step), loc)) && NetCode(step).Do?
    ensures SharedStems(calls, SharedEffect(InNet(step), s, loc, addr))
  {
    if step == NewsMark && s.gameState.Some? {
      MarkStems(calls, s.gameState.value, loc.message.id);
    } else if step == InputStore && s.lastInputs.Some? {
      StoreStems(calls, s.lastInputs.value, loc.slaveInput);
    }
  }

  lemma SlaveSendStems(calls: seq<Move>, s: Shared, loc: Locals, addr: nat)
    requires SharedStems(calls, s) && CalledTick(calls, loc.ticks, loc.input) && CalledInfo(calls, loc.myInfo)
    ensures SharedStems(calls, SharedEffect(InUser(SlaveSend), s, loc, addr))
  {
    assert SentStems(calls, SentInput(PlayerInput(loc.myInfo.id, loc.input.x, loc.input.y)));
  }

  lemma SharedEffectStems(calls: seq<Move>, l: Label, s: Shared, loc: Locals, addr: nat)
    requires SharedStems(calls, s) && ThreadStems(calls, At(l, loc)) && Code(l).Do?
    ensures SharedStems(calls, SharedEffect(l, s, loc, addr))
  {
    match l {
      case InTick(step) => TickSharedStems(calls, step, s, loc, addr);
      case InNet(step) => NetSharedStems(calls, step, s, loc, addr);
      case InQueue(step) => PushStems(calls, s, step, loc, addr);
      case InUser(SlaveSend) => SlaveSendStems(calls, s, loc, addr);
      case _ =>
    }
  }

  lemma ControlStems(calls: seq<Move>, l: Label, s: Shared, loc: Locals, flag: bool)
    requires WorkStems(calls, l, loc)
    ensures match Code(l)
            case Lock(_, next) => WorkStems(calls, next, loc)
            case Unlock(_, next) => WorkStems(calls, next, loc)
            case Branch(yes, no) => WorkStems(calls, if Test(l, s, loc, flag) then yes else no, loc)
            case Signal(next) => WorkStems(calls, next, loc)
            case _ => true
  {
  }

  lemma DoStems(calls: seq<Move>, l: Label, s: Shared, loc: Locals, addr: nat)
    requires SharedStems(calls, s) && ThreadStems(calls, At(l, loc)) && Code(l).Do? && !Faults(l, s, loc)
    ensures SharedStems(calls, SharedEffect(l, s, loc, addr))
    ensures ThreadStems(calls, At(Code(l).next, LocalEffect(l, s, loc, addr)))
  {
    SharedEffectStems(calls, l, s, loc, addr);
    CallsStay(l, s, loc, false);
    if CallOf(l).Some? { ArgumentsStay(calls, l, s, loc, addr); }
    if l.InTick? {
      TickWorkStems(calls, l.tick, s, loc, addr);
    } else {
      OtherWorkStems(calls, l, s, loc, addr);
    }
  }

  lemma EntriesStem(calls: seq<Move>, m: Move)
    requires m in calls && m.Begin? && IsEntry(m.entry)
    ensures ThreadStems(calls, At(m.entry, m.args))
  {
    CallStems(calls, m);
  }

  lemma InstructionKeepsStems(calls: seq<Move>, w: World, t: nat, m: Move)
    requires StemsInv(calls, w) && Enabled(w, t, m) && w.threads[t].At?
    ensures StemsInv(calls, Next(w, t, m))
  {
    var l, loc := w.threads[t].pc, w.threads[t].loc;
    assert ThreadStems(calls, w.threads[t]) && w.threads[t] == At(l, loc);
    if Code(l).Do? {
      if !Faults(l, w.shared, loc) { DoStems(calls, l, w.shared, loc, m.index); }
    } else {
      CallsStay(l, w.shared, loc, m.flag);
      ControlStems(calls, l, w.shared, loc, m.flag);
    }
  }

  lemma StepKeepsStems(calls: seq<Move>, w: World, t: nat, m: Move)
    requires StemsInv(calls, w) && Enabled(w, t, m) && (m.Begin? ==> m in calls)
    ensures StemsInv(calls, Next(w, t, m))
  {
    if w.threads[t].At? {
      InstructionKeepsStems(calls, w, t, m);
    } else if w.threads[t].Idle? {
      EntriesStem(calls, m);
    }
  }

  lemma {:induction false} CallIsMade(n: nat, turns: seq<Turn>, k: nat)
    requires k < |turns| && turns[k].move.Begin? && Enabled(After(n, turns[..k]), turns[k].thread, turns[k].move)
    ensures turns[k].move in CallsOf(n, turns)
  {
    var before := turns[..|turns| - 1];
    if k < |before| {
      assert before[..k] == turns[..k] && before[k] == turns[k];
      CallIsMade(n, before, k);
    }
  }

  lemma {:induction false} ReachableStems(n: nat, turns: seq<Turn>, k: nat)
    requires k <= |turns|
    ensures StemsInv(CallsOf(n, turns), After(n, turns[..k]))
  {
    if k > 0 {
      ReachableStems(n, turns, k - 1);
      assert turns[..k][..k - 1] == turns[..k - 1] && turns[..k][k - 1] == turns[k - 1];
      var w, turn := After(n, turns[..k - 1]), turns[k - 1];
      if Enabled(w, turn.thread, turn.move) {
        if turn.move.Begin? { CallIsMade(n, turns, k - 1); }
        StepKeepsStems(CallsOf(n, turns), w, turn.thread, turn.move);
      }
    }
  }

  lemma {:induction false} WholeRunStems(n: nat, turns: seq<Turn>)
    ensures StemsInv(CallsOf(n, turns), After(n, turns))
  {
    ReachableStems(n, turns, |turns|);
    assert turns[..|turns|] == turns;
  }

  // ---------------------------------------------------------------- what every schedule guarantees

  // Every committed state carries the number of a tick some thread was called for, together with
  // that tick's input to position 1, which exists in it; every further position that exists was
  // announced.
  lemma {:induction false} CommitsStemFromTicks(n: nat, turns: seq<Turn>, i: nat)
    requires i < |After(n, turns).shared.history|
    ensures CommitStems(CallsOf(n, turns), After(n, turns).shared.history[i])
  {
    WholeRunStems(n, turns);
  }

  // Every state sent carries the number of a tick some thread was called for; position 1 exists in
  // it, and every further position that exists was announced.
  lemma {:induction false} SentStatesStemFromTicks(n: nat, turns: seq<Turn>, i: nat)
    requires i < |After(n, turns).shared.sent| && After(n, turns).shared.sent[i].SentState?
    ensures var g, calls := After(n, turns).shared.sent[i].state, CallsOf(n, turns);
            && StateStems(calls, g) && Exists(g, 1)
            && exists input :: CalledTick(calls, g.tick, input)
  {
    var s := After(n, turns).shared;
    WholeRunStems(n, turns);
    assert SentStems(CallsOf(n, turns), s.sent[i]);
    SentStatesAreCommitted(n, turns, i, 1, false);
    var c := s.history[s.sent[i].seen - 1];
    assert CommitStems(CallsOf(n, turns), c);
    assert CalledTick(CallsOf(n, turns), c.state.tick, UserInput32(c.delta[0], c.delta[1]));
  }

  // Every input sent is that of a tick some thread was called for, under an id some user
  // information told; it is what a tick of the atomic client with that id sends.
  lemma SentInputsStemFromTicks(n: nat, turns: seq<Turn>, i: nat) returns (ticks: UInt32, input: UserInput, u: UserInfo)
    requires i < |After(n, turns).shared.sent| && After(n, turns).shared.sent[i].SentInput?
    ensures var p, calls := After(n, turns).shared.sent[i].input, CallsOf(n, turns);
            && CalledTick(calls, ticks, input) && CalledInfo(calls, u)
            && p.id == u.id && p.x == input.x && p.y == input.y
            && TickPacket(FRESH_CLIENT.(userInfo := Some(UserInfo(u.id, false))), ticks, input).Some?
            && ContentOf(TickPacket(FRESH_CLIENT.(userInfo := Some(UserInfo(u.id, false))), ticks, input).value) == Input(p)
  {
    WholeRunStems(n, turns);
    var p, calls := After(n, turns).shared.sent[i].input, CallsOf(n, turns);
    assert SentStems(calls, SentInput(p));
    ticks, input :| CalledTick(calls, ticks, input) && p.x == input.x && p.y == input.y;
    u :| CalledInfo(calls, u) && p.id == u.id;
    SlaveTickReachesMaster(FRESH_CLIENT.(userInfo := Some(UserInfo(u.id, false))), ticks, input);
  }

  // The identity stored was told, the inputs stored were delivered, and the positions that exist
  // ticked or were announced.
  lemma {:induction false} StoredStemsFromCalls(n: nat, turns: seq<Turn>)
    ensures var s, calls := After(n, turns).shared, CallsOf(n, turns);
            && (s.userInfo.Some? ==> CalledInfo(calls, s.userInfo.value))
            && (s.gameState.Some? ==> StateStems(calls, s.gameState.value))
            && (s.lastInputs.Some? ==>
                  |s.lastInputs.value| == 3 && forall k :: 0 <= k < 3 ==> InputStems(calls, k, s.lastInputs.value[k]))
  {
    WholeRunStems(n, turns);
  }

  // Every value taken from the queue was the argument of a push.
  lemma {:induction false} PoppedStemsFromPushes(n: nat, turns: seq<Turn>, i: nat)
    requires i < |After(n, turns).shared.queue.popped|
    ensures CalledPush(CallsOf(n, turns), After(n, turns).shared.queue.popped[i])
  {
    WholeRunStems(n, turns);
    LinearizableFifo(n, turns);
    var q := After(n, turns).shared.queue;
    assert q.pushed[i] == q.popped[i];
  }
}
