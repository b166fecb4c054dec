/**
 * Which statements can follow a NULL or dangling pointer in some interleaving, and what a crash
 * takes: a tick before the inputs exist, or the disconnect command.
 */
module ThreadsFaults {
  import opened Client
  import opened Threads
  import opened ThreadsQueue
  import opened ThreadsTicks

  // ---------------------------------------------------------------- the statements that can fault

  predicate NeedsUserInfo(l: Label) {
    match l
    case InTick(s) => s == TickCopyUi || s == TickUnlockUi || s == TickRole
    case InUser(s) => s == SlaveLockUi || s == SlaveReadId
    case _ => false
  }

  predicate NeedsGameState(l: Label) {
    match l
    case InTick(s) =>
      || KeepsSnapshot(s) || s == TickSnapshot || s == TickUnlockCommit
      || s == TickLockSend || s == TickCheckSend || s == TickCopySend
    case InNet(s) => s == NewsMark
    case _ => false
  }

  predicate NeedsInputs(l: Label) {
    l == InTick(TickAddInputs) || l == InNet(InputStore)
  }

  // Uses CLIENT_PEER or CLIENT_HOST as they are now.
  predicate NeedsPeer(l: Label) {
    l == InConn(DropNotify) || l == InConn(DropDestroy) || l == InConn(UsePeer)
  }

  // Uses the peer the thread has read before.
  predicate Sends(l: Label) {
    l == InTick(TickSend) || l == InUser(SlaveSend)
  }

  predicate Sound(l: Label, s: Shared) {
    && (NeedsUserInfo(l) ==> s.userInfo.Some?)
    && (NeedsGameState(l) ==> s.gameState.Some?)
    && l != InTick(TickSendMissing)
  }

  predicate InputsShaped(s: Shared) {
    s.lastInputs.Some? ==> |s.lastInputs.value| == OTHERS_COUNT
  }

  ghost predicate FaultInv(w: World) {
    && InputsShaped(w.shared)
    && (forall t :: 0 <= t < |w.threads| && w.threads[t].At? ==> Sound(w.threads[t].pc, w.shared))
  }

  // Pointers never become NULL again.
  lemma PointersStay(l: Label, s: Shared, loc: Locals, addr: nat)
    requires InputsShaped(s)
    ensures var s' := SharedEffect(l, s, loc, addr);
            && InputsShaped(s')
            && (s.userInfo.Some? ==> s'.userInfo.Some?)
            && (s.gameState.Some? ==> s'.gameState.Some?)
            && (s.lastInputs.Some? ==> s'.lastInputs.Some?)
  {
  }

  lemma TickLockIsSound(step: TickStep, s: Shared)
    requires Sound(InTick(step), s) && (TickCode(step).Lock? || TickCode(step).Unlock?)
    ensures Sound(TickCode(step).next, s)
  {
  }

  lemma TickTestIsSound(step: TickStep, s: Shared, loc: Locals, flag: bool)
    requires Sound(InTick(step), s) && TickCode(step).Branch?
    ensures Sound(if Test(InTick(step), s, loc, flag) then TickCode(step).yes else TickCode(step).no, s)
  {
  }

  lemma OtherControlIsSound(l: Label, s: Shared, loc: Locals, flag: bool)
    requires Sound(l, s) && !l.InTick?
    ensures match Code(l)
            case Lock(_, next) => Sound(next, s)
            case Unlock(_, next) => Sound(next, s)
            case Branch(yes, no) => Sound(if Test(l, s, loc, flag) then yes else no, s)
            case Signal(next) => Sound(next, s)
            case Wait(next) => Sound(next, s)
            case _ => true
  {
  }

  lemma NextIsSound(l: Label, s: Shared, loc: Locals, flag: bool)
    requires Sound(l, s)
    ensures match Code(l)
            case Lock(_, next) => Sound(next, s)
            case Unlock(_, next) => Sound(next, s)
            case Branch(yes, no) => Sound(if Test(l, s, loc, flag) then yes else no, s)
            case Signal(next) => Sound(next, s)
            case Wait(next) => Sound(next, s)
            case _ => true
  {
    if !l.InTick? {
      OtherControlIsSound(l, s, loc, flag);
    } else {
      match TickCode(l.tick) {
        case Lock(_, _) => TickLockIsSound(l.tick, s);
        case Unlock(_, _) => TickLockIsSound(l.tick, s);
        case Branch(_, _) => TickTestIsSound(l.tick, s, loc, flag);
        case _ =>
      }
    }
  }

  lemma DoIsSound(l: Label, s: Shared, loc: Locals, addr: nat)
    requires Sound(l, s) && Code(l).Do?
    ensures Sound(Code(l).next, SharedEffect(l, s, loc, addr))
  {
  }

  // The inputs are missing, the connection is missing or destroyed, or the peer read before is.
  predicate Missing(l: Label, s: Shared, loc: Locals) {
    || (NeedsInputs(l) && s.lastInputs.None?)
    || (NeedsPeer(l) && (s.link.peer.None? || Dangling(s.link, s.link.peer)))
    || (Sends(l) && Dangling(s.link, loc.peer))
  }

  // Outside the queue nothing else can be missing.
  lemma FaultMeansMissing(l: Label, s: Shared, loc: Locals)
    requires InputsShaped(s) && Sound(l, s) && !l.InQueue?
    ensures Faults(l, s, loc) <==> Missing(l, s, loc)
  {
  }

  lemma StepKeepsFaultInv(w: World, t: nat, m: Move)
    requires QueueInv(w) && FaultInv(w) && Enabled(w, t, m)
    ensures FaultInv(Next(w, t, m))
  {
    var th := w.threads[t];
    if th.At? {
      NextIsSound(th.pc, w.shared, th.loc, m.flag);
      if Code(th.pc).Do? {
        if th.pc.InQueue? {
          assert ThreadOk(w.shared.queue, th);
          NoQueueFault(w.shared, th.pc.step, th.loc);
        } else {
          FaultMeansMissing(th.pc, w.shared, th.loc);
        }
        PointersStay(th.pc, w.shared, th.loc, m.index);
        DoIsSound(th.pc, w.shared, th.loc, m.index);
      }
    }
  }

  lemma {:induction false} ReachableFaultInv(n: nat, turns: seq<Turn>)
    ensures FaultInv(After(n, turns))
  {
    if turns != [] {
      ReachableFaultInv(n, turns[..|turns| - 1]);
      ReachableQueueInv(n, turns[..|turns| - 1]);
      var w, turn := After(n, turns[..|turns| - 1]), turns[|turns| - 1];
      if Enabled(w, turn.thread, turn.move) {
        StepKeepsFaultInv(w, turn.thread, turn.move);
      }
    }
  }

  // In every reachable state the statement a thread is about to execute follows a NULL or
  // dangling pointer exactly when it uses the array of inputs before it was allocated, or the
  // connection when there is none or it was destroyed, or sends through a peer it had read and
  // that was destroyed since. The user information, the game state and the queue's nodes are
  // never missing.
  lemma {:induction false} FaultsExactly(n: nat, turns: seq<Turn>, t: nat)
    requires t < n && After(n, turns).threads[t].At?
    ensures var w := After(n, turns);
            Faults(w.threads[t].pc, w.shared, w.threads[t].loc) <==> Missing(w.threads[t].pc, w.shared, w.threads[t].loc)
  {
    ReachableFaultInv(n, turns);
    var w := After(n, turns);
    if w.threads[t].pc.InQueue? {
      QueueMemorySafe(n, turns, t);
    } else {
      FaultMeansMissing(w.threads[t].pc, w.shared, w.threads[t].loc);
    }
  }

  // The state a master has committed to is there to be sent.
  lemma {:induction false} StateIsThereToSend(n: nat, turns: seq<Turn>, t: nat)
    requires t < n && After(n, turns).threads[t].At?
    ensures After(n, turns).threads[t].pc != InTick(TickSendMissing)
  {
    ReachableFaultInv(n, turns);
    assert Sound(After(n, turns).threads[t].pc, After(n, turns).shared);
  }

  lemma InputsStay(w: World, t: nat, m: Move)
    requires Enabled(w, t, m) && w.shared.lastInputs.Some?
    ensures Next(w, t, m).shared.lastInputs.Some?
  {
  }

  // ---------------------------------------------------------------- without the disconnect command

  // Nobody gives the disconnect command.
  ghost predicate NoDrops(turns: seq<Turn>) {
    forall i :: 0 <= i < |turns| && turns[i].move.Begin? ==> turns[i].move.entry != InConn(DropTest)
  }

  predicate InDrop(l: Label) {
    l == InConn(DropTest) || l == InConn(DropNotify) || l == InConn(DropDestroy) || l == InConn(DropClear)
  }

  predicate Calm(l: Label, link: Link) {
    !InDrop(l) && (l == InConn(UsePeer) ==> link.peer.Some?)
  }

  ghost predicate UndroppedInv(w: World) {
    && w.shared.link.freed == {}
    && (forall t :: 0 <= t < |w.threads| && w.threads[t].At? ==> Calm(w.threads[t].pc, w.shared.link))
    && (w.crashed ==> w.shared.lastInputs.None?)
  }

  lemma CodeStaysCalm(l: Label, s: Shared, loc: Locals, flag: bool, addr: nat)
    requires Calm(l, s.link) && s.link.freed == {}
    ensures match Code(l)
            case Lock(_, next) => Calm(next, s.link)
            case Unlock(_, next) => Calm(next, s.link)
            case Branch(yes, no) => Calm(if Test(l, s, loc, flag) then yes else no, s.link)
            case Do(next) =>
              var link := SharedEffect(l, s, loc, addr).link;
              link.freed == {} && (s.link.peer.Some? ==> link.peer.Some?) && Calm(next, link)
            case Signal(next) => Calm(next, s.link)
            case Wait(next) => Calm(next, s.link)
            case _ => true
  {
  }

  lemma StepKeepsUndropped(w: World, t: nat, m: Move)
    requires QueueInv(w) && FaultInv(w) && UndroppedInv(w) && Enabled(w, t, m)
    requires m.Begin? ==> m.entry != InConn(DropTest)
    ensures UndroppedInv(Next(w, t, m))
  {
    var th := w.threads[t];
    if th.At? {
      CodeStaysCalm(th.pc, w.shared, th.loc, m.flag, m.index);
      if Code(th.pc).Do? {
        if th.pc.InQueue? {
          assert ThreadOk(w.shared.queue, th);
          NoQueueFault(w.shared, th.pc.step, th.loc);
        } else {
          FaultMeansMissing(th.pc, w.shared, th.loc);
        }
        PointersStay(th.pc, w.shared, th.loc, m.index);
      }
    }
  }

  lemma {:induction false} ReachableUndropped(n: nat, turns: seq<Turn>)
    requires NoDrops(turns)
    ensures UndroppedInv(After(n, turns))
  {
    if turns != [] {
      ReachableUndropped(n, turns[..|turns| - 1]);
      ReachableFaultInv(n, turns[..|turns| - 1]);
      ReachableQueueInv(n, turns[..|turns| - 1]);
      var w, turn := After(n, turns[..|turns| - 1]), turns[|turns| - 1];
      if Enabled(w, turn.thread, turn.move) {
        StepKeepsUndropped(w, turn.thread, turn.move);
      }
    }
  }

  lemma {:induction false} InputsStayAllocated(n: nat, turns: seq<Turn>, more: seq<Turn>)
    requires After(n, turns).shared.lastInputs.Some?
    ensures After(n, turns + more).shared.lastInputs.Some?
  {
    if more == [] {
      assert turns + more == turns;
    } else {
      var before, turn := more[..|more| - 1], more[|more| - 1];
      InputsStayAllocated(n, turns, before);
      assert (turns + more)[..|turns + more| - 1] == turns + before && (turns + more)[|turns + more| - 1] == turn;
      if Enabled(After(n, turns + before), turn.thread, turn.move) {
        InputsStay(After(n, turns + before), turn.thread, turn.move);
      }
    }
  }

  // Without the disconnect command, no interleaving crashes from the allocation of the inputs on.
  lemma {:induction false} InitialisedNeverCrashes(n: nat, turns: seq<Turn>, more: seq<Turn>)
    requires After(n, turns).shared.lastInputs.Some? && NoDrops(turns + more)
    ensures After(n, turns + more).shared.lastInputs.Some? && !After(n, turns + more).crashed
  {
    ReachableUndropped(n, turns + more);
    InputsStayAllocated(n, turns, more);
  }

  // ---------------------------------------------------------------- one network thread

  // Only this thread connects, disconnects and serves the connection.
  ghost predicate OnlyConnector(turns: seq<Turn>, net: nat) {
    forall i :: 0 <= i < |turns| && turns[i].move.Begin? && turns[i].move.entry.InConn? ==> turns[i].thread == net
  }

  predicate LinkOk(link: Link) {
    && (link.peer.Some? ==> link.peer.value < link.made)
    && (forall p :: p in link.freed ==> p < link.made)
    && (link.gone ==> link.peer.None?)
    && (!link.gone ==> (link.peer.None? <==> link.made == 0))
  }

  // What the thread may rely on before its next statement.
  predicate ConnLocal(link: Link, s: ConnStep) {
    match s
    case ConnectStore => !link.gone && !Dangling(link, link.peer)
    case DropNotify => !link.gone && !Dangling(link, link.peer)
    case DropDestroy => !link.gone && link.peer.Some? && !Dangling(link, link.peer)
    case DropClear => !link.gone
    case UsePeer => link.peer.Some? && !Dangling(link, link.peer)
    case _ => !Dangling(link, link.peer)
  }

  ghost predicate ConnInv(w: World, net: nat) {
    && LinkOk(w.shared.link)
    && (forall t :: 0 <= t < |w.threads| && w.threads[t].At? && w.threads[t].pc.InConn? ==> t == net)
    && (if net < |w.threads| && w.threads[net].At? && w.threads[net].pc.InConn? then ConnLocal(w.shared.link, w.threads[net].pc.conn)
        else !Dangling(w.shared.link, w.shared.link.peer))
  }

  lemma OnlyConnCodeConnects(l: Label, s: Shared, loc: Locals, addr: nat)
    requires !l.InConn?
    ensures SharedEffect(l, s, loc, addr).link == s.link
    ensures match Code(l)
            case Lock(_, next) => !next.InConn?
            case Unlock(_, next) => !next.InConn?
            case Branch(yes, no) => !yes.InConn? && !no.InConn?
            case Do(next) => !next.InConn?
            case Signal(next) => !next.InConn?
            case _ => true
  {
  }

  lemma ConnTestKeeps(step: ConnStep, s: Shared, loc: Locals, flag: bool)
    requires LinkOk(s.link) && ConnLocal(s.link, step) && ConnCode(step).Branch?
    ensures var next := if Test(InConn(step), s, loc, flag) then ConnCode(step).yes else ConnCode(step).no;
            if next.InConn? then ConnLocal(s.link, next.conn) else !Dangling(s.link, s.link.peer)
  {
  }

  lemma ConnDoKeeps(step: ConnStep, s: Shared, loc: Locals)
    requires LinkOk(s.link) && ConnLocal(s.link, step) && ConnCode(step).Do? && !Faults(InConn(step), s, loc)
    ensures var link, next := LinkEffect(step, s.link), ConnCode(step).next;
            LinkOk(link) && if next.InConn? then ConnLocal(link, next.conn) else !Dangling(link, link.peer)
  {
  }

  lemma StepKeepsConnInv(w: World, t: nat, m: Move, net: nat)
    requires ConnInv(w, net) && Enabled(w, t, m) && (m.Begin? && m.entry.InConn? ==> t == net)
    ensures ConnInv(Next(w, t, m), net)
  {
    var th := w.threads[t];
    if th.At? {
      if !th.pc.InConn? {
        OnlyConnCodeConnects(th.pc, w.shared, th.loc, m.index);
      } else if ConnCode(th.pc.conn).Branch? {
        ConnTestKeeps(th.pc.conn, w.shared, th.loc, m.flag);
      } else if !Faults(th.pc, w.shared, th.loc) {
        ConnDoKeeps(th.pc.conn, w.shared, th.loc);
      }
    }
  }

  lemma {:induction false} ReachableConnInv(n: nat, turns: seq<Turn>, net: nat)
    requires OnlyConnector(turns, net)
    ensures ConnInv(After(n, turns), net)
  {
    if turns != [] {
      ReachableConnInv(n, turns[..|turns| - 1], net);
      var w, turn := After(n, turns[..|turns| - 1]), turns[|turns| - 1];
      if Enabled(w, turn.thread, turn.move) {
        StepKeepsConnInv(w, turn.thread, turn.move, net);
      }
    }
  }

  // With one network thread, that thread uses a missing connection exactly when the disconnect
  // command comes before any connection was made; it never destroys a host twice.
  lemma {:induction false} NetworkThreadFaults(n: nat, turns: seq<Turn>, net: nat, t: nat)
    requires OnlyConnector(turns, net) && t < n && After(n, turns).threads[t].At? && After(n, turns).threads[t].pc.InConn?
    ensures t == net
    ensures var w := After(n, turns);
            Faults(w.threads[t].pc, w.shared, w.threads[t].loc) <==> w.threads[t].pc == InConn(DropNotify) && w.shared.link.made == 0
  {
    ReachableConnInv(n, turns, net);
    FaultsExactly(n, turns, t);
  }
}
