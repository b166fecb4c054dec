/** Locks in every interleaving: one mutex per thread at most, guarded writes, no deadlock. */
module ThreadsLocking {
  import opened Base
  import opened Threads

  // The mutex a thread holds when it is about to execute this statement.
  function TickHeld(s: TickStep): Option<Mutex> {
    match s
    case TickCheckUi | TickUiMissing | TickCopyUi | TickUnlockUi => Some(UserInfoMutex)
    case TickCheckState | TickStateMissing | TickSnapshot | TickUnlockState | TickCommit | TickUnlockCommit
       | TickCheckSend | TickSendMissing | TickCopySend | TickUnlockSend => Some(GameStateMutex)
    case TickAddInputs | TickUnlockInputs => Some(InputsMutex)
    case _ => None
  }

  function UserHeld(s: UserStep): Option<Mutex> {
    match s
    case SlaveReadId | SlaveUnlockUi | ReadyRead | ReadyUnlock => Some(UserInfoMutex)
    case _ => None
  }

  function NetHeld(s: NetStep): Option<Mutex> {
    match s
    case InfoStore | InfoUnlock => Some(UserInfoMutex)
    case InitState | InitUnlockState | NewsCheck | NewsMissing | NewsMark | NewsUnlock => Some(GameStateMutex)
    case InitAlloc | InitFailed | InitInputs | InitUnlockInputs | InputStore | InputUnlock => Some(InputsMutex)
    case _ => None
  }

  function QueueHeld(s: QueueStep): Option<Mutex> {
    match s
    case PushAlloc | PushLock | PopLock | TryLock => None
    case _ => Some(QueueMutex)
  }

  function HeldAt(l: Label): Option<Mutex> {
    match l
    case Done => None
    case InTick(s) => TickHeld(s)
    case InUser(s) => UserHeld(s)
    case InNet(s) => NetHeld(s)
    case InQueue(s) => QueueHeld(s)
    case InConn(_) => None
  }

  // One statement keeps the books: it takes a mutex only when it holds none, releases only what
  // it holds, and leaves the holding as the next statement expects it.
  predicate Balanced(l: Label) {
    match Code(l)
    case Lock(x, next) => HeldAt(l) == None && HeldAt(next) == Some(x)
    case Unlock(x, next) => HeldAt(l) == Some(x) && HeldAt(next) == None
    case Branch(yes, no) => HeldAt(yes) == HeldAt(l) && HeldAt(no) == HeldAt(l)
    case Do(next) => HeldAt(next) == HeldAt(l)
    case Signal(next) => HeldAt(l) == Some(QueueMutex) && HeldAt(next) == Some(QueueMutex)
    case Wait(next) => l == InQueue(PopWait) && next == InQueue(PopRecheck) && HeldAt(l) == Some(QueueMutex)
    case Return => l == Done
  }

  lemma TickLocksBalance(s: TickStep)
    requires TickCode(s).Lock?
    ensures Balanced(InTick(s))
  {
  }

  lemma TickUnlocksBalance(s: TickStep)
    requires TickCode(s).Unlock?
    ensures Balanced(InTick(s))
  {
  }

  lemma TickTestsBalance(s: TickStep)
    requires TickCode(s).Branch?
    ensures Balanced(InTick(s))
  {
  }

  lemma TickBalances(s: TickStep)
    ensures Balanced(InTick(s))
  {
    match TickCode(s) {
      case Lock(_, _) => TickLocksBalance(s);
      case Unlock(_, _) => TickUnlocksBalance(s);
      case Branch(_, _) => TickTestsBalance(s);
      case _ =>
    }
  }

  lemma UserBalances(s: UserStep)
    ensures Balanced(InUser(s))
  {
  }

  lemma NetLocksBalance(s: NetStep)
    requires NetCode(s).Lock? || NetCode(s).Unlock?
    ensures Balanced(InNet(s))
  {
  }

  lemma NetBalances(s: NetStep)
    ensures Balanced(InNet(s))
  {
    if NetCode(s).Lock? || NetCode(s).Unlock? {
      NetLocksBalance(s);
    }
  }

  lemma QueueBalances(s: QueueStep)
    ensures Balanced(InQueue(s))
  {
  }

  lemma ConnBalances(s: ConnStep)
    ensures Balanced(InConn(s))
  {
  }

  // Every path through every function, early returns included, takes a mutex only when it
  // holds none, releases only what it holds, and ends holding nothing.
  lemma EveryPathBalances(l: Label)
    ensures Balanced(l)
    ensures IsEntry(l) || l == Done ==> HeldAt(l) == None
  {
    match l {
      case Done =>
      case InTick(s) => TickBalances(s);
      case InUser(s) => UserBalances(s);
      case InNet(s) => NetBalances(s);
      case InQueue(s) => QueueBalances(s);
      case InConn(s) => ConnBalances(s);
    }
  }

  function Holds(th: Thread): Option<Mutex> {
    if th.At? then HeldAt(th.pc) else None
  }

  // The owner map says exactly who is where.
  ghost predicate LockInv(w: World) {
    && (forall x :: x in w.owner ==> w.owner[x] < |w.threads| && Holds(w.threads[w.owner[x]]) == Some(x))
    && (forall t :: 0 <= t < |w.threads| && Holds(w.threads[t]).Some? ==>
          Holds(w.threads[t]).value in w.owner && w.owner[Holds(w.threads[t]).value] == t)
  }

  lemma LockInvAfterSwitch(w: World, w': World, t: nat)
    requires LockInv(w) && t < |w.threads| && |w'.threads| == |w.threads| && w'.threads == w.threads[t := w'.threads[t]]
    requires w'.owner == w.owner && Holds(w'.threads[t]) == Holds(w.threads[t])
    ensures LockInv(w')
  {
  }

  lemma LockInvAfterLock(w: World, w': World, t: nat, x: Mutex)
    requires LockInv(w) && t < |w.threads| && |w'.threads| == |w.threads| && w'.threads == w.threads[t := w'.threads[t]]
    requires x !in w.owner && Holds(w.threads[t]) == None
    requires w'.owner == w.owner[x := t] && Holds(w'.threads[t]) == Some(x)
    ensures LockInv(w')
  {
  }

  lemma LockInvAfterUnlock(w: World, w': World, t: nat, x: Mutex)
    requires LockInv(w) && t < |w.threads| && |w'.threads| == |w.threads| && w'.threads == w.threads[t := w'.threads[t]]
    requires Holds(w.threads[t]) == Some(x)
    requires w'.owner == w.owner - {x} && Holds(w'.threads[t]) == None
    ensures LockInv(w')
  {
  }

  lemma SignalKeepsLockInv(w: World, t: nat, m: Move)
    requires LockInv(w) && Enabled(w, t, m) && w.threads[t].At? && w.threads[t].pc == InQueue(PushSignal)
    ensures LockInv(Next(w, t, m))
  {
    var w1 := Goto(w, t, InQueue(PushUnlock), w.threads[t].loc);
    LockInvAfterSwitch(w, w1, t);
    if SomeoneAsleep(w.threads) {
      LockInvAfterSwitch(w1, Next(w, t, m), m.index);
    }
  }

  lemma InstructionKeepsLockInv(w: World, t: nat, m: Move)
    requires LockInv(w) && Enabled(w, t, m) && w.threads[t].At?
    ensures LockInv(Next(w, t, m))
  {
    var w', l := Next(w, t, m), w.threads[t].pc;
    EveryPathBalances(l);
    match Code(l) {
      case Lock(x, _) => LockInvAfterLock(w, w', t, x);
      case Unlock(x, _) => LockInvAfterUnlock(w, w', t, x);
      case Wait(_) => LockInvAfterUnlock(w, w', t, QueueMutex);
      case Signal(_) => SignalKeepsLockInv(w, t, m);
      case _ =>
        if w'.threads != w.threads { LockInvAfterSwitch(w, w', t); }
    }
  }

  lemma StepKeepsLockInv(w: World, t: nat, m: Move)
    requires LockInv(w) && Enabled(w, t, m)
    ensures LockInv(Next(w, t, m))
  {
    var w' := Next(w, t, m);
    match w.threads[t] {
      case Idle =>
        EveryPathBalances(m.entry);
        LockInvAfterSwitch(w, w', t);
      case Asleep(_) => LockInvAfterSwitch(w, w', t);
      case Woken(_) => LockInvAfterLock(w, w', t, QueueMutex);
      case At(_, _) => InstructionKeepsLockInv(w, t, m);
    }
  }

  lemma {:induction false} ReachableLockInv(n: nat, turns: seq<Turn>)
    ensures LockInv(After(n, turns)) && |After(n, turns).threads| == n
  {
    if turns != [] {
      ReachableLockInv(n, turns[..|turns| - 1]);
      var w, turn := After(n, turns[..|turns| - 1]), turns[|turns| - 1];
      if Enabled(w, turn.thread, turn.move) {
        StepKeepsLockInv(w, turn.thread, turn.move);
      }
    }
  }

  // A thread holds at most one mutex, and none when it is between functions.
  lemma {:induction false} OneMutexPerThread(n: nat, turns: seq<Turn>, x: Mutex, y: Mutex)
    ensures var w := After(n, turns);
            x in w.owner && y in w.owner && w.owner[x] == w.owner[y] ==> x == y
    ensures var w := After(n, turns);
            x in w.owner ==> w.owner[x] < n && w.threads[w.owner[x]].At? && w.threads[w.owner[x]].pc != Done
  {
    ReachableLockInv(n, turns);
  }

  // ---------------------------------------------------------------- guarded data

  // Every statement that changes shared data holds that data's mutex; the queue's nodes that
  // are not linked yet are private to the thread that allocated them. Packets are handed to the
  // network, and the connection is made and destroyed, under no mutex at all.
  lemma WritesAreGuarded(l: Label, s: Shared, loc: Locals, addr: nat)
    requires Code(l).Do?
    ensures var s' := SharedEffect(l, s, loc, addr);
            && (s'.userInfo != s.userInfo ==> HeldAt(l) == Some(UserInfoMutex))
            && (s'.gameState != s.gameState ==> HeldAt(l) == Some(GameStateMutex))
            && (s'.lastInputs != s.lastInputs ==> HeldAt(l) == Some(InputsMutex))
            && (s'.queue != s.queue ==> HeldAt(l) == Some(QueueMutex) || l == InQueue(PushAlloc))
            && (s'.sent != s.sent ==> HeldAt(l) == None)
            && (s'.link != s.link ==> HeldAt(l) == None)
  {
  }

  // Every statement whose outcome depends on shared data holds that data's mutex too, with two
  // exceptions: the network thread reads MY_USER_INFO unprotected when an input arrives, and
  // CLIENT_PEER and CLIENT_HOST have no mutex. (What is read only to print or not to use is no
  // statement here.)
  lemma ReadsAreGuarded(l: Label, s: Shared, s': Shared, loc: Locals, flag: bool, addr: nat)
    requires s'.history == s.history
    requires Test(l, s, loc, flag) != Test(l, s', loc, flag) || LocalEffect(l, s, loc, addr) != LocalEffect(l, s', loc, addr)
    ensures s' == s.(userInfo := s'.userInfo) ==> HeldAt(l) == Some(UserInfoMutex) || l == InNet(InputRole)
    ensures s' == s.(gameState := s'.gameState) ==> HeldAt(l) == Some(GameStateMutex)
    ensures s' == s.(lastInputs := s'.lastInputs) ==> HeldAt(l) == Some(InputsMutex)
    ensures s' == s.(queue := s'.queue) ==> HeldAt(l) == Some(QueueMutex)
    ensures s' == s.(link := s'.link) ==> HeldAt(l) == None
  {
  }

  // So no two threads are ever about to change the same data.
  lemma {:induction false} NoWriteRaces(n: nat, turns: seq<Turn>, t: nat, u: nat, x: Mutex)
    requires t < n && u < n && Holds(After(n, turns).threads[t]) == Some(x) && Holds(After(n, turns).threads[u]) == Some(x)
    ensures t == u
  {
    ReachableLockInv(n, turns);
  }

  // ---------------------------------------------------------------- deadlock freedom

  lemma {:induction false} UnusedAddress(used: set<nat>) returns (addr: nat)
    ensures forall a :: a in used ==> a < addr
    decreases |used|
  {
    if used == {} {
      addr := 0;
    } else {
      var a :| a in used;
      var rest := UnusedAddress(used - {a});
      addr := if a < rest then rest else a + 1;
      forall b | b in used ensures b < addr {
        assert b == a || b in used - {a};
      }
    }
  }

  // A thread whose next statement is no lock operation can always execute it.
  lemma NonLockCanRun(w: World, t: nat) returns (m: Move)
    requires !w.crashed && t < |w.threads| && w.threads[t].At? && !Code(w.threads[t].pc).Lock?
    ensures m.Run? && Enabled(w, t, m)
  {
    var addr := UnusedAddress(w.shared.queue.heap.Keys);
    if SomeoneAsleep(w.threads) && Code(w.threads[t].pc).Signal? {
      var i :| 0 <= i < |w.threads| && w.threads[i].Asleep?;
      m := Run(i, false);
    } else {
      m := Run(addr, false);
    }
  }

  lemma OwnerCanRun(w: World, x: Mutex) returns (m: Move)
    requires LockInv(w) && !w.crashed && x in w.owner
    ensures m.Run? && Enabled(w, w.owner[x], m)
  {
    EveryPathBalances(w.threads[w.owner[x]].pc);
    m := NonLockCanRun(w, w.owner[x]);
  }

  // Unfinished work outside an empty-queue wait.
  predicate Unfinished(th: Thread) {
    th.At? || th.Woken?
  }

  // In every reachable state with unfinished work some thread can execute a statement.
  lemma DeadlockFree(n: nat, turns: seq<Turn>, t: nat) returns (u: nat, m: Move)
    requires t < n && Unfinished(After(n, turns).threads[t]) && !After(n, turns).crashed
    ensures m.Run? && Enabled(After(n, turns), u, m)
  {
    ReachableLockInv(n, turns);
    var w := After(n, turns);
    if w.threads[t].Woken? {
      if QueueMutex in w.owner {
        u := w.owner[QueueMutex];
        m := OwnerCanRun(w, QueueMutex);
      } else {
        u, m := t, Run(0, false);
      }
    } else if Code(w.threads[t].pc).Lock? {
      var x := Code(w.threads[t].pc).mutex;
      if x in w.owner {
        u := w.owner[x];
        m := OwnerCanRun(w, x);
      } else {
        u, m := t, Run(0, false);
      }
    } else {
      u := t;
      m := NonLockCanRun(w, t);
    }
  }
}
