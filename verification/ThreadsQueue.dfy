/**
 * The queue under every interleaving of pushes, blocking pops and try-pops: its nodes always
 * form one list holding the pushed values not yet popped, in order.
 */
module ThreadsQueue {
  import opened Base
  import opened Threads
  import opened ThreadsLocking

  // ---------------------------------------------------------------- the list

  ghost function Successor(q: Queue, i: nat): Option<nat>
    requires i < |q.spine|
  {
    if i + 1 < |q.spine| then Some(q.spine[i + 1]) else None
  }

  // Following `next` from head visits exactly the spine; its values are the pushes after the
  // popped ones.
  ghost predicate Chain(q: Queue) {
    && (forall i, j :: 0 <= i < j < |q.spine| ==> q.spine[i] != q.spine[j])
    && (forall i :: 0 <= i < |q.spine| ==> q.spine[i] in q.heap)
    && (forall i {:trigger Successor(q, i)} :: 0 <= i < |q.spine| ==> q.heap[q.spine[i]].next == Successor(q, i))
    && q.head == (if q.spine == [] then None else Some(q.spine[0]))
    && |q.pushed| == |q.popped| + |q.spine|
    && (forall i :: 0 <= i < |q.popped| ==> q.popped[i] == q.pushed[i])
    && (forall i :: 0 <= i < |q.spine| ==> q.heap[q.spine[i]].data == q.pushed[|q.popped| + i])
  }

  ghost predicate TailOk(q: Queue) {
    q.tail == if q.spine == [] then None else Some(q.spine[|q.spine| - 1])
  }

  // A node its thread allocated and has not linked yet.
  ghost predicate Pending(q: Queue, loc: Locals) {
    loc.node in q.heap && q.heap[loc.node] == QNode(loc.item, None) && loc.node !in q.spine
  }

  // A node its thread unlinked and has not freed yet.
  ghost predicate Detached(q: Queue, loc: Locals) {
    loc.node in q.heap && loc.node !in q.spine
  }

  // What a thread may rely on before its next statement on the queue.
  ghost predicate QueueLocal(q: Queue, s: QueueStep, loc: Locals) {
    match s
    case PushAlloc => true
    case PushLock => Pending(q, loc)
    case PopLock => true
    case TryLock => true
    case PushCheckTail => Pending(q, loc) && TailOk(q)
    case PushLinkTail => Pending(q, loc) && TailOk(q) && q.spine != []
    case PushSetHead => Pending(q, loc) && TailOk(q) && q.spine == []
    case PushSetTail => q.spine != [] && q.spine[|q.spine| - 1] == loc.node
    case PopWait => TailOk(q) && q.spine == []
    case TryEmpty => TailOk(q) && q.spine == []
    case TakeHead => TailOk(q) && q.spine != []
    case TakeAdvance => TailOk(q) && q.spine != [] && loc.node == q.spine[0] && loc.node in q.heap && loc.item == q.heap[loc.node].data
    case TakeTest => Detached(q, loc) && (q.spine != [] ==> TailOk(q))
    case TakeClearTail => Detached(q, loc) && q.spine == []
    case TakeFree => Detached(q, loc) && TailOk(q)
    case _ => TailOk(q)
  }

  // The unlinked node a thread is responsible for.
  ghost function Owned(th: Thread): Option<nat> {
    if th.At? && th.pc.InQueue? then
      match th.pc.step
      case PushLock | PushCheckTail | PushLinkTail | PushSetHead | TakeTest | TakeClearTail | TakeFree => Some(th.loc.node)
      case _ => None
    else None
  }

  ghost predicate ThreadOk(q: Queue, th: Thread) {
    th.At? && th.pc.InQueue? ==> Chain(q) && QueueLocal(q, th.pc.step, th.loc)
  }

  ghost predicate QueueInv(w: World) {
    && Chain(w.shared.queue)
    && (QueueMutex !in w.owner ==> TailOk(w.shared.queue))
    && (forall t :: 0 <= t < |w.threads| ==> ThreadOk(w.shared.queue, w.threads[t]))
    && (forall t, u :: 0 <= t < u < |w.threads| && Owned(w.threads[t]).Some? && Owned(w.threads[u]).Some? ==>
          Owned(w.threads[t]) != Owned(w.threads[u]))
  }

  // ---------------------------------------------------------------- single statements

  // No statement on the queue follows a dangling pointer or frees twice.
  lemma NoQueueFault(s: Shared, step: QueueStep, loc: Locals)
    requires Chain(s.queue) && QueueLocal(s.queue, step, loc)
    ensures !Faults(InQueue(step), s, loc)
  {
  }

  predicate IsDo(step: QueueStep) {
    QueueCode(step).Do?
  }

  // A statement keeps the list.
  lemma DoKeepsChain(s: Shared, step: QueueStep, loc: Locals, addr: nat)
    requires Chain(s.queue) && QueueLocal(s.queue, step, loc) && IsDo(step)
    requires step == PushAlloc ==> addr !in s.queue.heap
    ensures Chain(QueueEffect(step, s.queue, loc, addr))
  {
    match step {
      case PushLinkTail => LinkTailKeepsChain(s.queue, loc);
      case TakeAdvance => AdvanceKeepsChain(s.queue, loc);
      case PushSetHead => SetHeadKeepsChain(s.queue, loc);
      case PushAlloc => SameNodesKeepChain(s.queue, QueueEffect(step, s.queue, loc, addr));
      case TakeFree => SameNodesKeepChain(s.queue, QueueEffect(step, s.queue, loc, addr));
      case _ => SameNodesKeepChain(s.queue, QueueEffect(step, s.queue, loc, addr));
    }
  }

  lemma SetHeadKeepsChain(q: Queue, loc: Locals)
    requires Chain(q) && QueueLocal(q, PushSetHead, loc)
    ensures Chain(QueueEffect(PushSetHead, q, loc, 0))
  {
    assert QueueEffect(PushSetHead, q, loc, 0).spine == [loc.node];
  }

  // It establishes what the thread needs next.
  lemma PushDoEstablishes(s: Shared, step: QueueStep, loc: Locals, addr: nat)
    requires Chain(s.queue) && QueueLocal(s.queue, step, loc)
    requires step == PushAlloc || step == PushLinkTail || step == PushSetHead || step == PushSetTail
    requires step == PushAlloc ==> addr !in s.queue.heap
    ensures QueueLocal(QueueEffect(step, s.queue, loc, addr), QueueCode(step).next.step, LocalEffect(InQueue(step), s, loc, addr))
  {
  }

  lemma TakeDoEstablishes(s: Shared, step: QueueStep, loc: Locals, addr: nat)
    requires Chain(s.queue) && QueueLocal(s.queue, step, loc)
    requires step == TakeHead || step == TakeAdvance || step == TakeClearTail || step == TakeFree
    ensures QueueLocal(QueueEffect(step, s.queue, loc, addr), QueueCode(step).next.step, LocalEffect(InQueue(step), s, loc, addr))
  {
    if step == TakeAdvance {
      AdvanceDetaches(s.queue, loc);
    }
  }

  lemma SameNodesKeepChain(q: Queue, q': Queue)
    requires Chain(q) && q'.spine == q.spine && q'.head == q.head && q'.pushed == q.pushed && q'.popped == q.popped
    requires forall i :: 0 <= i < |q.spine| ==> q.spine[i] in q'.heap && q'.heap[q.spine[i]] == q.heap[q.spine[i]]
    ensures Chain(q')
  {
    assert forall i {:trigger Successor(q', i)} :: 0 <= i < |q.spine| ==> Successor(q', i) == Successor(q, i);
  }

  lemma LinkTailKeepsChain(q: Queue, loc: Locals)
    requires Chain(q) && QueueLocal(q, PushLinkTail, loc)
    ensures Chain(QueueEffect(PushLinkTail, q, loc, 0))
  {
    var q', n := QueueEffect(PushLinkTail, q, loc, 0), |q.spine|;
    forall i {:trigger Successor(q', i)} | 0 <= i < n + 1 ensures q'.heap[q'.spine[i]].next == Successor(q', i) {
      if i < n - 1 {
        assert Successor(q', i) == Successor(q, i) && q'.spine[i] != q.spine[n - 1];
      }
    }
  }

  lemma AdvanceKeepsChain(q: Queue, loc: Locals)
    requires Chain(q) && QueueLocal(q, TakeAdvance, loc)
    ensures Chain(QueueEffect(TakeAdvance, q, loc, 0))
  {
    var q' := QueueEffect(TakeAdvance, q, loc, 0);
    assert q.heap[q.spine[0]].next == Successor(q, 0);
    assert q'.heap == q.heap && q'.spine == q.spine[1..] && q'.pushed == q.pushed && q'.popped == q.popped + [loc.item];
    forall i {:trigger Successor(q', i)} | 0 <= i < |q'.spine|
      ensures q'.heap[q'.spine[i]].next == Successor(q', i)
    {
      assert Successor(q', i) == Successor(q, i + 1);
    }
    forall i | 0 <= i < |q'.spine|
      ensures q'.spine[i] in q'.heap && q'.heap[q'.spine[i]].data == q'.pushed[|q'.popped| + i]
    {
      assert q'.spine[i] == q.spine[i + 1];
    }
  }

  lemma AdvanceDetaches(q: Queue, loc: Locals)
    requires Chain(q) && QueueLocal(q, TakeAdvance, loc)
    ensures QueueLocal(QueueEffect(TakeAdvance, q, loc, 0), TakeTest, loc)
  {
    forall i | 0 <= i < |q.spine[1..]| ensures q.spine[1..][i] != loc.node {
      assert q.spine[1..][i] == q.spine[i + 1];
    }
  }

  // Lock operations, tests and waits leave what the next statement needs.
  lemma ControlEstablishes(s: Shared, step: QueueStep, loc: Locals, flag: bool)
    requires Chain(s.queue) && QueueLocal(s.queue, step, loc)
    ensures match QueueCode(step)
            case Lock(x, next) =>
              x == QueueMutex && (TailOk(s.queue) ==> ThreadOk(s.queue, At(next, loc)))
              && Owned(At(next, loc)) == Owned(At(InQueue(step), loc))
            case Unlock(_, next) => next == Done && TailOk(s.queue)
            case Branch(yes, no) =>
              var next := At(if Test(InQueue(step), s, loc, flag) then yes else no, loc);
              ThreadOk(s.queue, next) && (Owned(next).Some? ==> Owned(next) == Owned(At(InQueue(step), loc)))
            case Wait(_) => TailOk(s.queue)
            case _ => true
  {
  }

  // What the other threads rely on survives: a waiting push keeps its node as it is.
  lemma PendingSurvives(q: Queue, step: QueueStep, loc: Locals, addr: nat, other: Locals)
    requires Chain(q) && QueueLocal(q, step, loc) && Pending(q, other)
    requires step == PushAlloc ==> addr !in q.heap
    requires Owned(At(InQueue(step), loc)) != Some(other.node)
    ensures Pending(QueueEffect(step, q, loc, addr), other)
  {
  }

  lemma AllocKeepsOthers(q: Queue, loc: Locals, addr: nat, step: QueueStep, other: Locals)
    requires Chain(q) && addr !in q.heap && QueueLocal(q, step, other)
    ensures QueueLocal(QueueEffect(PushAlloc, q, loc, addr), step, other)
  {
  }

  // ---------------------------------------------------------------- steps of the world

  lemma OwnedIsUnlinked(q: Queue, th: Thread)
    requires ThreadOk(q, th) && Owned(th).Some?
    ensures Owned(th).value in q.heap && Owned(th).value !in q.spine
  {
  }

  // A step that leaves the queue as it is.
  lemma QuietStepKeeps(w: World, w': World, t: nat)
    requires QueueInv(w) && t < |w.threads| && |w'.threads| == |w.threads|
    requires w'.shared.queue == w.shared.queue
    requires forall u :: 0 <= u < |w.threads| && u != t ==> w'.threads[u] == w.threads[u]
    requires ThreadOk(w.shared.queue, w'.threads[t])
    requires Owned(w'.threads[t]).Some? ==> Owned(w'.threads[t]) == Owned(w.threads[t])
    requires QueueMutex !in w'.owner ==> TailOk(w.shared.queue)
    ensures QueueInv(w')
  {
  }

  // A thread outside the critical section relies on its own unlinked node at most.
  lemma OutsideSurvives(q: Queue, step: QueueStep, loc: Locals, addr: nat, outside: QueueStep, other: Locals)
    requires Chain(q) && QueueLocal(q, step, loc) && QueueLocal(q, outside, other)
    requires step != PushAlloc && QueueHeld(outside) == None
    requires Owned(At(InQueue(step), loc)).Some? && Owned(At(InQueue(outside), other)).Some? ==>
               Owned(At(InQueue(step), loc)) != Owned(At(InQueue(outside), other))
    ensures QueueLocal(QueueEffect(step, q, loc, addr), outside, other)
  {
    if outside == PushLock {
      PendingSurvives(q, step, loc, addr, other);
    }
  }

  lemma OnlyOneInside(w: World, t: nat, u: nat)
    requires LockInv(w) && t < |w.threads| && u < |w.threads| && t != u
    requires w.threads[t].At? && HeldAt(w.threads[t].pc) == Some(QueueMutex)
    requires w.threads[u].At? && w.threads[u].pc.InQueue?
    ensures QueueHeld(w.threads[u].pc.step) == None
  {
    assert Holds(w.threads[u]) != Some(QueueMutex);
  }

  // The other threads when one executes a statement on the queue.
  lemma OthersSurvive(w: World, t: nat, addr: nat, u: nat)
    requires LockInv(w) && QueueInv(w) && t < |w.threads| && u < |w.threads| && t != u
    requires w.threads[t].At? && w.threads[t].pc.InQueue? && IsDo(w.threads[t].pc.step)
    requires w.threads[t].pc.step == PushAlloc ==> addr !in w.shared.queue.heap
    ensures ThreadOk(QueueEffect(w.threads[t].pc.step, w.shared.queue, w.threads[t].loc, addr), w.threads[u])
  {
    var q, step, loc, other := w.shared.queue, w.threads[t].pc.step, w.threads[t].loc, w.threads[u];
    if other.At? && other.pc.InQueue? {
      DoKeepsChain(w.shared, step, loc, addr);
      if step == PushAlloc {
        AllocKeepsOthers(q, loc, addr, other.pc.step, other.loc);
      } else {
        OnlyOneInside(w, t, u);
        assert w.threads[t] == At(InQueue(step), loc) && other == At(InQueue(other.pc.step), other.loc);
        OutsideSurvives(q, step, loc, addr, other.pc.step, other.loc);
      }
    }
  }

  // The node a thread owns after its statement is nobody else's.
  lemma OwnedStaysDistinct(w: World, t: nat, addr: nat, u: nat)
    requires QueueInv(w) && t < |w.threads| && u < |w.threads| && t != u
    requires w.threads[t].At? && w.threads[t].pc.InQueue? && IsDo(w.threads[t].pc.step)
    requires w.threads[t].pc.step == PushAlloc ==> addr !in w.shared.queue.heap
    requires Owned(w.threads[u]).Some?
    ensures var l := w.threads[t].pc;
            Owned(At(Code(l).next, LocalEffect(l, w.shared, w.threads[t].loc, addr))) != Owned(w.threads[u])
  {
    OwnedIsUnlinked(w.shared.queue, w.threads[u]);
  }

  lemma DoStepKeeps(w: World, t: nat, m: Move)
    requires LockInv(w) && QueueInv(w) && Enabled(w, t, m)
    requires w.threads[t].At? && w.threads[t].pc.InQueue? && IsDo(w.threads[t].pc.step)
    ensures QueueInv(Next(w, t, m)) && !Next(w, t, m).crashed
  {
    var step, loc, addr := w.threads[t].pc.step, w.threads[t].loc, m.index;
    var w' := Next(w, t, m);
    NoQueueFault(w.shared, step, loc);
    DoKeepsChain(w.shared, step, loc, addr);
    DoEstablishes(w.shared, step, loc, addr);
    forall u | 0 <= u < |w'.threads| ensures ThreadOk(w'.shared.queue, w'.threads[u]) {
      if u != t { OthersSurvive(w, t, addr, u); }
    }
    forall u, v | 0 <= u < v < |w'.threads| && Owned(w'.threads[u]).Some? && Owned(w'.threads[v]).Some?
      ensures Owned(w'.threads[u]) != Owned(w'.threads[v])
    {
      if u == t { OwnedStaysDistinct(w, t, addr, v); }
      if v == t { OwnedStaysDistinct(w, t, addr, u); }
    }
    if QueueMutex !in w'.owner {
      assert step == PushAlloc;
    }
  }

  lemma DoEstablishes(s: Shared, step: QueueStep, loc: Locals, addr: nat)
    requires Chain(s.queue) && QueueLocal(s.queue, step, loc) && IsDo(step)
    requires step == PushAlloc ==> addr !in s.queue.heap
    ensures QueueCode(step).next.InQueue?
    ensures QueueLocal(QueueEffect(step, s.queue, loc, addr), QueueCode(step).next.step, LocalEffect(InQueue(step), s, loc, addr))
  {
    if step == PushAlloc || step == PushLinkTail || step == PushSetHead || step == PushSetTail {
      PushDoEstablishes(s, step, loc, addr);
    } else {
      TakeDoEstablishes(s, step, loc, addr);
    }
  }

  // Lock operations, tests and waits on the queue.
  lemma ControlStepKeeps(w: World, t: nat, m: Move)
    requires LockInv(w) && QueueInv(w) && Enabled(w, t, m)
    requires w.threads[t].At? && w.threads[t].pc.InQueue? && !IsDo(w.threads[t].pc.step) && w.threads[t].pc.step != PushSignal
    ensures QueueInv(Next(w, t, m)) && !Next(w, t, m).crashed
  {
    var step, loc, w' := w.threads[t].pc.step, w.threads[t].loc, Next(w, t, m);
    assert ThreadOk(w.shared.queue, w.threads[t]);
    ControlEstablishes(w.shared, step, loc, m.flag);
    QuietStepKeeps(w, w', t);
  }

  lemma SignalStepKeeps(w: World, t: nat, m: Move)
    requires LockInv(w) && QueueInv(w) && Enabled(w, t, m)
    requires w.threads[t].At? && w.threads[t].pc == InQueue(PushSignal)
    ensures QueueInv(Next(w, t, m)) && !Next(w, t, m).crashed
  {
    var w1 := Goto(w, t, InQueue(PushUnlock), w.threads[t].loc);
    QuietStepKeeps(w, w1, t);
    if SomeoneAsleep(w.threads) {
      QuietStepKeeps(w1, Next(w, t, m), m.index);
    }
  }

  lemma OtherEffectsSpareQueue(l: Label, s: Shared, loc: Locals, addr: nat)
    requires !l.InQueue?
    ensures SharedEffect(l, s, loc, addr).queue == s.queue
  {
  }

  // Statements of other functions do not touch the queue.
  lemma OtherStepKeeps(w: World, t: nat, m: Move)
    requires LockInv(w) && QueueInv(w) && Enabled(w, t, m)
    requires w.threads[t].At? ==> !w.threads[t].pc.InQueue?
    ensures QueueInv(Next(w, t, m))
  {
    var w' := Next(w, t, m);
    if w.threads[t].At? {
      OtherCodeStaysOut(w.threads[t].pc);
      OtherEffectsSpareQueue(w.threads[t].pc, w.shared, w.threads[t].loc, m.index);
    }
    QuietStepKeeps(w, w', t);
  }

  lemma OtherCodeStaysOut(l: Label)
    requires !l.InQueue?
    ensures match Code(l)
            case Lock(x, next) => x != QueueMutex && !next.InQueue?
            case Unlock(x, next) => x != QueueMutex && !next.InQueue?
            case Branch(yes, no) => !yes.InQueue? && !no.InQueue?
            case Do(next) => !next.InQueue?
            case _ => l == Done
  {
  }

  lemma StepKeepsQueueInv(w: World, t: nat, m: Move)
    requires LockInv(w) && QueueInv(w) && Enabled(w, t, m)
    ensures QueueInv(Next(w, t, m))
  {
    if w.threads[t].At? && w.threads[t].pc.InQueue? {
      if IsDo(w.threads[t].pc.step) {
        DoStepKeeps(w, t, m);
      } else if w.threads[t].pc.step == PushSignal {
        SignalStepKeeps(w, t, m);
      } else {
        ControlStepKeeps(w, t, m);
      }
    } else {
      OtherStepKeeps(w, t, m);
    }
  }

  lemma {:induction false} ReachableQueueInv(n: nat, turns: seq<Turn>)
    ensures LockInv(After(n, turns)) && QueueInv(After(n, turns))
  {
    ReachableLockInv(n, turns);
    if turns != [] {
      ReachableQueueInv(n, turns[..|turns| - 1]);
      var w, turn := After(n, turns[..|turns| - 1]), turns[|turns| - 1];
      if Enabled(w, turn.thread, turn.move) {
        StepKeepsQueueInv(w, turn.thread, turn.move);
      }
    }
  }

  // ---------------------------------------------------------------- FIFO in every interleaving

  // The values of the nodes linked from head on, in order.
  ghost function Linked(q: Queue): seq<int>
    requires Chain(q)
  {
    seq(|q.spine|, i requires 0 <= i < |q.spine| => q.heap[q.spine[i]].data)
  }

  lemma ChainIsFifo(q: Queue)
    requires Chain(q)
    ensures q.popped + Linked(q) == q.pushed
  {
  }

  // Popped values followed by the linked ones are the pushed values, in lock order; the linked
  // nodes are distinct and end where `next` is NULL.
  lemma {:induction false} LinearizableFifo(n: nat, turns: seq<Turn>)
    ensures var q := After(n, turns).shared.queue;
            && Chain(q)
            && q.popped + Linked(q) == q.pushed
            && (QueueMutex !in After(n, turns).owner ==> TailOk(q))
  {
    ReachableQueueInv(n, turns);
    ChainIsFifo(After(n, turns).shared.queue);
  }

  // No schedule makes the queue follow a NULL or dangling pointer or free a node twice.
  lemma {:induction false} QueueMemorySafe(n: nat, turns: seq<Turn>, t: nat)
    requires t < n && After(n, turns).threads[t].At? && After(n, turns).threads[t].pc.InQueue?
    ensures !Faults(After(n, turns).threads[t].pc, After(n, turns).shared, After(n, turns).threads[t].loc)
  {
    ReachableQueueInv(n, turns);
    var w := After(n, turns);
    assert ThreadOk(w.shared.queue, w.threads[t]);
    NoQueueFault(w.shared, w.threads[t].pc.step, w.threads[t].loc);
  }

  // ---------------------------------------------------------------- nothing leaks

  // A node is linked, or some thread will link or free it.
  ghost predicate Accounted(w: World, a: nat) {
    a in w.shared.queue.spine || exists t :: 0 <= t < |w.threads| && Owned(w.threads[t]) == Some(a)
  }

  ghost predicate NoLeak(w: World) {
    forall a :: a in w.shared.queue.heap ==> Accounted(w, a)
  }

  lemma TakingLeaksNothing(s: Shared, loc: Locals, a: nat)
    requires Chain(s.queue) && QueueLocal(s.queue, TakeAdvance, loc)
    requires a !in QueueEffect(TakeAdvance, s.queue, loc, 0).spine && loc.node != a
    ensures a !in s.queue.spine
  {
    assert s.queue.spine == [s.queue.spine[0]] + s.queue.spine[1..];
  }

  // What a statement leaves to nobody was not linked and not this thread's before.
  lemma StatementLeaksNothing(s: Shared, step: QueueStep, loc: Locals, addr: nat, a: nat)
    requires Chain(s.queue) && QueueLocal(s.queue, step, loc) && IsDo(step) && (step == PushAlloc ==> addr !in s.queue.heap)
    requires a in QueueEffect(step, s.queue, loc, addr).heap && a !in QueueEffect(step, s.queue, loc, addr).spine
    requires Owned(At(QueueCode(step).next, LocalEffect(InQueue(step), s, loc, addr))) != Some(a)
    ensures a in s.queue.heap && a !in s.queue.spine && Owned(At(InQueue(step), loc)) != Some(a)
  {
    if step == TakeAdvance { TakingLeaksNothing(s, loc, a); }
  }

  lemma ControlKeepsOwned(l: Label, s: Shared, loc: Locals, flag: bool)
    ensures match Code(l)
            case Lock(_, next) => Owned(At(next, loc)) == Owned(At(l, loc))
            case Unlock(_, next) => Owned(At(l, loc)) == None
            case Branch(yes, no) => Owned(At(if Test(l, s, loc, flag) then yes else no, loc)) == Owned(At(l, loc))
            case Do(_) => !l.InQueue? ==> Owned(At(l, loc)) == None
            case _ => Owned(At(l, loc)) == None
  {
  }

  lemma StillAccounted(w: World, w': World, t: nat, a: nat)
    requires Accounted(w, a) && t < |w.threads| == |w'.threads| && w'.shared.queue.spine == w.shared.queue.spine
    requires forall u :: 0 <= u < |w.threads| && u != t ==> Owned(w'.threads[u]) == Owned(w.threads[u])
    requires Owned(w.threads[t]).Some? ==> Owned(w'.threads[t]) == Owned(w.threads[t])
    ensures Accounted(w', a)
  {
    if a !in w.shared.queue.spine {
      var u :| 0 <= u < |w.threads| && Owned(w.threads[u]) == Some(a);
      assert Owned(w'.threads[u]) == Some(a);
    }
  }

  lemma DoLeaksNothing(w: World, t: nat, m: Move)
    requires QueueInv(w) && NoLeak(w) && Enabled(w, t, m)
    requires w.threads[t].At? && w.threads[t].pc.InQueue? && IsDo(w.threads[t].pc.step)
    ensures NoLeak(Next(w, t, m))
  {
    var w', step, loc := Next(w, t, m), w.threads[t].pc.step, w.threads[t].loc;
    NoQueueFault(w.shared, step, loc);
    forall a | a in w'.shared.queue.heap ensures Accounted(w', a) {
      if a !in w'.shared.queue.spine && Owned(w'.threads[t]) != Some(a) {
        StatementLeaksNothing(w.shared, step, loc, m.index, a);
        var u :| 0 <= u < |w.threads| && Owned(w.threads[u]) == Some(a);
        assert u != t && w'.threads[u] == w.threads[u];
      } else if Owned(w'.threads[t]) == Some(a) {
        assert 0 <= t < |w'.threads|;
      }
    }
  }

  lemma StepLeaksNothing(w: World, t: nat, m: Move)
    requires QueueInv(w) && NoLeak(w) && Enabled(w, t, m)
    ensures NoLeak(Next(w, t, m))
  {
    var w', th := Next(w, t, m), w.threads[t];
    if th.At? && th.pc.InQueue? && IsDo(th.pc.step) {
      DoLeaksNothing(w, t, m);
    } else {
      if th.At? {
        ControlKeepsOwned(th.pc, w.shared, th.loc, m.flag);
        if !th.pc.InQueue? { OtherEffectsSpareQueue(th.pc, w.shared, th.loc, m.index); }
      }
      forall a | a in w'.shared.queue.heap ensures Accounted(w', a) {
        StillAccounted(w, w', t, a);
      }
    }
  }

  // In every schedule each node is linked or in the hands of one thread: once all calls have
  // returned, exactly the linked nodes are allocated.
  lemma {:induction false} NothingLeaks(n: nat, turns: seq<Turn>)
    ensures NoLeak(After(n, turns))
    ensures (forall t :: 0 <= t < n ==> After(n, turns).threads[t].Idle?) ==>
              forall a :: a in After(n, turns).shared.queue.heap <==> a in After(n, turns).shared.queue.spine
  {
    ReachableQueueInv(n, turns);
    if turns != [] {
      NothingLeaks(n, turns[..|turns| - 1]);
      ReachableQueueInv(n, turns[..|turns| - 1]);
      var w, turn := After(n, turns[..|turns| - 1]), turns[|turns| - 1];
      if Enabled(w, turn.thread, turn.move) {
        StepLeaksNothing(w, turn.thread, turn.move);
      }
    }
    var w := After(n, turns);
    if forall t :: 0 <= t < n ==> w.threads[t].Idle? {
      forall a ensures a in w.shared.queue.heap <==> a in w.shared.queue.spine {
        if a in w.shared.queue.heap { assert Accounted(w, a); }
      }
    }
  }
}
