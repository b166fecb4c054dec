/**
 * The queue gives its values away: what a thread that holds its mutex finds, that it takes the
 * oldest value exactly when there is one, and whole pushes and pops from any state in which the
 * queue is free.
 */
module ThreadsPops {
  import opened Threads
  import opened ThreadsLocking
  import opened ThreadsQueue
  import opened ThreadsRuns

  // ---------------------------------------------------------------- what a pop finds

  // A try-pop reports an empty queue only if it is empty.
  lemma {:induction false} EmptyMeansEmpty(n: nat, turns: seq<Turn>, t: nat)
    requires t < n && After(n, turns).threads[t].At?
    requires After(n, turns).threads[t].pc == InQueue(TryEmpty) || After(n, turns).threads[t].pc == InQueue(PopWait)
    ensures After(n, turns).shared.queue.spine == []
  {
    ReachableQueueInv(n, turns);
    assert ThreadOk(After(n, turns).shared.queue, After(n, turns).threads[t]);
  }

  // About to look whether there is a value.
  predicate Looks(l: Label) {
    l == InQueue(TryCheck) || l == InQueue(PopCheck) || l == InQueue(PopRecheck)
  }

  lemma HeadOfChain(q: Queue)
    requires Chain(q)
    ensures q.head.None? <==> q.spine == []
  {
  }

  // Where a thread that looks goes next.
  function Found(l: Label, q: Queue): Label {
    if q.spine != [] then InQueue(TakeHead) else if l == InQueue(TryCheck) then InQueue(TryEmpty) else InQueue(PopWait)
  }

  lemma LookStep(w: World, t: nat, m: Move)
    requires Enabled(w, t, m) && w.threads[t].At? && Looks(w.threads[t].pc) && Chain(w.shared.queue)
    ensures Next(w, t, m) == Goto(w, t, Found(w.threads[t].pc, w.shared.queue), w.threads[t].loc)
  {
    HeadOfChain(w.shared.queue);
  }

  // Looking, a thread goes on to take the head exactly when a value is linked; otherwise a try-pop
  // gives up and a pop waits.
  lemma {:induction false} TakesIffLinked(n: nat, turns: seq<Turn>, t: nat, m: Move)
    requires t < n && After(n, turns).threads[t].At? && Looks(After(n, turns).threads[t].pc) && Enabled(After(n, turns), t, m)
    ensures var w, w' := After(n, turns), After(n, turns + [Turn(t, m)]);
            && w'.threads[t].At?
            && (w'.threads[t].pc == InQueue(TakeHead) <==> w.shared.queue.spine != [])
            && (w.shared.queue.spine == [] ==>
                  w'.threads[t].pc == if w.threads[t].pc == InQueue(TryCheck) then InQueue(TryEmpty) else InQueue(PopWait))
  {
    LinearizableFifo(n, turns);
    LookStep(After(n, turns), t, m);
    OneTurn(n, turns, Turn(t, m));
  }

  // The thread holds the oldest value, which is unlinked; nothing else happened.
  ghost predicate Took(w: World, w': World, t: nat)
    requires t < |w.threads| == |w'.threads|
  {
    var q, q' := w.shared.queue, w'.shared.queue;
    && |q.popped| < |q.pushed|
    && q'.popped == q.popped + [q.pushed[|q.popped|]] && q'.pushed == q.pushed
    && w'.shared == w.shared.(queue := q')
    && !w'.crashed && w'.owner == w.owner
    && w'.threads == w.threads[t := w'.threads[t]]
    && w'.threads[t].At? && w'.threads[t].pc == InQueue(TakeTest) && w'.threads[t].loc.item == q.pushed[|q.popped|]
  }

  lemma {:induction false} QueueCanRun(n: nat, turns: seq<Turn>, t: nat, step: QueueStep)
    requires t < n && !After(n, turns).crashed && After(n, turns).threads[t].At? && After(n, turns).threads[t].pc == InQueue(step)
    requires QueueCode(step).Branch? || (QueueCode(step).Do? && step != PushAlloc)
    ensures Enabled(After(n, turns), t, Run(0, false))
    ensures After(n, turns + [Turn(t, Run(0, false))]) == Next(After(n, turns), t, Run(0, false))
    ensures !Next(After(n, turns), t, Run(0, false)).crashed
  {
    LocalOfReachable(n, turns, t, step);
    NoQueueFault(After(n, turns).shared, step, After(n, turns).threads[t].loc);
    OneTurn(n, turns, Turn(t, Run(0, false)));
  }

  // What the two statements do to queue and locals.
  lemma TakeEffects(s: Shared, loc: Locals)
    requires Chain(s.queue) && QueueLocal(s.queue, TakeHead, loc)
    ensures var q, loc' := s.queue, LocalEffect(InQueue(TakeHead), s, loc, 0);
            var q' := QueueEffect(TakeAdvance, q, loc', 0);
            && |q.popped| < |q.pushed|
            && loc'.item == q.pushed[|q.popped|]
            && q'.popped == q.popped + [q.pushed[|q.popped|]] && q'.pushed == q.pushed
            && QueueEffect(TakeHead, q, loc, 0) == q
            && LocalEffect(InQueue(TakeAdvance), s, loc', 0) == loc'
  {
    assert s.queue.heap[s.queue.spine[0]].data == s.queue.pushed[|s.queue.popped|];
  }

  // The world after them.
  function TakenFrom(w: World, t: nat): World
    requires t < |w.threads| && w.threads[t].At?
  {
    var loc := LocalEffect(InQueue(TakeHead), w.shared, w.threads[t].loc, 0);
    w.(threads := w.threads[t := At(InQueue(TakeTest), loc)],
       shared := w.shared.(queue := QueueEffect(TakeAdvance, w.shared.queue, loc, 0)))
  }

  lemma TakeSteps(w: World, t: nat, w1: World)
    requires t < |w.threads| && w.threads[t].At? && w.threads[t].pc == InQueue(TakeHead) && !w.crashed
    requires Chain(w.shared.queue) && QueueLocal(w.shared.queue, TakeHead, w.threads[t].loc)
    requires Enabled(w, t, Run(0, false)) && w1 == Next(w, t, Run(0, false)) && !w1.crashed
    requires Enabled(w1, t, Run(0, false)) && !Next(w1, t, Run(0, false)).crashed
    ensures w1.threads[t].At? && w1.threads[t].pc == InQueue(TakeAdvance)
    ensures Next(w1, t, Run(0, false)) == TakenFrom(w, t)
  {
    TakeEffects(w.shared, w.threads[t].loc);
    var loc := LocalEffect(InQueue(TakeHead), w.shared, w.threads[t].loc, 0);
    assert w1 == Goto(w, t, InQueue(TakeAdvance), loc);
    assert w1.threads[t := At(InQueue(TakeTest), loc)] == w.threads[t := At(InQueue(TakeTest), loc)];
  }

  lemma TakenMeansTook(w: World, t: nat)
    requires t < |w.threads| && w.threads[t].At? && !w.crashed
    requires Chain(w.shared.queue) && QueueLocal(w.shared.queue, TakeHead, w.threads[t].loc)
    ensures Took(w, TakenFrom(w, t), t)
  {
    TakeEffects(w.shared, w.threads[t].loc);
  }

  lemma {:induction false} LocalOfReachable(n: nat, turns: seq<Turn>, t: nat, step: QueueStep)
    requires t < n && After(n, turns).threads[t].At? && After(n, turns).threads[t].pc == InQueue(step)
    ensures Chain(After(n, turns).shared.queue) && QueueLocal(After(n, turns).shared.queue, step, After(n, turns).threads[t].loc)
  {
    ReachableQueueInv(n, turns);
    assert ThreadOk(After(n, turns).shared.queue, After(n, turns).threads[t]);
  }

  lemma LooksCanRun(w: World, t: nat)
    requires t < |w.threads| && !w.crashed && w.threads[t].At? && Looks(w.threads[t].pc)
    ensures Enabled(w, t, Run(0, false))
  {
  }

  lemma {:induction false} LookRuns(n: nat, turns: seq<Turn>, t: nat)
    requires t < n && !After(n, turns).crashed && After(n, turns).threads[t].At? && Looks(After(n, turns).threads[t].pc)
    ensures var w := After(n, turns);
            After(n, turns + [Turn(t, Run(0, false))]) == Goto(w, t, Found(w.threads[t].pc, w.shared.queue), w.threads[t].loc)
  {
    var w := After(n, turns);
    LocalOfReachable(n, turns, t, w.threads[t].pc.step);
    LooksCanRun(w, t);
    LookStep(w, t, Run(0, false));
    OneTurn(n, turns, Turn(t, Run(0, false)));
  }

  lemma {:induction false} TakeHeadValue(n: nat, turns: seq<Turn>, t: nat)
    requires t < n && !After(n, turns).crashed && After(n, turns).threads[t].At? && After(n, turns).threads[t].pc == InQueue(TakeHead)
    ensures After(n, turns + [Turn(t, Run(0, false))] + [Turn(t, Run(0, false))]) == TakenFrom(After(n, turns), t)
    ensures Took(After(n, turns), TakenFrom(After(n, turns), t), t)
  {
    var w, first := After(n, turns), turns + [Turn(t, Run(0, false))];
    LocalOfReachable(n, turns, t, TakeHead);
    TakenMeansTook(w, t);
    QueueCanRun(n, turns, t, TakeHead);
    assert After(n, first).threads[t].At? && After(n, first).threads[t].pc == InQueue(TakeAdvance);
    QueueCanRun(n, first, t, TakeAdvance);
    TakeSteps(w, t, After(n, first));
  }

  lemma TookLater(w: World, w1: World, w': World, t: nat)
    requires t < |w.threads| && !w.crashed && w.threads[t].At? && w1 == Goto(w, t, InQueue(TakeHead), w.threads[t].loc)
    requires |w'.threads| == |w.threads| && Took(w1, w', t)
    ensures Took(w, w', t)
  {
    assert w1.threads[t := w'.threads[t]] == w.threads[t := w'.threads[t]];
  }

  // The next three statements of thread t.
  function ThreeTurns(t: nat): seq<Turn> {
    [Turn(t, Run(0, false)), Turn(t, Run(0, false)), Turn(t, Run(0, false))]
  }

  // From every reachable state in which a thread looks and a value is linked, its next three
  // statements unlink the oldest value and hand it to the thread.
  lemma {:induction false} LookingTakes(n: nat, turns: seq<Turn>, t: nat)
    requires t < n && !After(n, turns).crashed && After(n, turns).threads[t].At? && Looks(After(n, turns).threads[t].pc)
    requires After(n, turns).shared.queue.spine != []
    ensures Took(After(n, turns), After(n, turns + ThreeTurns(t)), t)
  {
    var w, turn := After(n, turns), Turn(t, Run(0, false));
    LookRuns(n, turns, t);
    TakeHeadValue(n, turns + [turn], t);
    assert turns + ThreeTurns(t) == turns + [turn] + [turn] + [turn];
    TookLater(w, After(n, turns + [turn]), After(n, turns + ThreeTurns(t)), t);
  }

  // ---------------------------------------------------------------- whole calls

  lemma RunQueue(n: nat, turns: seq<Turn>, rest: seq<Thread>, t: nat, step: QueueStep, loc: Locals, owner: map<Mutex, nat>, s: Shared)
    returns (turns': seq<Turn>)
    requires Stands(n, turns, rest, t, InQueue(step), loc, owner, s) && QueueCode(step).Do? && step != PushAlloc
    ensures Stands(n, turns', rest, t, QueueCode(step).next, LocalEffect(InQueue(step), s, loc, 0), owner,
                   s.(queue := QueueEffect(step, s.queue, loc, 0)))
  {
    var next := At(QueueCode(step).next, LocalEffect(InQueue(step), s, loc, 0));
    turns' := turns + [Turn(t, Run(0, false))];
    QueueCanRun(n, turns, t, step);
    assert rest[t := At(InQueue(step), loc)][t := next] == rest[t := next];
  }

  // Only the queue changed, in what was pushed and popped as told.
  ghost predicate Moved(s: Shared, s': Shared, pushed: seq<int>, popped: seq<int>) {
    && s' == s.(queue := s'.queue)
    && s'.queue.pushed == s.queue.pushed + pushed
    && s'.queue.popped == s.queue.popped + popped
  }

  // What is still linked, oldest first.
  ghost function Waiting(s: Shared): seq<int> {
    if |s.queue.popped| <= |s.queue.pushed| then s.queue.pushed[|s.queue.popped|..] else []
  }

  lemma FreeNode(n: nat, turns: seq<Turn>, rest: seq<Thread>, t: nat, loc: Locals, s: Shared)
    returns (turns': seq<Turn>, s': Shared)
    requires Stands(n, turns, rest, t, InQueue(TakeFree), loc, map[QueueMutex := t], s)
    ensures Stands(n, turns', rest, t, Done, loc, map[], s') && Moved(s, s', [], [])
  {
    s' := s.(queue := QueueEffect(TakeFree, s.queue, loc, 0));
    turns' := RunQueue(n, turns, rest, t, TakeFree, loc, map[QueueMutex := t], s);
    turns' := Release(n, turns', rest, t, InQueue(TakeUnlock), loc, s');
  }

  lemma FinishTake(n: nat, turns: seq<Turn>, rest: seq<Thread>, t: nat, loc: Locals, s: Shared)
    returns (turns': seq<Turn>, s': Shared)
    requires Stands(n, turns, rest, t, InQueue(TakeTest), loc, map[QueueMutex := t], s)
    ensures Stands(n, turns', rest, t, Done, loc, map[], s') && Moved(s, s', [], [])
  {
    turns' := Choose(n, turns, rest, t, InQueue(TakeTest), loc, map[QueueMutex := t], s);
    if s.queue.head.None? {
      turns' := RunQueue(n, turns', rest, t, TakeClearTail, loc, map[QueueMutex := t], s);
      turns', s' := FreeNode(n, turns', rest, t, loc, s.(queue := QueueEffect(TakeClearTail, s.queue, loc, 0)));
    } else {
      turns', s' := FreeNode(n, turns', rest, t, loc, s);
    }
  }

  // A thread that looks while a value waits leaves with the oldest one.
  lemma TakeAlone(n: nat, turns: seq<Turn>, rest: seq<Thread>, t: nat, l: Label, loc: Locals, s: Shared)
    returns (turns': seq<Turn>, loc': Locals, s': Shared)
    requires Looks(l) && Stands(n, turns, rest, t, l, loc, map[QueueMutex := t], s) && Waiting(s) != []
    ensures Stands(n, turns', rest, t, Done, loc', map[], s')
    ensures Moved(s, s', [], [Waiting(s)[0]]) && loc'.item == Waiting(s)[0]
  {
    LinearizableFifo(n, turns);
    var w := After(n, turns);
    LookingTakes(n, turns, t);
    turns' := turns + ThreeTurns(t);
    var w' := After(n, turns');
    loc' := w'.threads[t].loc;
    assert w.threads[t := w'.threads[t]] == rest[t := w'.threads[t]];
    turns', s' := FinishTake(n, turns', rest, t, loc', w'.shared);
  }

  // A whole try-pop: the oldest value waiting, or nothing when none is.
  lemma TryPopAlone(n: nat, turns: seq<Turn>, threads: seq<Thread>, t: nat, args: Locals, s: Shared)
    returns (turns': seq<Turn>, loc: Locals, s': Shared)
    requires After(n, turns) == World(threads, map[], s, false) && t < |threads| && threads[t].Idle?
    ensures Stands(n, turns', threads, t, Done, loc, map[], s')
    ensures if Waiting(s) == [] then s' == s else Moved(s, s', [], [Waiting(s)[0]]) && loc.item == Waiting(s)[0]
  {
    turns' := Start(n, turns, threads, t, InQueue(TryLock), args, s);
    turns' := Acquire(n, turns', threads, t, InQueue(TryLock), args, s);
    if Waiting(s) != [] {
      turns', loc, s' := TakeAlone(n, turns', threads, t, InQueue(TryCheck), args, s);
    } else {
      NothingWaits(n, turns', s.queue);
      turns' := Choose(n, turns', threads, t, InQueue(TryCheck), args, map[QueueMutex := t], s);
      turns' := Release(n, turns', threads, t, InQueue(TryEmpty), args, s);
      loc, s' := args, s;
    }
  }

  lemma {:induction false} NothingWaits(n: nat, turns: seq<Turn>, q: Queue)
    requires After(n, turns).shared.queue == q && Waiting(After(n, turns).shared) == []
    ensures q.head.None?
  {
    LinearizableFifo(n, turns);
    HeadOfChain(q);
  }

  // A whole pop: the oldest value waiting, or the thread falls asleep.
  lemma PopAlone(n: nat, turns: seq<Turn>, threads: seq<Thread>, t: nat, args: Locals, s: Shared)
    returns (turns': seq<Turn>, loc: Locals, s': Shared)
    requires After(n, turns) == World(threads, map[], s, false) && t < |threads| && threads[t].Idle?
    ensures Waiting(s) != [] ==>
              Stands(n, turns', threads, t, Done, loc, map[], s') && Moved(s, s', [], [Waiting(s)[0]]) && loc.item == Waiting(s)[0]
    ensures Waiting(s) == [] ==> After(n, turns') == World(threads[t := Asleep(loc)], map[], s, false)
  {
    turns' := Start(n, turns, threads, t, InQueue(PopLock), args, s);
    turns' := Acquire(n, turns', threads, t, InQueue(PopLock), args, s);
    if Waiting(s) != [] {
      turns', loc, s' := TakeAlone(n, turns', threads, t, InQueue(PopCheck), args, s);
    } else {
      NothingWaits(n, turns', s.queue);
      turns' := Choose(n, turns', threads, t, InQueue(PopCheck), args, map[QueueMutex := t], s);
      OneTurn(n, turns', Turn(t, Run(0, false)));
      turns' := turns' + [Turn(t, Run(0, false))];
      assert threads[t := At(InQueue(PopWait), args)][t := Asleep(args)] == threads[t := Asleep(args)];
      assert map[QueueMutex := t] - {QueueMutex} == map[];
      loc, s' := args, s;
    }
  }

  lemma Allocate(n: nat, turns: seq<Turn>, rest: seq<Thread>, t: nat, loc: Locals, s: Shared) returns (turns': seq<Turn>, addr: nat)
    requires Stands(n, turns, rest, t, InQueue(PushAlloc), loc, map[], s)
    ensures Stands(n, turns', rest, t, InQueue(PushLock), loc.(node := addr), map[],
                   s.(queue := QueueEffect(PushAlloc, s.queue, loc, addr)))
  {
    addr := UnusedAddress(s.queue.heap.Keys);
    assert addr !in s.queue.heap;
    turns' := turns + [Turn(t, Run(addr, false))];
    OneTurn(n, turns, Turn(t, Run(addr, false)));
    assert rest[t := At(InQueue(PushAlloc), loc)][t := At(InQueue(PushLock), loc.(node := addr))]
        == rest[t := At(InQueue(PushLock), loc.(node := addr))];
  }

  // From the lock to the signal: the value is linked.
  lemma LinkValue(n: nat, turns: seq<Turn>, rest: seq<Thread>, t: nat, loc: Locals, s: Shared)
    returns (turns': seq<Turn>, s': Shared)
    requires Stands(n, turns, rest, t, InQueue(PushLock), loc, map[], s)
    ensures Stands(n, turns', rest, t, InQueue(PushSignal), loc, map[QueueMutex := t], s') && Moved(s, s', [loc.item], [])
  {
    turns' := Acquire(n, turns, rest, t, InQueue(PushLock), loc, s);
    turns' := Choose(n, turns', rest, t, InQueue(PushCheckTail), loc, map[QueueMutex := t], s);
    if s.queue.tail.Some? {
      LocalOfReachable(n, turns', t, PushLinkTail);
      turns' := RunQueue(n, turns', rest, t, PushLinkTail, loc, map[QueueMutex := t], s);
      s' := s.(queue := QueueEffect(PushLinkTail, s.queue, loc, 0));
    } else {
      turns' := RunQueue(n, turns', rest, t, PushSetHead, loc, map[QueueMutex := t], s);
      s' := s.(queue := QueueEffect(PushSetHead, s.queue, loc, 0));
    }
    turns' := RunQueue(n, turns', rest, t, PushSetTail, loc, map[QueueMutex := t], s');
    s' := s'.(queue := QueueEffect(PushSetTail, s'.queue, loc, 0));
  }

  // The other threads after a signal that reaches thread u, if any sleeps.
  function Signalled(threads: seq<Thread>, u: nat): seq<Thread>
    requires SomeoneAsleep(threads) ==> u < |threads| && threads[u].Asleep?
  {
    if SomeoneAsleep(threads) then threads[u := Woken(threads[u].loc)] else threads
  }

  lemma SignalOne(n: nat, turns: seq<Turn>, rest: seq<Thread>, t: nat, loc: Locals, s: Shared, u: nat) returns (turns': seq<Turn>)
    requires Stands(n, turns, rest, t, InQueue(PushSignal), loc, map[QueueMutex := t], s) && rest[t].Idle?
    requires SomeoneAsleep(rest) ==> u < |rest| && rest[u].Asleep?
    ensures Stands(n, turns', Signalled(rest, u), t, InQueue(PushUnlock), loc, map[QueueMutex := t], s)
  {
    var w := After(n, turns);
    if SomeoneAsleep(rest) {
      assert w.threads[u].Asleep?;
    }
    assert SomeoneAsleep(w.threads) ==> SomeoneAsleep(rest) by {
      if v :| 0 <= v < |w.threads| && w.threads[v].Asleep? { assert rest[v].Asleep?; }
    }
    turns' := turns + [Turn(t, Run(u, false))];
    OneTurn(n, turns, Turn(t, Run(u, false)));
    assert After(n, turns').threads == Signalled(rest, u)[t := At(InQueue(PushUnlock), loc)];
  }

  // A whole push: the value waits behind the others, and one sleeper is woken if any sleeps.
  lemma PushAlone(n: nat, turns: seq<Turn>, threads: seq<Thread>, t: nat, args: Locals, s: Shared, u: nat)
    returns (turns': seq<Turn>, s': Shared)
    requires After(n, turns) == World(threads, map[], s, false) && t < |threads| && threads[t].Idle?
    requires SomeoneAsleep(threads) ==> u < |threads| && threads[u].Asleep?
    ensures After(n, turns') == World(Signalled(threads, u), map[], s', false) && Moved(s, s', [args.item], [])
  {
    var addr;
    turns' := Start(n, turns, threads, t, InQueue(PushAlloc), args, s);
    turns', addr := Allocate(n, turns', threads, t, args, s);
    var s1, loc := s.(queue := QueueEffect(PushAlloc, s.queue, args, addr)), args.(node := addr);
    turns', s' := LinkValue(n, turns', threads, t, loc, s1);
    turns' := SignalOne(n, turns', threads, t, loc, s', u);
    turns' := Release(n, turns', Signalled(threads, u), t, InQueue(PushUnlock), loc, s');
    turns' := Finish(n, turns', Signalled(threads, u), t, loc, s');
  }

  // A thread that was woken, by a signal or spuriously, looks again.
  lemma LookAgain(n: nat, turns: seq<Turn>, threads: seq<Thread>, u: nat, s: Shared) returns (turns': seq<Turn>)
    requires After(n, turns) == World(threads, map[], s, false) && u < |threads| && threads[u].Woken?
    ensures Stands(n, turns', threads, u, InQueue(PopRecheck), threads[u].loc, map[QueueMutex := u], s)
  {
    turns' := turns + [Turn(u, Run(0, false))];
    OneTurn(n, turns, Turn(u, Run(0, false)));
  }

  // The value pushed while a thread sleeps on the empty queue can be that thread's.
  lemma SleeperGetsValue(n: nat, turns: seq<Turn>, threads: seq<Thread>, t: nat, args: Locals, s: Shared, u: nat)
    returns (turns': seq<Turn>, loc: Locals, s': Shared)
    requires After(n, turns) == World(threads, map[], s, false) && t < |threads| && threads[t].Idle?
    requires u < |threads| && threads[u].Asleep? && Waiting(s) == []
    ensures Stands(n, turns', threads, u, Done, loc, map[], s')
    ensures Moved(s, s', [args.item], [args.item]) && loc.item == args.item
  {
    var s1;
    turns', s1 := PushAlone(n, turns, threads, t, args, s, u);
    LinearizableFifo(n, turns);
    assert Waiting(s1) == [args.item];
    var woken := Signalled(threads, u);
    turns' := LookAgain(n, turns', woken, u, s1);
    turns', loc, s' := TakeAlone(n, turns', woken, u, InQueue(PopRecheck), woken[u].loc, s1);
    assert woken[u := At(Done, loc)] == threads[u := At(Done, loc)];
  }

  // Waking up spuriously, a thread finds the queue empty and falls asleep again.
  lemma {:induction false} SpuriousWakeUp(n: nat, turns: seq<Turn>, threads: seq<Thread>, u: nat, s: Shared)
    requires After(n, turns) == World(threads, map[], s, false) && u < |threads| && threads[u].Asleep? && Waiting(s) == []
    ensures var run := Turn(u, Run(0, false));
            After(n, turns + [Turn(u, Spurious)] + [run] + [run] + [run]) == World(threads, map[], s, false)
  {
    var loc, run, spurious := threads[u].loc, Turn(u, Run(0, false)), turns + [Turn(u, Spurious)];
    NothingWaits(n, turns, s.queue);
    OneTurn(n, turns, Turn(u, Spurious));
    OneTurn(n, spurious, run);
    assert After(n, spurious + [run]) == World(threads[u := At(InQueue(PopRecheck), loc)], map[QueueMutex := u], s, false);
    OneTurn(n, spurious + [run], run);
    assert After(n, spurious + [run] + [run]) == World(threads[u := At(InQueue(PopWait), loc)], map[QueueMutex := u], s, false);
    OneTurn(n, spurious + [run] + [run], run);
    assert threads[u := At(InQueue(PopWait), loc)][u := Asleep(loc)] == threads;
    assert map[QueueMutex := u] - {QueueMutex} == map[];
  }

  // One thread pushes 7, another pops it.
  lemma PushThenTryPop() returns (turns: seq<Turn>)
    ensures var q := After(2, turns).shared.queue; q.pushed == [7] && q.popped == [7]
    ensures After(2, turns).threads[1].At? && After(2, turns).threads[1].loc.item == 7
  {
    var threads, s, loc, s' := seq(2, i => Idle), Initial(2).shared, SOME_LOCALS, Initial(2).shared;
    turns, s := PushAlone(2, [], threads, 0, SOME_LOCALS.(item := 7), s, 0);
    assert Waiting(s) == [7];
    turns, loc, s' := TryPopAlone(2, turns, threads, 1, SOME_LOCALS, s);
  }
}
