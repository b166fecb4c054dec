/** No interleaving loses a wake-up: sleepers never outwait the values in the queue. */
module ThreadsWakeup {
  import opened Base
  import opened Threads
  import opened ThreadsLocking
  import opened ThreadsQueue

  // A thread that will still take a value or wake a sleeper on behalf of a linked value: it was
  // woken and has not rechecked, or it is inside a push before its signal or inside a pop
  // before its unlinking.
  predicate Answers(th: Thread) {
    || th.Woken?
    || (th.At? && th.pc.InQueue? && match th.pc.step
                                    case PopRecheck | PushSetTail | PushSignal | TakeHead | TakeAdvance => true
                                    case _ => false)
  }

  function Weight(th: Thread): nat {
    if Answers(th) then 1 else 0
  }

  function Count(threads: seq<Thread>): nat {
    if threads == [] then 0 else Count(threads[..|threads| - 1]) + Weight(threads[|threads| - 1])
  }

  // Woken by a signal or spuriously, mutex not yet regained.
  function CountWoken(threads: seq<Thread>): nat {
    if threads == [] then 0 else CountWoken(threads[..|threads| - 1]) + (if threads[|threads| - 1].Woken? then 1 else 0)
  }

  lemma {:induction false} CountAfterChange(threads: seq<Thread>, t: nat, th: Thread)
    requires t < |threads|
    ensures Count(threads[t := th]) == Count(threads) - Weight(threads[t]) + Weight(th)
  {
    var last := |threads| - 1;
    if t == last {
      assert threads[t := th][..last] == threads[..last];
    } else {
      CountAfterChange(threads[..last], t, th);
      assert threads[t := th][..last] == threads[..last][t := th];
    }
  }

  lemma {:induction false} OnlyWokenAnswer(threads: seq<Thread>)
    requires forall t :: 0 <= t < |threads| && Answers(threads[t]) ==> threads[t].Woken?
    ensures Count(threads) == CountWoken(threads)
  {
    if threads != [] {
      OnlyWokenAnswer(threads[..|threads| - 1]);
    }
  }

  lemma {:induction false} PositiveCountHasAnswerer(threads: seq<Thread>) returns (t: nat)
    requires Count(threads) > 0
    ensures t < |threads| && Answers(threads[t])
  {
    if Answers(threads[|threads| - 1]) {
      t := |threads| - 1;
    } else {
      t := PositiveCountHasAnswerer(threads[..|threads| - 1]);
    }
  }

  ghost predicate WakeInv(w: World) {
    SomeoneAsleep(w.threads) ==> |w.shared.queue.spine| <= Count(w.threads)
  }

  // A step of one thread that gives up no more answers than it unlinks values, and takes on one
  // for each value it links, unless the queue is empty afterwards.
  lemma PaidStepKeeps(w: World, w': World, t: nat)
    requires WakeInv(w) && t < |w.threads| && |w'.threads| == |w.threads| && w'.threads == w.threads[t := w'.threads[t]]
    requires w'.threads[t].Asleep? ==> w.threads[t].Asleep? || w'.shared.queue.spine == []
    requires || w'.shared.queue.spine == []
             || |w'.shared.queue.spine| - |w.shared.queue.spine| <= Weight(w'.threads[t]) - Weight(w.threads[t])
    ensures WakeInv(w')
  {
    CountAfterChange(w.threads, t, w'.threads[t]);
    if SomeoneAsleep(w'.threads) && w'.shared.queue.spine != [] {
      var u :| 0 <= u < |w'.threads| && w'.threads[u].Asleep?;
      assert w.threads[u].Asleep?;
    }
  }

  // A statement on the queue links a value only with a new answer and gives one up only with an
  // unlinking.
  lemma DoPays(s: Shared, step: QueueStep, loc: Locals, loc': Locals, addr: nat)
    requires Chain(s.queue) && QueueLocal(s.queue, step, loc) && IsDo(step)
    ensures |QueueEffect(step, s.queue, loc, addr).spine| - |s.queue.spine|
         <= Weight(At(QueueCode(step).next, loc')) - Weight(At(InQueue(step), loc))
  {
  }

  // Other statements but the signal give up an answer, or go to sleep, only over an empty queue.
  lemma ControlPays(s: Shared, step: QueueStep, loc: Locals, flag: bool)
    requires Chain(s.queue) && QueueLocal(s.queue, step, loc)
    ensures match QueueCode(step)
            case Lock(_, next) => Weight(At(InQueue(step), loc)) <= Weight(At(next, loc))
            case Unlock(_, next) => Weight(At(InQueue(step), loc)) == 0
            case Branch(yes, no) =>
              || s.queue.spine == []
              || Weight(At(InQueue(step), loc)) <= Weight(At(if Test(InQueue(step), s, loc, flag) then yes else no, loc))
            case Wait(_) => s.queue.spine == []
            case _ => true
  {
  }

  lemma QueueStepKeepsWakeInv(w: World, t: nat, m: Move)
    requires LockInv(w) && QueueInv(w) && WakeInv(w) && Enabled(w, t, m)
    requires w.threads[t].At? && w.threads[t].pc.InQueue? && w.threads[t].pc.step != PushSignal
    ensures WakeInv(Next(w, t, m))
  {
    var step, loc := w.threads[t].pc.step, w.threads[t].loc;
    assert ThreadOk(w.shared.queue, w.threads[t]);
    if IsDo(step) {
      NoQueueFault(w.shared, step, loc);
      DoPays(w.shared, step, loc, LocalEffect(InQueue(step), w.shared, loc, m.index), m.index);
    } else {
      ControlPays(w.shared, step, loc, m.flag);
    }
    PaidStepKeeps(w, Next(w, t, m), t);
  }

  lemma SignalStepKeepsWakeInv(w: World, t: nat, m: Move)
    requires WakeInv(w) && Enabled(w, t, m)
    requires w.threads[t].At? && w.threads[t].pc == InQueue(PushSignal)
    ensures WakeInv(Next(w, t, m))
  {
    var w' := Next(w, t, m);
    var w1 := Goto(w, t, InQueue(PushUnlock), w.threads[t].loc);
    CountAfterChange(w.threads, t, w1.threads[t]);
    if SomeoneAsleep(w.threads) {
      CountAfterChange(w1.threads, m.index, w'.threads[m.index]);
    } else {
      assert !SomeoneAsleep(w'.threads);
    }
  }

  lemma OtherStepKeepsWakeInv(w: World, t: nat, m: Move)
    requires WakeInv(w) && Enabled(w, t, m)
    requires w.threads[t].At? ==> !w.threads[t].pc.InQueue?
    ensures WakeInv(Next(w, t, m))
  {
    if w.threads[t].At? {
      OtherCodeStaysOut(w.threads[t].pc);
    }
    PaidStepKeeps(w, Next(w, t, m), t);
  }

  lemma {:induction false} ReachableWakeInv(n: nat, turns: seq<Turn>)
    ensures WakeInv(After(n, turns))
  {
    if turns != [] {
      ReachableWakeInv(n, turns[..|turns| - 1]);
      ReachableQueueInv(n, turns[..|turns| - 1]);
      var w, turn := After(n, turns[..|turns| - 1]), turns[|turns| - 1];
      var t := turn.thread;
      if Enabled(w, t, turn.move) {
        if !w.threads[t].At? || !w.threads[t].pc.InQueue? {
          OtherStepKeepsWakeInv(w, t, turn.move);
        } else if w.threads[t].pc.step == PushSignal {
          SignalStepKeepsWakeInv(w, t, turn.move);
        } else {
          QueueStepKeepsWakeInv(w, t, turn.move);
        }
      }
    }
  }

  // Whenever nobody is inside the queue's critical section and some thread sleeps, there are no
  // more values in the queue than threads woken and not yet rechecking.
  lemma {:induction false} NoLostWakeup(n: nat, turns: seq<Turn>)
    ensures var w := After(n, turns);
            QueueMutex !in w.owner && SomeoneAsleep(w.threads) ==> |w.shared.queue.spine| <= CountWoken(w.threads)
  {
    ReachableWakeInv(n, turns);
    ReachableLockInv(n, turns);
    var w := After(n, turns);
    if QueueMutex !in w.owner {
      forall t | 0 <= t < |w.threads| && Answers(w.threads[t]) ensures w.threads[t].Woken? {
        assert Holds(w.threads[t]) != Some(QueueMutex);
      }
      OnlyWokenAnswer(w.threads);
    }
  }

  // So a value in the queue never leaves every popper asleep: somebody can execute a statement.
  lemma ValueKeepsSomeoneAwake(n: nat, turns: seq<Turn>) returns (u: nat, m: Move)
    requires !After(n, turns).crashed && After(n, turns).shared.queue.spine != [] && SomeoneAsleep(After(n, turns).threads)
    ensures m.Run? && Enabled(After(n, turns), u, m)
  {
    ReachableWakeInv(n, turns);
    var t := PositiveCountHasAnswerer(After(n, turns).threads);
    u, m := DeadlockFree(n, turns, t);
  }
}
