/** What the master sends in every interleaving: whole states that some tick committed. */
module ThreadsSent {
  import opened Base
  import opened Protocol
  import opened ProtocolTheorems
  import opened Client
  import opened Threads
  import opened ThreadsTicks

  // g is h, with no more than further marks.
  ghost predicate IsMarkedCopy(g: GameState, h: GameState) {
    && g.tick == h.tick
    && forall n :: 1 <= n <= 4 ==>
         && Position(g, n).x == Position(h, n).x
         && Position(g, n).y == Position(h, n).y
         && (Exists(h, n) ==> Exists(g, n))
  }

  // g is what commit `seen` - 1 wrote, with no more than further marks.
  ghost predicate StandsBehind(h: seq<Commit>, seen: nat, g: GameState) {
    1 <= seen <= |h| && IsMarkedCopy(g, h[seen - 1].state)
  }

  // The stored state is what the latest commit wrote; before the first there is none to write.
  ghost predicate StoredFollows(s: Shared) {
    match s.gameState
    case None => s.history == []
    case Some(g) => s.history == [] || StandsBehind(s.history, |s.history|, g)
  }

  ghost predicate SendLocal(h: seq<Commit>, s: TickStep, loc: Locals) {
    match s
    case TickUnlockCommit | TickLockSend | TickCheckSend | TickCopySend => h != []
    case TickUnlockSend | TickReadPeer | TickSend => StandsBehind(h, loc.base, loc.work)
    case _ => true
  }

  ghost predicate ThreadSends(h: seq<Commit>, th: Thread) {
    th.At? && th.pc.InTick? ==> SendLocal(h, th.pc.tick, th.loc)
  }

  ghost predicate AllSentFollow(h: seq<Commit>, sent: seq<Sent>) {
    forall i :: 0 <= i < |sent| && sent[i].SentState? ==> StandsBehind(h, sent[i].seen, sent[i].state)
  }

  ghost predicate SentInv(w: World) {
    && StoredFollows(w.shared)
    && AllSentFollow(w.shared.history, w.shared.sent)
    && forall t :: 0 <= t < |w.threads| ==> ThreadSends(w.shared.history, w.threads[t])
  }

  lemma MarkingCopies(g: GameState, h: GameState, id: UInt32)
    requires IsMarkedCopy(g, h)
    ensures IsMarkedCopy(MarkExisting(g, id), h)
  {
  }

  // A statement: the stored state, what was sent and what the thread relies on next.
  lemma StatementKeepsSent(l: Label, s: Shared, loc: Locals, addr: nat)
    requires StoredFollows(s) && AllSentFollow(s.history, s.sent) && ThreadSends(s.history, At(l, loc))
    requires Code(l).Do? && !Faults(l, s, loc)
    ensures var s' := SharedEffect(l, s, loc, addr);
            && s.history <= s'.history
            && StoredFollows(s')
            && AllSentFollow(s'.history, s'.sent)
            && ThreadSends(s'.history, At(Code(l).next, LocalEffect(l, s, loc, addr)))
  {
    if l == InNet(NewsMark) && s.history != [] {
      MarkingCopies(s.gameState.value, s.history[|s.history| - 1].state, loc.message.id);
    }
  }

  lemma ControlKeepsSent(h: seq<Commit>, l: Label, loc: Locals)
    requires ThreadSends(h, At(l, loc))
    ensures match Code(l)
            case Lock(_, next) => ThreadSends(h, At(next, loc))
            case Unlock(_, next) => ThreadSends(h, At(next, loc))
            case Branch(yes, no) => ThreadSends(h, At(yes, loc)) && ThreadSends(h, At(no, loc))
            case _ => true
  {
  }

  // Later commits take nothing away.
  lemma OthersStillSend(h: seq<Commit>, h': seq<Commit>, th: Thread)
    requires h <= h' && ThreadSends(h, th)
    ensures ThreadSends(h', th)
  {
  }

  lemma StepKeepsSentInv(w: World, t: nat, m: Move)
    requires SentInv(w) && Enabled(w, t, m)
    ensures SentInv(Next(w, t, m))
  {
    var w', th := Next(w, t, m), w.threads[t];
    assert ThreadSends(w.shared.history, th);
    if th.At? {
      ControlKeepsSent(w.shared.history, th.pc, th.loc);
      if Code(th.pc).Do? && !Faults(th.pc, w.shared, th.loc) {
        StatementKeepsSent(th.pc, w.shared, th.loc, m.index);
        forall u | 0 <= u < |w'.threads| ensures ThreadSends(w'.shared.history, w'.threads[u]) {
          if u != t {
            OthersStillSend(w.shared.history, w'.shared.history, w.threads[u]);
          }
        }
      }
    }
  }

  lemma {:induction false} ReachableSentInv(threads: nat, turns: seq<Turn>)
    ensures SentInv(After(threads, turns))
  {
    if turns != [] {
      ReachableSentInv(threads, turns[..|turns| - 1]);
      var w, turn := After(threads, turns[..|turns| - 1]), turns[|turns| - 1];
      if Enabled(w, turn.thread, turn.move) {
        StepKeepsSentInv(w, turn.thread, turn.move);
      }
    }
  }

  // Every state handed to the network is the whole state some recorded commit wrote, with its
  // tick and its coordinates, and no more than further marks; it is never a working copy nor
  // the state before the first commit. Its coordinates are the fold of that commit's chain.
  lemma {:induction false} SentStatesAreCommitted(threads: nat, turns: seq<Turn>, i: nat, n: nat, vertical: bool)
    requires 1 <= n <= 4 && i < |After(threads, turns).shared.sent| && After(threads, turns).shared.sent[i].SentState?
    ensures var s := After(threads, turns).shared;
            && WellFormed(s.history)
            && StandsBehind(s.history, s.sent[i].seen, s.sent[i].state)
            && Coordinate(s.sent[i].state, n, vertical) == ToInt32(ChainSum(s.history, s.sent[i].seen, n, vertical))
  {
    ReachableSentInv(threads, turns);
    CommittedStateIsChainSum(threads, turns, After(threads, turns).shared.sent[i].seen - 1, n, vertical);
  }
}
