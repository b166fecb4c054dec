/**
 * No slave is forgotten: with atomic ticks, every registered slave that has a position is marked
 * in the master's state, or the news of it is still on its way to the master.
 */
module SystemMarks {
  import opened Base
  import opened Protocol
  import opened Server
  import opened Client
  import opened System

  // The slave in slot k is marked, or its news waits to be processed.
  ghost predicate Announced(c: Session, k: nat)
    requires 1 <= k <= OTHERS_COUNT
  {
    || (c.client.gameState.Some? && Exists(c.client.gameState.value, k + 1))
    || SlaveNews(UserInfo(k, false)) in c.downCritical
  }

  ghost predicate AllAnnounced(t: seq<Slot>, c: Session)
    requires |t| == TABLE_SIZE
  {
    forall k :: 1 <= k <= OTHERS_COUNT && t[k].Used? ==> Announced(c, k)
  }

  ghost predicate MarksInv(t: seq<Slot>, sessions: map<Peer, Session>)
    requires |t| == TABLE_SIZE
  {
    MasterOf(t).Some? && MasterOf(t).value in sessions ==> AllAnnounced(t, sessions[MasterOf(t).value])
  }

  // ---------------------------------------------------------------- what arrives stays in line

  lemma {:induction false} RouteOnlyAppends(sessions: map<Peer, Session>, outputs: seq<Output>, p: Peer)
    requires p in sessions
    ensures p in Route(sessions, outputs)
    ensures Route(sessions, outputs)[p].client == sessions[p].client
    ensures forall x :: x in sessions[p].downCritical ==> x in Route(sessions, outputs)[p].downCritical
  {
    if outputs != [] {
      RouteOnlyAppends(sessions, outputs[..|outputs| - 1], p);
    }
  }

  lemma {:induction false} AnnouncedAfterRoute(t: seq<Slot>, sessions: map<Peer, Session>, outputs: seq<Output>, p: Peer)
    requires |t| == TABLE_SIZE && p in sessions && AllAnnounced(t, sessions[p])
    ensures p in Route(sessions, outputs) && AllAnnounced(t, Route(sessions, outputs)[p])
  {
    RouteOnlyAppends(sessions, outputs, p);
    forall k | 1 <= k <= OTHERS_COUNT && t[k].Used? ensures Announced(Route(sessions, outputs)[p], k) {
      assert Announced(sessions[p], k);
    }
  }

  // ---------------------------------------------------------------- the steps of a client

  lemma DeliveryKeepsAnnounced(c: Session, k: nat)
    requires 1 <= k <= OTHERS_COUNT && Announced(c, k) && ClientInv(c.client) && c.downCritical != []
    requires c.downCritical[0].SlaveNews? ==> IsMaster(c.client)
    ensures Announced(c.(client := Deliver(c.client, c.downCritical[0]), downCritical := c.downCritical[1..]), k)
  {
    ExistenceNeverReverts(c.client, Delivery(c.downCritical[0]), k + 1);
  }

  lemma AdvanceKeepsAnnounced(c: Session, e: ClientEvent, k: nat)
    requires 1 <= k <= OTHERS_COUNT && Announced(c, k) && ClientInv(c.client)
    ensures Announced(c.(client := Advance(c.client, e)), k)
  {
    ExistenceNeverReverts(c.client, e, k + 1);
  }

  // What a step of the client does to its own session.
  lemma OwnStepKeepsAnnounced(s: System, a: Action, k: nat)
    requires Inv(s) && a.peer in s.sessions && 1 <= k <= OTHERS_COUNT && Announced(s.sessions[a.peer], k)
    requires !a.Open? && !a.Close? && !a.ServerTakesCritical? && !a.ServerTakesStream?
    ensures a.peer in Act(s, a).sessions && Announced(Act(s, a).sessions[a.peer], k)
  {
    var c := s.sessions[a.peer];
    assert SessionInv(InfoOf(s.table, a.peer), c);
    match a {
      case ClientTicks(_, ticks, input) => AdvanceKeepsAnnounced(c, TickEvent(ticks, input), k);
      case ClientTakesStream(_, at) =>
        if at < |c.downStream| { AdvanceKeepsAnnounced(c, Delivery(c.downStream[at]), k); }
      case ClientTakesCritical(_) =>
        if c.downCritical != [] { DeliveryKeepsAnnounced(c, k); }
      case _ =>
    }
  }

  lemma ClientActKeepsMarks(s: System, a: Action)
    requires Inv(s) && MarksInv(s.table, s.sessions) && a.peer in s.sessions
    requires !a.Open? && !a.Close? && !a.ServerTakesCritical? && !a.ServerTakesStream?
    ensures MarksInv(Act(s, a).table, Act(s, a).sessions)
  {
    if MasterOf(s.table) == Some(a.peer) {
      forall k | 1 <= k <= OTHERS_COUNT && s.table[k].Used? ensures Announced(Act(s, a).sessions[a.peer], k) {
        OwnStepKeepsAnnounced(s, a, k);
      }
    }
  }

  // ---------------------------------------------------------------- the steps of the server

  // The second message of a registration ends up in the master's line.
  lemma {:induction false} NewsInLine(sessions: map<Peer, Session>, answer: Output, m: Peer, u: UserInfo)
    requires answer.Unicast? && m in sessions
    ensures var news := Unicast(m, Critical, [TypeCode(SlaveConnected)] + PackUserInfo(u));
            m in Route(sessions, [answer, news]) && SlaveNews(u) in Route(sessions, [answer, news])[m].downCritical
  {
    var news := Unicast(m, Critical, [TypeCode(SlaveConnected)] + PackUserInfo(u));
    ContentRoundTrip(u, PlayerInput(0, 0, 0));
    RouteTwo(sessions, answer, news);
    RouteOnlyAppends(sessions, [answer], m);
    var before := Route(sessions, [answer])[m].downCritical;
    assert (before + [SlaveNews(u)])[|before|] == SlaveNews(u);
  }

  lemma FillKeepsMaster(t: seq<Slot>, free: nat, p: Peer)
    requires TableInv(t) && free < |t| && t[free].Free? && MasterOf(t).Some? && TableInv(t[free := Used(p, false)])
    ensures MasterOf(t[free := Used(p, false)]) == MasterOf(t)
  {
    MasterIsSlotZero(t);
    MasterIsSlotZero(t[free := Used(p, false)]);
  }

  lemma AnswersToSlave(t: seq<Slot>, free: nat, p: Peer, m: Peer)
    requires MasterOf(t) == Some(m)
    ensures Answers(t, free, p, false)
         == [Unicast(p, Critical, AnswerPacket(UserInfo(ToUInt32(free), false))),
             Unicast(m, Critical, [TypeCode(SlaveConnected)] + PackUserInfo(UserInfo(ToUInt32(free), false)))]
  {
  }

  lemma AnnouncedAfterFill(t: seq<Slot>, free: nat, p: Peer, c: Session)
    requires |t| == TABLE_SIZE && free < |t| && AllAnnounced(t, c)
    requires SlaveNews(UserInfo(ToUInt32(free), false)) in c.downCritical
    ensures AllAnnounced(t[free := Used(p, false)], c)
  {
    forall k | 1 <= k <= OTHERS_COUNT && t[free := Used(p, false)][k].Used? ensures Announced(c, k) {
      if k == free {
        assert ToUInt32(free) == k;
      } else {
        assert t[k].Used?;
      }
    }
  }

  // A new slave: the news about it is put in line for the master.
  lemma {:induction false} NewsIsPosted(t: seq<Slot>, free: nat, p: Peer, sessions: map<Peer, Session>, m: Peer, outputs: seq<Output>)
    requires TableInv(t) && free < |t| && t[free].Free? && TableInv(t[free := Used(p, false)])
    requires MasterOf(t) == Some(m) && m in sessions && AllAnnounced(t, sessions[m])
    requires outputs == Answers(t[free := Used(p, false)], free, p, false)
    ensures m in Route(sessions, outputs) && AllAnnounced(t[free := Used(p, false)], Route(sessions, outputs)[m])
  {
    var u := UserInfo(ToUInt32(free), false);
    FillKeepsMaster(t, free, p);
    AnswersToSlave(t[free := Used(p, false)], free, p, m);
    NewsInLine(sessions, Unicast(p, Critical, AnswerPacket(u)), m, u);
    AnnouncedAfterRoute(t, sessions, outputs, m);
    AnnouncedAfterFill(t, free, p, Route(sessions, outputs)[m]);
  }

  lemma {:induction false} RegistrationKeepsMarks(t: seq<Slot>, sessions: map<Peer, Session>, p: Peer)
    requires SessionsInv(t, sessions) && MarksInv(t, sessions)
    ensures MarksInv(Register(t, p).table, Route(sessions, Register(t, p).outputs))
  {
    var free := FirstFree(t);
    if !IsActive(t, p) && free < |t| {
      var isMaster := UsedCount(t) == 0;
      var t' := t[free := Used(p, isMaster)];
      RegisterInCases(t, p, t');
      RegisterKeepsInv(t, p);
      MasterIsSlotZero(t);
      MasterIsSlotZero(t');
      if isMaster {
        UsedCountZero(t);
      } else if MasterOf(t).Some? {
        assert IsActive(t, MasterOf(t).value);
        FillKeepsMaster(t, free, p);
        NewsIsPosted(t, free, p, sessions, MasterOf(t).value, Register(t, p).outputs);
      }
    }
  }

  lemma {:induction false} MessageKeepsMarks(t: seq<Slot>, sessions: map<Peer, Session>, p: Peer, packet: Bytes)
    requires SessionsInv(t, sessions) && MarksInv(t, sessions)
    ensures var r := Step(t, Receive(p, packet)); MarksInv(r.table, Route(sessions, r.outputs))
  {
    var r := Step(t, Receive(p, packet));
    if IsRegistration(Receive(p, packet)) {
      assert r == Register(t, p);
      RegistrationKeepsMarks(t, sessions, p);
    } else {
      assert r.table == t;
      if MasterOf(t).Some? {
        MasterIsSlotZero(t);
        assert IsActive(t, MasterOf(t).value);
        AnnouncedAfterRoute(t, sessions, r.outputs, MasterOf(t).value);
      }
    }
  }

  lemma CloseKeepsMarks(t: seq<Slot>, sessions: map<Peer, Session>, p: Peer)
    requires TableInv(t) && MarksInv(t, sessions)
    ensures MarksInv(Remove(t, p), sessions - {p})
  {
    var t' := Remove(t, p);
    StepKeepsInv(t, Disconnect(p));
    MasterIsSlotZero(t);
    MasterIsSlotZero(t');
    if MasterOf(t').Some? {
      assert t'[0] == t[0];
      forall k | 1 <= k <= OTHERS_COUNT && t'[k].Used? ensures t[k].Used? {
      }
    }
  }

  // Taking a packet off the way to the server changes nothing the master waits for.
  lemma UpwardKeepsMarks(t: seq<Slot>, sessions: map<Peer, Session>, p: Peer, c': Session)
    requires |t| == TABLE_SIZE && MarksInv(t, sessions) && p in sessions
    requires c'.client == sessions[p].client && c'.downCritical == sessions[p].downCritical
    ensures MarksInv(t, sessions[p := c'])
  {
    if MasterOf(t) == Some(p) {
      forall k | 1 <= k <= OTHERS_COUNT && t[k].Used? ensures Announced(c', k) {
        assert Announced(sessions[p], k);
      }
    }
  }

  lemma ServerActKeepsMarks(s: System, p: Peer, c': Session, packet: Bytes)
    requires Inv(s) && MarksInv(s.table, s.sessions) && p in s.sessions && SessionInv(InfoOf(s.table, p), c')
    requires c'.client == s.sessions[p].client && c'.downCritical == s.sessions[p].downCritical
    ensures var s' := ServerTakes(s.(sessions := s.sessions[p := c']), p, packet); MarksInv(s'.table, s'.sessions)
  {
    UpdateKeepsInv(s.table, s.sessions, p, c');
    UpwardKeepsMarks(s.table, s.sessions, p, c');
    MessageKeepsMarks(s.table, s.sessions[p := c'], p, packet);
  }

  lemma TakingKeepsMarks(s: System, a: Action)
    requires Inv(s) && MarksInv(s.table, s.sessions) && a.peer in s.sessions && (a.ServerTakesCritical? || a.ServerTakesStream?)
    ensures |Act(s, a).table| == TABLE_SIZE && MarksInv(Act(s, a).table, Act(s, a).sessions)
  {
    var p, c := a.peer, s.sessions[a.peer];
    if a.ServerTakesCritical? {
      if c.upCritical != [] {
        ServerActKeepsMarks(s, p, c.(upCritical := c.upCritical[1..]), c.upCritical[0]);
      }
    } else if a.at < |c.upStream| {
      ServerActKeepsMarks(s, p, c.(upStream := Without(c.upStream, a.at)), c.upStream[a.at]);
    }
  }

  lemma ConnectingKeepsMarks(s: System, a: Action)
    requires Inv(s) && MarksInv(s.table, s.sessions) && (a.Open? || (a.Close? && a.peer in s.sessions))
    ensures |Act(s, a).table| == TABLE_SIZE && MarksInv(Act(s, a).table, Act(s, a).sessions)
  {
    if a.Close? {
      CloseKeepsMarks(s.table, s.sessions, a.peer);
    } else if a.peer !in s.sessions && a.peer !in s.closed && MasterOf(s.table).Some? {
      MasterIsSlotZero(s.table);
      assert IsActive(s.table, MasterOf(s.table).value);
    }
  }

  lemma ActKeepsMarks(s: System, a: Action)
    requires Inv(s) && MarksInv(s.table, s.sessions)
    ensures |Act(s, a).table| == TABLE_SIZE && MarksInv(Act(s, a).table, Act(s, a).sessions)
  {
    if a.Open? || (a.Close? && a.peer in s.sessions) {
      ConnectingKeepsMarks(s, a);
    } else if a.peer in s.sessions {
      if a.ServerTakesCritical? || a.ServerTakesStream? {
        TakingKeepsMarks(s, a);
      } else {
        ClientActKeepsMarks(s, a);
      }
    }
  }

  lemma {:induction false} ReachKeepsMarks(actions: seq<Action>)
    ensures |Reach(actions).table| == TABLE_SIZE && MarksInv(Reach(actions).table, Reach(actions).sessions)
  {
    if actions != [] {
      ReachKeepsInv(actions[..|actions| - 1]);
      ReachKeepsMarks(actions[..|actions| - 1]);
      ActKeepsMarks(Reach(actions[..|actions| - 1]), actions[|actions| - 1]);
    }
  }

  // A master that has processed its critical messages has every registered slave of slots 1 to
  // 3 marked in its state, at the position the slave's inputs move.
  lemma {:induction false} NoSlaveIsForgotten(actions: seq<Action>, k: nat)
    requires 1 <= k <= OTHERS_COUNT
    ensures var s := Reach(actions);
            |s.table| == TABLE_SIZE && (MasterOf(s.table).Some? && s.table[k].Used? ==>
              && MasterOf(s.table).value in s.sessions
              && var c := s.sessions[MasterOf(s.table).value];
                 c.downCritical == [] ==> c.client.gameState.Some? && Exists(c.client.gameState.value, k + 1))
  {
    ReachKeepsInv(actions);
    ReachKeepsMarks(actions);
    var s := Reach(actions);
    if MasterOf(s.table).Some? && s.table[k].Used? {
      MasterIsSlotZero(s.table);
      assert IsActive(s.table, MasterOf(s.table).value);
      assert Announced(s.sessions[MasterOf(s.table).value], k);
    }
  }
}
