/**
 * What can be brought about: a connected client can always learn who it is while the table has
 * room, and the input of a slave can always reach the master and move the slave's position; on
 * the way it can be lost.
 */
module SystemProgress {
  import opened Base
  import opened Protocol
  import opened Server
  import opened Client
  import opened System
  import opened SystemSessions

  lemma {:induction false} AfterMore(actions: seq<Action>, a: Action, rest: seq<Action>)
    ensures actions + ([a] + rest) == actions + [a] + rest
    ensures Reach(actions + [a]) == Act(Reach(actions), a)
  {
    ReachSnoc(actions, a);
    ConcatAssociates(actions, [a], rest);
  }

  lemma DropLast<T>(s: seq<T>, x: T)
    ensures Without(s + [x], |s|) == s
  {
  }

  // ---------------------------------------------------------------- learning an identity

  lemma {:induction false} RouteKeepsUpward(sessions: map<Peer, Session>, outputs: seq<Output>, p: Peer)
    requires p in sessions
    ensures p in Route(sessions, outputs) && Route(sessions, outputs)[p].upCritical == sessions[p].upCritical
  {
    if outputs != [] {
      RouteKeepsUpward(sessions, outputs[..|outputs| - 1], p);
    }
  }

  // The table can still take p, or has.
  ghost predicate HasRoom(t: seq<Slot>, p: Peer) {
    IsActive(t, p) || FirstFree(t) < |t|
  }

  lemma StepKeepsRoom(t: seq<Slot>, p: Peer, packet: Bytes)
    requires TableInv(t) && HasRoom(t, p)
    ensures var t' := Step(t, Receive(p, packet)).table;
            HasRoom(t', p) && (IsActive(t, p) ==> IsActive(t', p)) && (packet == [1] ==> IsActive(t', p))
  {
    var free := FirstFree(t);
    if IsRegistration(Receive(p, packet)) && !IsActive(t, p) {
      var t' := t[free := Used(p, UsedCount(t) == 0)];
      RegisterInCases(t, p, t');
      assert t'[free].peer == p;
    } else {
      assert Step(t, Receive(p, packet)).table == t;
    }
  }

  lemma TakeOne(s: System, p: Peer)
    requires Inv(s) && p in s.sessions && s.sessions[p].upCritical != [] && HasRoom(s.table, p)
    ensures var s' := Act(s, ServerTakesCritical(p));
            && p in s'.sessions && s'.sessions[p].upCritical == s.sessions[p].upCritical[1..]
            && HasRoom(s'.table, p)
            && (IsActive(s.table, p) || s.sessions[p].upCritical[0] == [1] ==> IsActive(s'.table, p))
  {
    var c := s.sessions[p];
    StepKeepsRoom(s.table, p, c.upCritical[0]);
    RouteKeepsUpward(s.sessions[p := c.(upCritical := c.upCritical[1..])], Step(s.table, Receive(p, c.upCritical[0])).outputs, p);
  }

  // The server takes everything p sent on the critical channel, a request among it.
  lemma {:induction false} TakeAll(actions: seq<Action>, p: Peer) returns (more: seq<Action>)
    requires p in Reach(actions).sessions && HasRoom(Reach(actions).table, p)
    requires IsActive(Reach(actions).table, p) || [1] in Reach(actions).sessions[p].upCritical
    ensures p in Reach(actions + more).sessions && IsActive(Reach(actions + more).table, p)
    decreases |Reach(actions).sessions[p].upCritical|
  {
    var s := Reach(actions);
    var up := s.sessions[p].upCritical;
    if IsActive(s.table, p) {
      more := [];
      assert actions + [] == actions;
    } else {
      ReachKeepsInv(actions);
      TakeOne(s, p);
      assert up == [up[0]] + up[1..];
      AfterMore(actions, ServerTakesCritical(p), []);
      var rest := TakeAll(actions + [ServerTakesCritical(p)], p);
      AfterMore(actions, ServerTakesCritical(p), rest);
      more := [ServerTakesCritical(p)] + rest;
    }
  }

  // The client takes everything that waits for it on the critical channel.
  lemma {:induction false} ReadAll(actions: seq<Action>, p: Peer) returns (more: seq<Action>)
    requires p in Reach(actions).sessions
    ensures p in Reach(actions + more).sessions && Reach(actions + more).sessions[p].downCritical == []
    ensures Reach(actions + more).table == Reach(actions).table
    decreases |Reach(actions).sessions[p].downCritical|
  {
    if Reach(actions).sessions[p].downCritical == [] {
      more := [];
      assert actions + [] == actions;
    } else {
      AfterMore(actions, ClientTakesCritical(p), []);
      var rest := ReadAll(actions + [ClientTakesCritical(p)], p);
      AfterMore(actions, ClientTakesCritical(p), rest);
      more := [ClientTakesCritical(p)] + rest;
    }
  }

  // The client asks, and the server takes the request.
  lemma Ask(actions: seq<Action>, p: Peer) returns (more: seq<Action>)
    requires p in Reach(actions).sessions && HasRoom(Reach(actions).table, p)
    ensures p in Reach(actions + more).sessions && IsActive(Reach(actions + more).table, p)
  {
    var asks := ClientSends(p, [1], true);
    ReachSnoc(actions, asks);
    var up := Reach(actions).sessions[p].upCritical;
    assert (up + [[1]])[|up|] == [1];
    var rest := TakeAll(actions + [asks], p);
    AfterMore(actions, asks, rest);
    more := [asks] + rest;
  }

  // The client holds what the server holds for it.
  ghost predicate Knows(s: System, p: Peer) {
    p in s.sessions && InfoOf(s.table, p).Some? && s.sessions[p].client.userInfo == InfoOf(s.table, p)
  }

  lemma {:induction false} KnowsOnceRead(actions: seq<Action>, p: Peer)
    requires IsActive(Reach(actions).table, p) && p in Reach(actions).sessions && Reach(actions).sessions[p].downCritical == []
    ensures Knows(Reach(actions), p)
  {
    RegisteredLearns(actions, p);
  }

  // From every state, a connected client that is registered, or whom the table has room for, can
  // learn its number and its role.
  lemma CanLearn(actions: seq<Action>, p: Peer) returns (more: seq<Action>)
    requires p in Reach(actions).sessions && HasRoom(Reach(actions).table, p)
    ensures Knows(Reach(actions + more), p)
  {
    var up := Ask(actions, p);
    var down := ReadAll(actions + up, p);
    KnowsOnceRead(actions + up + down, p);
    more := up + down;
    ConcatAssociates(actions, up, down);
  }

  // A new peer can connect, and if the table has room it can learn who it is.
  lemma CanJoin(actions: seq<Action>, p: Peer) returns (more: seq<Action>)
    requires p !in Reach(actions).sessions && p !in Reach(actions).closed && HasRoom(Reach(actions).table, p)
    ensures Knows(Reach(actions + more), p)
  {
    ReachSnoc(actions, Open(p));
    var rest := CanLearn(actions + [Open(p)], p);
    AfterMore(actions, Open(p), rest);
    more := [Open(p)] + rest;
  }

  // Leaving gives the number back.
  lemma {:induction false} CanLeave(actions: seq<Action>, p: Peer)
    requires p in Reach(actions).sessions
    ensures var s := Reach(actions + [Close(p)]);
            p !in s.sessions && p in s.closed && !IsActive(s.table, p)
  {
    ReachKeepsInv(actions);
    ReachSnoc(actions, Close(p));
    InfoAfterRemove(Reach(actions).table, p, p);
  }

  // Whatever a client sends on a stream can be the next packet the server processes.
  lemma {:induction false} StreamReachesServer(actions: seq<Action>, p: Peer, packet: Bytes)
    requires p in Reach(actions).sessions
    ensures var at := |Reach(actions).sessions[p].upStream|;
            Reach(actions + [ClientSends(p, packet, false)] + [ServerTakesStream(p, at)]) == ServerTakes(Reach(actions), p, packet)
  {
    var s, c := Reach(actions), Reach(actions).sessions[p];
    var at, sends := |c.upStream|, ClientSends(p, packet, false);
    ReachSnoc(actions, sends);
    ReachSnoc(actions + [sends], ServerTakesStream(p, at));
    DropLast(c.upStream, packet);
    assert s.sessions[p := c.(upStream := c.upStream + [packet])][p := c] == s.sessions;
  }

  // ---------------------------------------------------------------- the way of an input

  // A slave whose position is in the state, and the master, both knowing who they are.
  ghost predicate MasterAndSlave(s: System, m: Peer, p: Peer) {
    && m in s.sessions && p in s.sessions
    && s.sessions[p].client.userInfo.Some? && !IsMaster(s.sessions[p].client)
    && MasterOf(s.table) == Some(m) && IsMaster(s.sessions[m].client)
  }

  lemma SlaveTickActs(s: System, p: Peer, ticks: UInt32, input: UserInput)
    requires p in s.sessions && s.sessions[p].client.userInfo.Some? && !IsMaster(s.sessions[p].client)
    ensures var c := s.sessions[p];
            var packet := TickPacket(c.client, ticks, input);
            && packet.Some?
            && Act(s, ClientTicks(p, ticks, input)) == s.(sessions := s.sessions[p := c.(upStream := c.upStream + [packet.value])])
  {
  }

  // Both in line: the slave's packet for the server, then its content for the master.
  lemma {:induction false} SlaveTicks(actions: seq<Action>, m: Peer, p: Peer, ticks: UInt32, input: UserInput)
    requires MasterAndSlave(Reach(actions), m, p)
    ensures var s, s' := Reach(actions), Reach(actions + [ClientTicks(p, ticks, input)]);
            var c := s.sessions[p];
            var packet := TickPacket(c.client, ticks, input);
            && packet.Some? && ContentOf(packet.value) == Input(InputFrom(s.table, p, input))
            && s' == s.(sessions := s.sessions[p := c.(upStream := c.upStream + [packet.value])])
  {
    TickCarriesSlot(actions, p, ticks, input);
    SlaveTickActs(Reach(actions), p, ticks, input);
    ReachSnoc(actions, ClientTicks(p, ticks, input));
  }

  lemma LosingUndoes(s: System, p: Peer, c: Session, packet: Bytes)
    requires p in s.sessions && s.sessions[p] == c
    ensures Act(s.(sessions := s.sessions[p := c.(upStream := c.upStream + [packet])]), LoseUp(p, |c.upStream|)) == s
  {
    DropLast(c.upStream, packet);
    assert s.sessions[p := c] == s.sessions;
  }

  // Lost on the way to the server, the input leaves no trace at all.
  lemma {:induction false} InputMayBeLost(actions: seq<Action>, m: Peer, p: Peer, ticks: UInt32, input: UserInput)
    requires MasterAndSlave(Reach(actions), m, p)
    ensures var at := |Reach(actions).sessions[p].upStream|;
            Reach(actions + [ClientTicks(p, ticks, input)] + [LoseUp(p, at)]) == Reach(actions)
  {
    var s, sent := Reach(actions), actions + [ClientTicks(p, ticks, input)];
    SlaveTicks(actions, m, p, ticks, input);
    ReachSnoc(sent, LoseUp(p, |s.sessions[p].upStream|));
    LosingUndoes(s, p, s.sessions[p], TickPacket(s.sessions[p].client, ticks, input).value);
  }

  // Relayed by the server, it waits for the master.
  lemma {:induction false} InputIsRelayed(actions: seq<Action>, m: Peer, p: Peer, ticks: UInt32, input: UserInput)
    requires MasterAndSlave(Reach(actions), m, p)
    ensures var s, at := Reach(actions), |Reach(actions).sessions[p].upStream|;
            var s' := Reach(actions + [ClientTicks(p, ticks, input)] + [ServerTakesStream(p, at)]);
            && m in s'.sessions && s'.table == s.table
            && s'.sessions[m].client == s.sessions[m].client
            && s'.sessions[m].downStream == s.sessions[m].downStream + [Input(InputFrom(s.table, p, input))]
  {
    var s, sent, i := Reach(actions), actions + [ClientTicks(p, ticks, input)], InputFrom(Reach(actions).table, p, input);
    var at := |s.sessions[p].upStream|;
    SlaveTicks(actions, m, p, ticks, input);
    ReachSnoc(sent, ServerTakesStream(p, at));
    ServerRelaysInput(Reach(sent), p, at, i);
  }

  // The last message in line, taken or lost.
  lemma LastInLine(s: System, m: Peer, waiting: seq<Content>, content: Content)
    requires m in s.sessions && s.sessions[m].downStream == waiting + [content]
    ensures var taken, lost := Act(s, ClientTakesStream(m, |waiting|)), Act(s, LoseDown(m, |waiting|));
            && m in taken.sessions && taken.sessions[m].client == Deliver(s.sessions[m].client, content)
            && m in lost.sessions && lost.sessions[m] == s.sessions[m].(downStream := waiting)
  {
    DropLast(waiting, content);
  }

  // Lost on the way to the master, it leaves no trace with it.
  lemma {:induction false} InputMayBeLostDownward(actions: seq<Action>, m: Peer, p: Peer, ticks: UInt32, input: UserInput)
    requires MasterAndSlave(Reach(actions), m, p)
    ensures var s, up, down := Reach(actions), |Reach(actions).sessions[p].upStream|, |Reach(actions).sessions[m].downStream|;
            var s' := Reach(actions + [ClientTicks(p, ticks, input)] + [ServerTakesStream(p, up)] + [LoseDown(m, down)]);
            && m in s'.sessions
            && s'.sessions[m].client == s.sessions[m].client && s'.sessions[m].downStream == s.sessions[m].downStream
  {
    var s := Reach(actions);
    var relayed := actions + [ClientTicks(p, ticks, input)] + [ServerTakesStream(p, |s.sessions[p].upStream|)];
    InputIsRelayed(actions, m, p, ticks, input);
    LastInLine(Reach(relayed), m, s.sessions[m].downStream, Input(InputFrom(s.table, p, input)));
    ReachSnoc(relayed, LoseDown(m, |s.sessions[m].downStream|));
  }

  // Taken by the master.
  lemma {:induction false} InputIsTaken(actions: seq<Action>, m: Peer, p: Peer, ticks: UInt32, input: UserInput)
    requires MasterAndSlave(Reach(actions), m, p)
    ensures var s, up, down := Reach(actions), |Reach(actions).sessions[p].upStream|, |Reach(actions).sessions[m].downStream|;
            var s' := Reach(actions + [ClientTicks(p, ticks, input)] + [ServerTakesStream(p, up)] + [ClientTakesStream(m, down)]);
            && m in s'.sessions
            && s'.sessions[m].client == Deliver(s.sessions[m].client, Input(InputFrom(s.table, p, input)))
  {
    var s := Reach(actions);
    var relayed := actions + [ClientTicks(p, ticks, input)] + [ServerTakesStream(p, |s.sessions[p].upStream|)];
    InputIsRelayed(actions, m, p, ticks, input);
    LastInLine(Reach(relayed), m, s.sessions[m].downStream, Input(InputFrom(s.table, p, input)));
    ReachSnoc(relayed, ClientTakesStream(m, |s.sessions[m].downStream|));
  }

  // The number a client holds is that of its slot.
  lemma {:induction false} HeldNumber(s: System, p: Peer)
    requires Inv(s) && p in s.sessions && s.sessions[p].client.userInfo.Some?
    ensures s.sessions[p].client.userInfo.value.id == ToUInt32(IndexOf(s.table, p))
  {
    assert SessionInv(InfoOf(s.table, p), s.sessions[p]);
  }

  // Position n moved by the input, x by x and y by y.
  ghost predicate SlaveMoved(c: ClientState, c': ClientState, n: nat, x: Int32, y: Int32)
    requires 1 <= n <= 4
  {
    && c.gameState.Some? && c'.gameState.Some?
    && Coordinate(c'.gameState.value, n, false) == ToInt32(Coordinate(c.gameState.value, n, false) + x)
    && Coordinate(c'.gameState.value, n, true) == ToInt32(Coordinate(c.gameState.value, n, true) + y)
  }

  // What a master's tick makes of an input it has just taken.
  lemma TickMovesSlave(c: ClientState, i: PlayerInput, ticks: UInt32, own: UserInput, n: nat)
    requires ClientInv(c) && IsMaster(c) && 2 <= n <= 4 && i.id + 1 == n
    ensures SlaveMoved(c, Tick(Deliver(c, Input(i)), ticks, own), n, i.x, i.y)
  {
    InputMovesMarkedPosition(c, i, ticks, own, n);
  }

  lemma {:induction false} TicksInSession(actions: seq<Action>, m: Peer, ticks: UInt32, own: UserInput)
    requires m in Reach(actions).sessions
    ensures var s' := Reach(actions + [ClientTicks(m, ticks, own)]);
            m in s'.sessions && s'.sessions[m].client == Tick(Reach(actions).sessions[m].client, ticks, own)
  {
    ReachSnoc(actions, ClientTicks(m, ticks, own));
  }

  lemma {:induction false} MasterIsInitialised(actions: seq<Action>, m: Peer, p: Peer)
    requires MasterAndSlave(Reach(actions), m, p)
    ensures var s := Reach(actions);
            ClientInv(s.sessions[m].client) && InputFrom(s.table, p, UserInput(0, 0)).id == s.sessions[p].client.userInfo.value.id
  {
    ReachKeepsInv(actions);
    HeldNumber(Reach(actions), p);
    assert SessionInv(InfoOf(Reach(actions).table, m), Reach(actions).sessions[m]);
  }

  // Taken by the master and followed by its tick, it moves the slave's position: x by x, y by y.
  lemma {:induction false} InputArrives(actions: seq<Action>, m: Peer, p: Peer, ticks: UInt32, input: UserInput, ticks': UInt32, own: UserInput, n: nat)
    requires MasterAndSlave(Reach(actions), m, p) && 2 <= n <= 4 && Reach(actions).sessions[p].client.userInfo.value.id + 1 == n
    ensures var s, up, down := Reach(actions), |Reach(actions).sessions[p].upStream|, |Reach(actions).sessions[m].downStream|;
            var s' := Reach(actions + [ClientTicks(p, ticks, input)] + [ServerTakesStream(p, up)]
                            + [ClientTakesStream(m, down)] + [ClientTicks(m, ticks', own)]);
            m in s'.sessions && SlaveMoved(s.sessions[m].client, s'.sessions[m].client, n, input.x, input.y)
  {
    var s := Reach(actions);
    var taken := actions + [ClientTicks(p, ticks, input)] + [ServerTakesStream(p, |s.sessions[p].upStream|)]
                 + [ClientTakesStream(m, |s.sessions[m].downStream|)];
    InputIsTaken(actions, m, p, ticks, input);
    MasterIsInitialised(actions, m, p);
    TickMovesSlave(s.sessions[m].client, InputFrom(s.table, p, input), ticks', own, n);
    TicksInSession(taken, m, ticks', own);
  }
}
