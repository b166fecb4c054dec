/**
 * Whole sessions: a peer's slot stays its own while its session lasts, it is answered once, and
 * its inputs reach the master under its slot number however long they are on their way.
 */
module SystemSessions {
  import opened Base
  import opened Protocol
  import opened Server
  import opened Client
  import opened System

  // ---------------------------------------------------------------- who is connected

  lemma {:induction false} RouteKeepsKeys(sessions: map<Peer, Session>, outputs: seq<Output>)
    ensures Route(sessions, outputs).Keys == sessions.Keys
  {
    if outputs != [] {
      RouteKeepsKeys(sessions, outputs[..|outputs| - 1]);
    }
  }

  // Nobody is connected and gone.
  ghost predicate Separate(s: System) {
    s.sessions.Keys !! s.closed
  }

  lemma ActOnKeys(s: System, a: Action)
    requires Separate(s)
    ensures Separate(Act(s, a))
    ensures s.closed <= Act(s, a).closed && s.sessions.Keys <= Act(s, a).sessions.Keys + Act(s, a).closed
    ensures a.Close? ==> a.peer !in Act(s, a).sessions
  {
    if a.peer in s.sessions {
      var c := s.sessions[a.peer];
      if a.ServerTakesCritical? && c.upCritical != [] {
        var sessions := s.sessions[a.peer := c.(upCritical := c.upCritical[1..])];
        RouteKeepsKeys(sessions, Step(s.table, Receive(a.peer, c.upCritical[0])).outputs);
      } else if a.ServerTakesStream? && a.at < |c.upStream| {
        var sessions := s.sessions[a.peer := c.(upStream := Without(c.upStream, a.at))];
        RouteKeepsKeys(sessions, Step(s.table, Receive(a.peer, c.upStream[a.at])).outputs);
      }
    }
  }

  lemma {:induction false} ReachIsSeparate(actions: seq<Action>)
    ensures Separate(Reach(actions))
  {
    if actions != [] {
      ReachIsSeparate(actions[..|actions| - 1]);
      ActOnKeys(Reach(actions[..|actions| - 1]), actions[|actions| - 1]);
    }
  }

  lemma {:induction false} ReachSnoc(actions: seq<Action>, a: Action)
    ensures Reach(actions + [a]) == Act(Reach(actions), a)
  {
    assert (actions + [a])[..|actions + [a]| - 1] == actions;
  }

  lemma SplitLast(actions: seq<Action>, more: seq<Action>)
    requires more != []
    ensures actions + more == actions + more[..|more| - 1] + [more[|more| - 1]]
  {
  }

  // A peer once connected is connected or gone.
  lemma {:induction false} ConnectedOrGone(actions: seq<Action>, more: seq<Action>, p: Peer)
    requires p in Reach(actions).sessions
    ensures p in Reach(actions + more).sessions || p in Reach(actions + more).closed
  {
    if more == [] {
      assert actions + more == actions;
    } else {
      ConnectedOrGone(actions, more[..|more| - 1], p);
      ReachIsSeparate(actions + more[..|more| - 1]);
      SplitLast(actions, more);
      ReachSnoc(actions + more[..|more| - 1], more[|more| - 1]);
      ActOnKeys(Reach(actions + more[..|more| - 1]), more[|more| - 1]);
    }
  }

  // ---------------------------------------------------------------- a slot for the session

  lemma StepKeepsInfo(t: seq<Slot>, q: Peer, packet: Bytes, p: Peer)
    requires TableInv(t) && InfoOf(t, p).Some?
    ensures InfoOf(Step(t, Receive(q, packet)).table, p) == InfoOf(t, p)
  {
    var free := FirstFree(t);
    if IsRegistration(Receive(q, packet)) && !IsActive(t, q) && free < |t| {
      RegisterInCases(t, q, t[free := Used(q, UsedCount(t) == 0)]);
      RegisterKeepsInv(t, q);
      InfoAfterFill(t, free, q, UsedCount(t) == 0, p);
    } else {
      assert Step(t, Receive(q, packet)).table == t;
    }
  }

  lemma ActKeepsInfo(s: System, a: Action, p: Peer)
    requires Inv(s) && InfoOf(s.table, p).Some? && a != Close(p)
    ensures InfoOf(Act(s, a).table, p) == InfoOf(s.table, p)
  {
    if a.peer in s.sessions {
      var c := s.sessions[a.peer];
      if a.Close? {
        InfoAfterRemove(s.table, a.peer, p);
      } else if a.ServerTakesCritical? && c.upCritical != [] {
        StepKeepsInfo(s.table, a.peer, c.upCritical[0], p);
      } else if a.ServerTakesStream? && a.at < |c.upStream| {
        StepKeepsInfo(s.table, a.peer, c.upStream[a.at], p);
      }
    }
  }

  // The id and role of a registered peer are the same as long as its session lasts.
  lemma {:induction false} InfoStays(actions: seq<Action>, more: seq<Action>, p: Peer)
    requires p in Reach(actions).sessions && InfoOf(Reach(actions).table, p).Some?
    requires p in Reach(actions + more).sessions
    ensures InfoOf(Reach(actions + more).table, p) == InfoOf(Reach(actions).table, p)
  {
    if more == [] {
      assert actions + more == actions;
    } else {
      var before, a := more[..|more| - 1], more[|more| - 1];
      SplitLast(actions, more);
      ReachSnoc(actions + before, a);
      ConnectedOrGone(actions, before, p);
      ReachIsSeparate(actions + before);
      ActOnKeys(Reach(actions + before), a);
      assert p in Reach(actions + before).closed ==> p in Act(Reach(actions + before), a).closed;
      assert p in Reach(actions + before).sessions;
      InfoStays(actions, before, p);
      ReachKeepsInv(actions + before);
      ActKeepsInfo(Reach(actions + before), a, p);
    }
  }

  // ---------------------------------------------------------------- one answer per session

  // An answer to a registration, for this peer.
  predicate IsAnswer(o: Output, p: Peer) {
    o.Unicast? && o.to == p && o.packet != [] && o.packet[0] == TypeCode(ResUserInfo)
  }

  function CountAnswers(outputs: seq<Output>, p: Peer): nat {
    if outputs == [] then 0
    else CountAnswers(outputs[..|outputs| - 1], p) + if IsAnswer(outputs[|outputs| - 1], p) then 1 else 0
  }

  // What the server sends when this happens.
  function Sent(s: System, a: Action): seq<Output> {
    if a.Open? && a.peer !in s.sessions && a.peer !in s.closed then Step(s.table, Connect(a.peer)).outputs
    else if a.peer !in s.sessions then []
    else if a.Close? then Step(s.table, Disconnect(a.peer)).outputs
    else if a.ServerTakesCritical? && s.sessions[a.peer].upCritical != [] then
      Step(s.table, Receive(a.peer, s.sessions[a.peer].upCritical[0])).outputs
    else if a.ServerTakesStream? && a.at < |s.sessions[a.peer].upStream| then
      Step(s.table, Receive(a.peer, s.sessions[a.peer].upStream[a.at])).outputs
    else []
  }

  // The answers a peer was sent in a whole run.
  function AnswersTo(actions: seq<Action>, p: Peer): nat {
    if actions == [] then 0
    else
      var before := actions[..|actions| - 1];
      AnswersTo(before, p) + CountAnswers(Sent(Reach(before), actions[|actions| - 1]), p)
  }

  lemma {:induction false} CountOne(o: Output, p: Peer)
    ensures CountAnswers([o], p) == if IsAnswer(o, p) then 1 else 0
  {
    assert [o][..0] == [];
  }

  lemma {:induction false} CountTwo(a: Output, b: Output, p: Peer)
    ensures CountAnswers([a, b], p) == CountAnswers([a], p) + if IsAnswer(b, p) then 1 else 0
  {
    assert [a, b][..1] == [a];
  }

  lemma {:induction false} AnswersCountOnce(t: seq<Slot>, free: nat, q: Peer, isMaster: bool, p: Peer)
    ensures CountAnswers(Answers(t, free, q, isMaster), p) == if p == q then 1 else 0
  {
    var info := PackUserInfo(UserInfo(ToUInt32(free), isMaster));
    var answer := Unicast(q, Critical, [TypeCode(ResUserInfo)] + info);
    CountOne(answer, p);
    if isMaster || MasterOf(t).None? {
      assert Answers(t, free, q, isMaster) == [answer];
    } else {
      var news := Unicast(MasterOf(t).value, Critical, [TypeCode(SlaveConnected)] + info);
      CountTwo(answer, news, p);
      assert Answers(t, free, q, isMaster) == [answer, news];
    }
  }

  // The server answers a peer exactly when it takes it into the table.
  lemma {:induction false} StepAnswers(t: seq<Slot>, q: Peer, packet: Bytes, p: Peer)
    requires TableInv(t)
    ensures var r := Step(t, Receive(q, packet));
            && (IsActive(t, p) ==> IsActive(r.table, p))
            && CountAnswers(r.outputs, p) == if !IsActive(t, p) && IsActive(r.table, p) then 1 else 0
  {
    var r, free := Step(t, Receive(q, packet)), FirstFree(t);
    if IsRegistration(Receive(q, packet)) && !IsActive(t, q) && free < |t| {
      var t' := t[free := Used(q, UsedCount(t) == 0)];
      RegisterInCases(t, q, t');
      RegisterKeepsInv(t, q);
      InfoAfterFill(t, free, q, UsedCount(t) == 0, p);
      AnswersCountOnce(t', free, q, UsedCount(t) == 0, p);
    } else {
      assert r.table == t;
      RelaysAreNoAnswers(t, q, packet, p);
    }
  }

  lemma {:induction false} RelaysAreNoAnswers(t: seq<Slot>, q: Peer, packet: Bytes, p: Peer)
    requires TableInv(t) && (IsRegistration(Receive(q, packet)) ==> IsActive(t, q) || FirstFree(t) == |t|)
    ensures CountAnswers(Step(t, Receive(q, packet)).outputs, p) == 0
  {
    var outputs := Step(t, Receive(q, packet)).outputs;
    assert outputs == [] || (|outputs| == 1 && outputs == [outputs[0]]);
    if outputs != [] {
      CountOne(outputs[0], p);
    }
  }

  lemma {:induction false} ActAnswers(s: System, a: Action, p: Peer)
    requires Inv(s) && Separate(s)
    ensures var s' := Act(s, a);
            && CountAnswers(Sent(s, a), p) == (if !IsActive(s.table, p) && IsActive(s'.table, p) then 1 else 0)
            && (IsActive(s.table, p) && !IsActive(s'.table, p) ==> p in s'.closed)
  {
    if a.peer in s.sessions {
      var c := s.sessions[a.peer];
      if a.Close? {
        InfoAfterRemove(s.table, a.peer, p);
      } else if a.ServerTakesCritical? && c.upCritical != [] {
        StepAnswers(s.table, a.peer, c.upCritical[0], p);
      } else if a.ServerTakesStream? && a.at < |c.upStream| {
        StepAnswers(s.table, a.peer, c.upStream[a.at], p);
      }
    }
  }

  // Over a whole run a peer is answered at most once; while connected it was answered exactly
  // if it is registered.
  lemma {:induction false} AnsweredOnce(actions: seq<Action>, p: Peer)
    ensures AnswersTo(actions, p) <= 1
    ensures p !in Reach(actions).closed ==> AnswersTo(actions, p) == if IsActive(Reach(actions).table, p) then 1 else 0
  {
    ReachKeepsInv(actions);
    ReachIsSeparate(actions);
    if actions != [] {
      var before, a := actions[..|actions| - 1], actions[|actions| - 1];
      var s := Reach(before);
      AnsweredOnce(before, p);
      ReachKeepsInv(before);
      ReachIsSeparate(before);
      ActOnKeys(s, a);
      ActAnswers(s, a, p);
    } else {
      assert !IsActive(EMPTY_TABLE, p);
    }
  }

  // ---------------------------------------------------------------- the way of an input

  // The input a slave's tick sends, as the id of its slot labels it.
  function InputFrom(t: seq<Slot>, p: Peer, input: UserInput): PlayerInput {
    PlayerInput(ToUInt32(IndexOf(t, p)), input.x, input.y)
  }

  lemma {:induction false} TickCarriesSlot(actions: seq<Action>, p: Peer, ticks: UInt32, input: UserInput)
    requires p in Reach(actions).sessions && Reach(actions).sessions[p].client.userInfo.Some?
    requires !IsMaster(Reach(actions).sessions[p].client)
    ensures var s := Reach(actions);
            && InfoOf(s.table, p).Some?
            && TickPacket(s.sessions[p].client, ticks, input).Some?
            && ContentOf(TickPacket(s.sessions[p].client, ticks, input).value) == Input(InputFrom(s.table, p, input))
  {
    ReachKeepsInv(actions);
    var s := Reach(actions);
    assert SessionInv(InfoOf(s.table, p), s.sessions[p]);
    SlaveTickReachesMaster(s.sessions[p].client, ticks, input);
  }

  // Taken by the server, a packet holding an input is put in line for the master, for nobody
  // else, and changes nothing else.
  ghost predicate OnlyPosted(s: System, s': System, to: Option<Peer>, content: Content) {
    && s'.table == s.table
    && s'.sessions.Keys == s.sessions.Keys
    && forall q :: q in s.sessions ==>
         && s'.sessions[q].client == s.sessions[q].client
         && s'.sessions[q].downCritical == s.sessions[q].downCritical
         && s'.sessions[q].downStream == s.sessions[q].downStream + if to == Some(q) then [content] else []
  }

  lemma ServerRelaysInput(s: System, p: Peer, at: nat, i: PlayerInput)
    requires p in s.sessions && at < |s.sessions[p].upStream| && ContentOf(s.sessions[p].upStream[at]) == Input(i)
    ensures OnlyPosted(s, Act(s, ServerTakesStream(p, at)), MasterOf(s.table), Input(i))
  {
    var c := s.sessions[p];
    var packet, sessions := c.upStream[at], s.sessions[p := c.(upStream := Without(c.upStream, at))];
    var r := Step(s.table, Receive(p, packet));
    assert Act(s, ServerTakesStream(p, at)) == s.(table := r.table, sessions := Route(sessions, r.outputs));
    if MasterOf(s.table).Some? {
      var o := Unicast(MasterOf(s.table).value, StreamPuppetInputs, packet);
      assert r == Result(s.table, [o]);
      RouteTwo(sessions, o, o);
    } else {
      assert r == Result(s.table, []);
    }
  }

  lemma MasterIsConnected(s: System)
    requires Inv(s) && MasterOf(s.table).Some?
    ensures MasterOf(s.table).value in s.sessions
  {
    MasterIsSlotZero(s.table);
    assert IsActive(s.table, MasterOf(s.table).value);
  }

  // End to end: the input of a slave's tick, however long it is on its way, carries the number
  // of the slave's slot at the time the server takes it; it is put in line for the master of that
  // time and for nobody else; and, delivered there, it makes for all time no difference but to
  // the coordinates of the position after that number.
  lemma {:induction false} SlaveInputTravels(actions: seq<Action>, more: seq<Action>, p: Peer, ticks: UInt32, input: UserInput, at: nat, after: seq<ClientEvent>)
    requires p in Reach(actions).sessions && Reach(actions).sessions[p].client.userInfo.Some?
    requires !IsMaster(Reach(actions).sessions[p].client)
    requires p in Reach(actions + more).sessions && at < |Reach(actions + more).sessions[p].upStream|
    requires TickPacket(Reach(actions).sessions[p].client, ticks, input) == Some(Reach(actions + more).sessions[p].upStream[at])
    ensures var s := Reach(actions + more);
            var i := InputFrom(s.table, p, input);
            && OnlyPosted(s, Act(s, ServerTakesStream(p, at)), MasterOf(s.table), Input(i))
            && (MasterOf(s.table).Some? ==>
                  && MasterOf(s.table).value in s.sessions
                  && var master := s.sessions[MasterOf(s.table).value].client;
                     AlikeExcept(AdvanceAll(Deliver(master, Input(i)), after), AdvanceAll(master, after), i.id))
  {
    TickCarriesSlot(actions, p, ticks, input);
    InfoStays(actions, more, p);
    var s := Reach(actions + more);
    ReachKeepsInv(actions + more);
    assert InputFrom(s.table, p, input) == InputFrom(Reach(actions).table, p, input);
    ServerRelaysInput(s, p, at, InputFrom(s.table, p, input));
    if MasterOf(s.table).Some? {
      MasterIsConnected(s);
      var m := MasterOf(s.table).value;
      assert SessionInv(InfoOf(s.table, m), s.sessions[m]);
      InputTouchesOnePosition(s.sessions[m].client, InputFrom(s.table, p, input), after);
    }
  }

  // The same whenever the message is taken from the line.
  lemma {:induction false} TakenInputTouchesOnePosition(actions: seq<Action>, q: Peer, at: nat, i: PlayerInput, after: seq<ClientEvent>)
    requires q in Reach(actions).sessions && at < |Reach(actions).sessions[q].downStream|
    requires Reach(actions).sessions[q].downStream[at] == Input(i)
    ensures var s' := Act(Reach(actions), ClientTakesStream(q, at));
            q in s'.sessions
            && AlikeExcept(AdvanceAll(s'.sessions[q].client, after), AdvanceAll(Reach(actions).sessions[q].client, after), i.id)
  {
    ReachKeepsInv(actions);
    assert SessionInv(InfoOf(Reach(actions).table, q), Reach(actions).sessions[q]);
    InputTouchesOnePosition(Reach(actions).sessions[q].client, i, after);
  }
}
