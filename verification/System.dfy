/**
 * Server and clients joined by their channels: the critical channel is a reliable FIFO per
 * peer and direction, stream messages may be lost or overtake each other. Each peer has one
 * session; what is in flight is dropped when it ends.
 */
module System {
  import opened Base
  import opened Protocol
  import opened ProtocolTheorems
  import opened Server
  import opened Client

  // One session. Messages towards the client are kept as what the client will read in them.
  datatype Session = Session(
    client: ClientState,
    upCritical: seq<Bytes>,
    upStream: seq<Bytes>,
    downCritical: seq<Content>,
    downStream: seq<Content>)

  datatype System = System(table: seq<Slot>, sessions: map<Peer, Session>, closed: set<Peer>)

  // What can happen next. Packets a client sends besides its ticks are arbitrary bytes.
  datatype Action =
    | Open(peer: Peer)
    | Close(peer: Peer)
    | ClientSends(peer: Peer, packet: Bytes, reliable: bool)
    | ClientTicks(peer: Peer, ticks: UInt32, input: UserInput)
    | ServerTakesCritical(peer: Peer)
    | ServerTakesStream(peer: Peer, at: nat)
    | ClientTakesCritical(peer: Peer)
    | ClientTakesStream(peer: Peer, at: nat)
    | LoseUp(peer: Peer, at: nat)
    | LoseDown(peer: Peer, at: nat)

  const NEW_SESSION := Session(FRESH_CLIENT, [], [], [], [])
  const START := System(EMPTY_TABLE, map[], {})

  function Without<T>(s: seq<T>, at: nat): seq<T>
    requires at < |s|
  {
    s[..at] + s[at + 1..]
  }

  // A packet put on its way to one peer; packets for peers that are gone vanish.
  function Post(sessions: map<Peer, Session>, to: Peer, channel: Channel, content: Content): map<Peer, Session> {
    if to !in sessions then sessions
    else if channel == Critical then
      sessions[to := sessions[to].(downCritical := sessions[to].downCritical + [content])]
    else
      sessions[to := sessions[to].(downStream := sessions[to].downStream + [content])]
  }

  function PostAll(sessions: map<Peer, Session>, content: Content): map<Peer, Session> {
    map p | p in sessions :: sessions[p].(downStream := sessions[p].downStream + [content])
  }

  function Route(sessions: map<Peer, Session>, outputs: seq<Output>): map<Peer, Session> {
    if outputs == [] then sessions
    else
      var before := Route(sessions, outputs[..|outputs| - 1]);
      match outputs[|outputs| - 1]
      case Unicast(to, channel, packet) => Post(before, to, channel, ContentOf(packet))
      case Broadcast(_, packet) => PostAll(before, ContentOf(packet))
  }

  // The server processes an event: whatever it sends is put on its way.
  function ServerTurn(s: System, e: Event): System {
    var r := Step(s.table, e);
    s.(table := r.table, sessions := Route(s.sessions, r.outputs))
  }

  function ServerTakes(s: System, p: Peer, packet: Bytes): System {
    ServerTurn(s, Receive(p, packet))
  }

  function Act(s: System, a: Action): System {
    if a.Open? then
      if a.peer in s.sessions || a.peer in s.closed then s
      else ServerTurn(s.(sessions := s.sessions[a.peer := NEW_SESSION]), Connect(a.peer))
    else if a.peer !in s.sessions then s
    else
      var p, c := a.peer, s.sessions[a.peer];
      match a
      case Open(_) => s
      case Close(_) =>
        ServerTurn(s.(sessions := s.sessions - {p}, closed := s.closed + {p}), Disconnect(p))
      case ClientSends(_, packet, reliable) =>
        s.(sessions := s.sessions[p := if reliable then c.(upCritical := c.upCritical + [packet])
                                       else c.(upStream := c.upStream + [packet])])
      case ClientTicks(_, ticks, input) =>
        var packet := TickPacket(c.client, ticks, input);
        s.(sessions := s.sessions[p := c.(client := Tick(c.client, ticks, input),
                                          upStream := c.upStream + if packet.Some? then [packet.value] else [])])
      case ServerTakesCritical(_) =>
        if c.upCritical == [] then s
        else ServerTakes(s.(sessions := s.sessions[p := c.(upCritical := c.upCritical[1..])]), p, c.upCritical[0])
      case ServerTakesStream(_, at) =>
        if at >= |c.upStream| then s
        else ServerTakes(s.(sessions := s.sessions[p := c.(upStream := Without(c.upStream, at))]), p, c.upStream[at])
      case ClientTakesCritical(_) =>
        if c.downCritical == [] then s
        else s.(sessions := s.sessions[p := c.(client := Deliver(c.client, c.downCritical[0]), downCritical := c.downCritical[1..])])
      case ClientTakesStream(_, at) =>
        if at >= |c.downStream| then s
        else s.(sessions := s.sessions[p := c.(client := Deliver(c.client, c.downStream[at]), downStream := Without(c.downStream, at))])
      case LoseUp(_, at) =>
        if at >= |c.upStream| then s else s.(sessions := s.sessions[p := c.(upStream := Without(c.upStream, at))])
      case LoseDown(_, at) =>
        if at >= |c.downStream| then s else s.(sessions := s.sessions[p := c.(downStream := Without(c.downStream, at))])
  }

  function Reach(actions: seq<Action>): System {
    if actions == [] then START else Act(Reach(actions[..|actions| - 1]), actions[|actions| - 1])
  }

  // ---------------------------------------------------------------- the invariant

  // The id and role the server holds for a peer.
  function InfoOf(t: seq<Slot>, p: Peer): Option<UserInfo> {
    var i := IndexOf(t, p);
    if i < |t| then Some(UserInfo(ToUInt32(i), t[i].isMaster)) else None
  }

  // News about slaves is on its way to a master only.
  ghost predicate OnlyNews(contents: seq<Content>, isMaster: bool) {
    && (forall i :: 0 <= i < |contents| ==> contents[i].SlaveNews?)
    && (contents != [] ==> isMaster)
  }

  // Stream messages carry no information about identities.
  ghost predicate Anonymous(contents: seq<Content>) {
    forall i :: 0 <= i < |contents| ==> contents[i].Input? || contents[i].Nothing?
  }

  // A registered peer knows its id and role, or exactly one answer telling them is first in
  // line; an unregistered peer knows nothing and expects nothing.
  ghost predicate SessionInv(info: Option<UserInfo>, c: Session) {
    && ClientInv(c.client)
    && Anonymous(c.downStream)
    && match info
       case None => c.client.userInfo == None && c.downCritical == []
       case Some(u) =>
         || (c.client.userInfo == Some(u) && OnlyNews(c.downCritical, u.isMaster))
         || (c.client.userInfo == None && c.downCritical != [] && c.downCritical[0] == OwnInfo(u)
             && OnlyNews(c.downCritical[1..], u.isMaster))
  }

  ghost predicate SessionsInv(t: seq<Slot>, sessions: map<Peer, Session>) {
    && TableInv(t)
    && (forall p :: IsActive(t, p) ==> p in sessions)
    && (forall p :: p in sessions ==> SessionInv(InfoOf(t, p), sessions[p]))
  }

  // ---------------------------------------------------------------- the steps keep it

  lemma InfoAfterFill(t: seq<Slot>, free: nat, p: Peer, isMaster: bool, q: Peer)
    requires TableInv(t) && free < |t| && t[free].Free? && !IsActive(t, p)
    requires TableInv(t[free := Used(p, isMaster)])
    ensures InfoOf(t[free := Used(p, isMaster)], q) == if q == p then Some(UserInfo(ToUInt32(free), isMaster)) else InfoOf(t, q)
  {
    var t' := t[free := Used(p, isMaster)];
    assert t'[free].peer == p;
    var i, i' := IndexOf(t, q), IndexOf(t', q);
    if q != p {
      if i < |t| { assert t'[i].peer == q; }
      if i' < |t'| { assert t[i'].peer == q; }
    }
  }

  lemma InfoAfterRemove(t: seq<Slot>, p: Peer, q: Peer)
    requires TableInv(t)
    ensures InfoOf(Remove(t, p), q) == if q == p then None else InfoOf(t, q)
  {
    var t' := Remove(t, p);
    var i, i' := IndexOf(t, q), IndexOf(t', q);
    if q != p {
      if i < |t| { assert t'[i].peer == q; }
    }
    if i' < |t'| { assert t[i'].peer == q; }
  }

  lemma UpdateKeepsInv(t: seq<Slot>, sessions: map<Peer, Session>, p: Peer, c: Session)
    requires SessionsInv(t, sessions) && p in sessions && SessionInv(InfoOf(t, p), c)
    ensures SessionsInv(t, sessions[p := c])
  {
  }

  lemma NewsKeepsSession(info: Option<UserInfo>, c: Session, content: Content)
    requires SessionInv(info, c) && content.SlaveNews? && info.Some? && info.value.isMaster
    ensures SessionInv(info, c.(downCritical := c.downCritical + [content]))
  {
    var longer := c.downCritical + [content];
    if c.downCritical != [] {
      assert longer[1..] == c.downCritical[1..] + [content];
    }
  }

  lemma PostToOne(t: seq<Slot>, sessions: map<Peer, Session>, to: Peer, channel: Channel, content: Content)
    requires SessionsInv(t, sessions)
    requires channel != Critical ==> content.Input? || content.Nothing?
    requires channel == Critical ==> content.SlaveNews? && InfoOf(t, to).Some? && InfoOf(t, to).value.isMaster
    ensures SessionsInv(t, Post(sessions, to, channel, content))
  {
    if to in sessions {
      var c := sessions[to];
      if channel == Critical {
        NewsKeepsSession(InfoOf(t, to), c, content);
        UpdateKeepsInv(t, sessions, to, c.(downCritical := c.downCritical + [content]));
      } else {
        UpdateKeepsInv(t, sessions, to, c.(downStream := c.downStream + [content]));
      }
    }
  }

  // The answer to a fresh registration.
  lemma PostAnswer(t: seq<Slot>, free: nat, p: Peer, isMaster: bool, sessions: map<Peer, Session>)
    requires SessionsInv(t, sessions) && p in sessions
    requires free < |t| && t[free].Free? && !IsActive(t, p)
    requires TableInv(t[free := Used(p, isMaster)])
    ensures SessionsInv(t[free := Used(p, isMaster)], Post(sessions, p, Critical, OwnInfo(UserInfo(ToUInt32(free), isMaster))))
  {
    var t', sessions' := t[free := Used(p, isMaster)], Post(sessions, p, Critical, OwnInfo(UserInfo(ToUInt32(free), isMaster)));
    forall q | IsActive(t', q) ensures q in sessions' {
      InfoAfterFill(t, free, p, isMaster, q);
      assert q == p || IsActive(t, q);
    }
    forall q | q in sessions' ensures SessionInv(InfoOf(t', q), sessions'[q]) {
      InfoAfterFill(t, free, p, isMaster, q);
      assert sessions'[p].downCritical[1..] == [];
    }
  }

  lemma {:induction false} RouteTwo(sessions: map<Peer, Session>, a: Output, b: Output)
    requires a.Unicast? && b.Unicast?
    ensures Route(sessions, [a]) == Post(sessions, a.to, a.channel, ContentOf(a.packet))
    ensures Route(sessions, [a, b]) == Post(Route(sessions, [a]), b.to, b.channel, ContentOf(b.packet))
  {
    assert [a][..0] == [] && [a, b][..1] == [a];
  }

  // The answer, and what the client reads in it.
  function AnswerPacket(u: UserInfo): Bytes {
    [TypeCode(ResUserInfo)] + PackUserInfo(u)
  }

  lemma {:induction false} AnswerKeepsInv(t: seq<Slot>, free: nat, p: Peer, isMaster: bool, sessions: map<Peer, Session>)
    requires SessionsInv(t, sessions) && p in sessions
    requires free < |t| && t[free].Free? && !IsActive(t, p)
    requires TableInv(t[free := Used(p, isMaster)])
    ensures SessionsInv(t[free := Used(p, isMaster)],
                        Route(sessions, [Unicast(p, Critical, AnswerPacket(UserInfo(ToUInt32(free), isMaster)))]))
  {
    var u := UserInfo(ToUInt32(free), isMaster);
    var answer := Unicast(p, Critical, AnswerPacket(u));
    PostAnswer(t, free, p, isMaster, sessions);
    ContentRoundTrip(u, PlayerInput(0, 0, 0));
    RouteTwo(sessions, answer, answer);
  }

  lemma {:induction false} NewsKeepsInv(t: seq<Slot>, sessions: map<Peer, Session>, answer: Output, master: Peer, u: UserInfo)
    requires answer.Unicast? && SessionsInv(t, Route(sessions, [answer])) && MasterOf(t) == Some(master)
    ensures SessionsInv(t, Route(sessions, [answer, Unicast(master, Critical, [TypeCode(SlaveConnected)] + PackUserInfo(u))]))
  {
    var news := Unicast(master, Critical, [TypeCode(SlaveConnected)] + PackUserInfo(u));
    ContentRoundTrip(u, PlayerInput(0, 0, 0));
    RouteTwo(sessions, answer, news);
    MasterInfo(t, master);
    PostToOne(t, Route(sessions, [answer]), master, Critical, SlaveNews(u));
  }

  lemma {:induction false} RegistrationKeepsInv(t: seq<Slot>, sessions: map<Peer, Session>, p: Peer)
    requires SessionsInv(t, sessions) && p in sessions
    ensures SessionsInv(Register(t, p).table, Route(sessions, Register(t, p).outputs))
  {
    var free := FirstFree(t);
    if !IsActive(t, p) && free < |t| {
      var isMaster := UsedCount(t) == 0;
      var t' := t[free := Used(p, isMaster)];
      var u := UserInfo(ToUInt32(free), isMaster);
      RegisterInCases(t, p, t');
      RegisterKeepsInv(t, p);
      AnswerKeepsInv(t, free, p, isMaster, sessions);
      var answer := Unicast(p, Critical, AnswerPacket(u));
      if isMaster || MasterOf(t').None? {
        assert Answers(t', free, p, isMaster) == [answer];
      } else {
        var news := Unicast(MasterOf(t').value, Critical, [TypeCode(SlaveConnected)] + PackUserInfo(u));
        assert Answers(t', free, p, isMaster) == [answer, news];
        NewsKeepsInv(t', sessions, answer, MasterOf(t').value, u);
      }
    }
  }

  lemma MasterInfo(t: seq<Slot>, master: Peer)
    requires TableInv(t) && MasterOf(t) == Some(master)
    ensures InfoOf(t, master) == Some(UserInfo(0, true))
  {
    MasterIsSlotZero(t);
    assert IndexOf(t, master) == 0;
  }

  lemma StreamKeepsSession(info: Option<UserInfo>, c: Session, content: Content)
    requires SessionInv(info, c) && (content.Input? || content.Nothing?)
    ensures SessionInv(info, c.(downStream := c.downStream + [content]))
  {
  }

  lemma PostToAll(t: seq<Slot>, sessions: map<Peer, Session>, content: Content)
    requires SessionsInv(t, sessions) && (content.Input? || content.Nothing?)
    ensures SessionsInv(t, PostAll(sessions, content))
  {
    var sessions' := PostAll(sessions, content);
    forall p | p in sessions' ensures SessionInv(InfoOf(t, p), sessions'[p]) {
      StreamKeepsSession(InfoOf(t, p), sessions[p], content);
    }
  }

  // A relayed input is an input or nothing to its receiver, a broadcast state is nothing.
  lemma StreamContents(packet: Bytes, m: Message, g: GameState)
    ensures ParseMessage(packet) == Some(m) && m.kind == PlayerInputMsg ==>
              ContentOf(packet).Input? || ContentOf(packet).Nothing?
    ensures ContentOf([TypeCode(GameStateUpd)] + PackGameState(g)) == Nothing
  {
    FramingBijection([TypeCode(GameStateUpd)] + PackGameState(g), Message(GameStateUpd, PackGameState(g)));
  }

  lemma {:induction false} InputRelayKeepsInv(t: seq<Slot>, sessions: map<Peer, Session>, packet: Bytes, m: Message, master: Peer)
    requires SessionsInv(t, sessions) && ParseMessage(packet) == Some(m) && m.kind == PlayerInputMsg
    ensures SessionsInv(t, Route(sessions, [Unicast(master, StreamPuppetInputs, packet)]))
  {
    var o := Unicast(master, StreamPuppetInputs, packet);
    StreamContents(packet, m, ZERO_STATE);
    RouteTwo(sessions, o, o);
    PostToOne(t, sessions, master, StreamPuppetInputs, ContentOf(packet));
  }

  lemma {:induction false} StateRelayKeepsInv(t: seq<Slot>, sessions: map<Peer, Session>, g: GameState)
    requires SessionsInv(t, sessions)
    ensures SessionsInv(t, Route(sessions, [Broadcast(Stream, [TypeCode(GameStateUpd)] + PackGameState(g))]))
  {
    var o := Broadcast(Stream, [TypeCode(GameStateUpd)] + PackGameState(g));
    StreamContents([], Message(NoType, []), g);
    assert [o][..0] == [];
    assert Route(sessions, [o]) == PostAll(sessions, Nothing);
    PostToAll(t, sessions, Nothing);
  }

  ghost predicate ResultKeepsInv(r: Result, sessions: map<Peer, Session>) {
    SessionsInv(r.table, Route(sessions, r.outputs))
  }

  lemma MessageKeepsInv(t: seq<Slot>, sessions: map<Peer, Session>, p: Peer, packet: Bytes, m: Message)
    requires SessionsInv(t, sessions) && p in sessions && ParseMessage(packet) == Some(m)
    ensures ResultKeepsInv(ReceiveMessage(t, p, packet, m), sessions)
  {
    if m.kind == ReqUserInfo {
      RegistrationKeepsInv(t, sessions, p);
    } else if m.kind == PlayerInputMsg && MasterOf(t).Some? {
      InputRelayKeepsInv(t, sessions, packet, m, MasterOf(t).value);
    } else if m.kind == GameStateUpd && UnpackGameState(m.payload).Some? {
      StateRelayKeepsInv(t, sessions, UnpackGameState(m.payload).value);
    } else {
      assert ReceiveMessage(t, p, packet, m) == Result(t, []);
    }
  }

  lemma ServerTakesKeepsInv(t: seq<Slot>, sessions: map<Peer, Session>, p: Peer, packet: Bytes)
    requires SessionsInv(t, sessions) && p in sessions
    ensures ResultKeepsInv(Step(t, Receive(p, packet)), sessions)
  {
    match ParseMessage(packet) {
      case Some(m) => MessageKeepsInv(t, sessions, p, packet, m);
      case None => assert Step(t, Receive(p, packet)) == Result(t, []);
    }
  }

  // A client that takes the next message, or ticks, stays in line with the server.
  lemma TakingKeepsSession(info: Option<UserInfo>, c: Session)
    requires SessionInv(info, c) && c.downCritical != []
    ensures SessionInv(info, c.(client := Deliver(c.client, c.downCritical[0]), downCritical := c.downCritical[1..]))
  {
    AdvanceKeepsInv(c.client, Delivery(c.downCritical[0]));
  }

  lemma LocalStepKeepsSession(info: Option<UserInfo>, c: Session, ticks: UInt32, input: UserInput)
    requires SessionInv(info, c)
    ensures ClientInv(Tick(c.client, ticks, input)) && Tick(c.client, ticks, input).userInfo == c.client.userInfo
    ensures forall at :: 0 <= at < |c.downStream| ==>
              && ClientInv(Deliver(c.client, c.downStream[at])) && Deliver(c.client, c.downStream[at]).userInfo == c.client.userInfo
              && Anonymous(Without(c.downStream, at))
  {
    AdvanceKeepsInv(c.client, TickEvent(ticks, input));
    forall at | 0 <= at < |c.downStream|
      ensures ClientInv(Deliver(c.client, c.downStream[at])) && Deliver(c.client, c.downStream[at]).userInfo == c.client.userInfo
    {
      AdvanceKeepsInv(c.client, Delivery(c.downStream[at]));
    }
  }

  lemma CloseKeepsInv(t: seq<Slot>, sessions: map<Peer, Session>, p: Peer)
    requires SessionsInv(t, sessions)
    ensures SessionsInv(Remove(t, p), sessions - {p})
  {
    StepKeepsInv(t, Disconnect(p));
    var t' := Remove(t, p);
    forall q | IsActive(t', q) ensures q in sessions - {p} {
      InfoAfterRemove(t, p, q);
      assert IsActive(t, q);
    }
    forall q | q in sessions - {p} ensures SessionInv(InfoOf(t', q), sessions[q]) {
      InfoAfterRemove(t, p, q);
    }
  }

  ghost predicate Inv(s: System) {
    SessionsInv(s.table, s.sessions)
  }

  lemma ServerActKeepsInv(s: System, p: Peer, c': Session, packet: Bytes)
    requires Inv(s) && p in s.sessions && SessionInv(InfoOf(s.table, p), c')
    ensures Inv(ServerTakes(s.(sessions := s.sessions[p := c']), p, packet))
  {
    UpdateKeepsInv(s.table, s.sessions, p, c');
    ServerTakesKeepsInv(s.table, s.sessions[p := c'], p, packet);
  }

  lemma ClientActKeepsInv(s: System, a: Action)
    requires Inv(s) && a.peer in s.sessions
    requires !a.Open? && !a.Close? && !a.ServerTakesCritical? && !a.ServerTakesStream?
    ensures Inv(Act(s, a))
  {
    var p, c := a.peer, s.sessions[a.peer];
    if a.ClientTakesCritical? && c.downCritical != [] {
      TakingKeepsSession(InfoOf(s.table, p), c);
    } else if a.ClientTicks? {
      LocalStepKeepsSession(InfoOf(s.table, p), c, a.ticks, a.input);
    } else {
      LocalStepKeepsSession(InfoOf(s.table, p), c, 0, UserInput(0, 0));
    }
    UpdateKeepsInv(s.table, s.sessions, p, Act(s, a).sessions[p]);
  }

  lemma ActKeepsInv(s: System, a: Action)
    requires Inv(s)
    ensures Inv(Act(s, a))
  {
    if a.Open? {
      if a.peer !in s.sessions && a.peer !in s.closed {
        assert !IsActive(s.table, a.peer);
      }
    } else if a.peer in s.sessions {
      var p, c := a.peer, s.sessions[a.peer];
      if a.Close? {
        CloseKeepsInv(s.table, s.sessions, p);
      } else if a.ServerTakesCritical? {
        if c.upCritical != [] {
          ServerActKeepsInv(s, p, c.(upCritical := c.upCritical[1..]), c.upCritical[0]);
        }
      } else if a.ServerTakesStream? {
        if a.at < |c.upStream| {
          ServerActKeepsInv(s, p, c.(upStream := Without(c.upStream, a.at)), c.upStream[a.at]);
        }
      } else {
        ClientActKeepsInv(s, a);
      }
    }
  }

  lemma {:induction false} ReachKeepsInv(actions: seq<Action>)
    ensures Inv(Reach(actions))
  {
    if actions == [] {
      assert forall p :: !IsActive(EMPTY_TABLE, p);
    } else {
      ReachKeepsInv(actions[..|actions| - 1]);
      ActKeepsInv(Reach(actions[..|actions| - 1]), actions[|actions| - 1]);
    }
  }

  // ---------------------------------------------------------------- what every run guarantees

  lemma InfoIsSlot(t: seq<Slot>, p: Peer)
    requires TableInv(t) && InfoOf(t, p).Some?
    ensures var u := InfoOf(t, p).value; u.id < |t| && t[u.id] == Used(p, u.isMaster)
  {
    assert ToUInt32(IndexOf(t, p)) == IndexOf(t, p);
  }

  lemma HeldInfoIsSlot(s: System, p: Peer)
    requires Inv(s) && p in s.sessions && s.sessions[p].client.userInfo.Some?
    ensures var u := s.sessions[p].client.userInfo.value; u.id < |s.table| && s.table[u.id] == Used(p, u.isMaster)
  {
    assert SessionInv(InfoOf(s.table, p), s.sessions[p]);
    InfoIsSlot(s.table, p);
  }

  // A connected client that holds user information holds the index and role of its slot.
  lemma {:induction false} BeliefsAreTrue(actions: seq<Action>, p: Peer)
    requires p in Reach(actions).sessions && Reach(actions).sessions[p].client.userInfo.Some?
    ensures var s := Reach(actions); var u := s.sessions[p].client.userInfo.value;
            u.id < |s.table| && s.table[u.id] == Used(p, u.isMaster)
  {
    ReachKeepsInv(actions);
    HeldInfoIsSlot(Reach(actions), p);
  }

  // Hence ids are distinct and at most one client believes it is master.
  lemma {:induction false} IdentitiesAreUnique(actions: seq<Action>, p: Peer, q: Peer)
    requires p != q && p in Reach(actions).sessions && q in Reach(actions).sessions
    requires Reach(actions).sessions[p].client.userInfo.Some? && Reach(actions).sessions[q].client.userInfo.Some?
    ensures var s := Reach(actions); s.sessions[p].client.userInfo.value.id != s.sessions[q].client.userInfo.value.id
    ensures var s := Reach(actions); !(IsMaster(s.sessions[p].client) && IsMaster(s.sessions[q].client))
  {
    ReachKeepsInv(actions);
    BeliefsAreTrue(actions, p);
    BeliefsAreTrue(actions, q);
  }

  // When news of a slave is the next message of a client, the client is an initialised master:
  // its own information was processed before and the game state exists.
  lemma {:induction false} NewsFindsGameState(actions: seq<Action>, p: Peer)
    requires p in Reach(actions).sessions
    requires var c := Reach(actions).sessions[p]; c.downCritical != [] && c.downCritical[0].SlaveNews?
    ensures IsMaster(Reach(actions).sessions[p].client) && Reach(actions).sessions[p].client.gameState.Some?
  {
    ReachKeepsInv(actions);
  }

  // Information about a peer itself is on its way only first in line and only until it holds it.
  lemma {:induction false} AnswerIsFirstInLine(actions: seq<Action>, p: Peer, i: nat)
    requires p in Reach(actions).sessions && i < |Reach(actions).sessions[p].downCritical|
    ensures var c := Reach(actions).sessions[p];
            c.downCritical[i].OwnInfo? <==> i == 0 && c.client.userInfo.None?
  {
    ReachKeepsInv(actions);
  }

  // A registered peer with nothing left to process on the critical channel knows its identity.
  lemma {:induction false} RegisteredLearns(actions: seq<Action>, p: Peer)
    requires IsActive(Reach(actions).table, p)
    ensures p in Reach(actions).sessions
    ensures var s := Reach(actions);
            s.sessions[p].downCritical == [] ==> s.sessions[p].client.userInfo == InfoOf(s.table, p) != None
  {
    ReachKeepsInv(actions);
  }

  // End to end: the state a master's tick commits reaches every peer byte for byte, and whoever
  // unpacks what arrives holds exactly that state.
  lemma {:induction false} MasterStateTravels(t: seq<Slot>, p: Peer, master: ClientState, ticks: UInt32, input: UserInput)
    requires TickReady(master)
    ensures var packet, g := TickPacket(master, ticks, input), Tick(master, ticks, input).gameState.value;
            && packet.Some?
            && Step(t, Receive(p, packet.value)) == Result(t, [Broadcast(Stream, packet.value)])
            && ParseMessage(packet.value) == Some(Message(GameStateUpd, PackGameState(g)))
            && UnpackGameState(PackGameState(g)) == Some(g)
  {
    var g := Tick(master, ticks, input).gameState.value;
    FramingBijection([TypeCode(GameStateUpd)] + PackGameState(g), Message(GameStateUpd, PackGameState(g)));
    GameStateRoundTrip(g, []);
    assert PackGameState(g) + [] == PackGameState(g);
  }
}
