/**
 * One client as a state machine with atomic ticks: what it learns from the messages it
 * receives, and what its ticks do and send.
 */
module Client {
  import opened Base
  import opened Protocol
  import opened ProtocolTheorems

  const OTHERS_COUNT: nat := 3

  // The globals MY_USER_INFO, CURRENT_GAME_STATE and LAST_PLAYER_INPUTS; None is NULL.
  datatype ClientState = ClientState(
    userInfo: Option<UserInfo>,
    gameState: Option<GameState>,
    lastInputs: Option<seq<PlayerInput>>)

  datatype UserInput = UserInput(x: Int32, y: Int32)

  const NO_POS := PlayerPos(false, 0, 0)
  const ZERO_STATE := GameState(0, NO_POS, NO_POS, NO_POS, NO_POS)
  const ZERO_INPUTS := [PlayerInput(1, 0, 0), PlayerInput(2, 0, 0), PlayerInput(3, 0, 0)]
  const FRESH_CLIENT := ClientState(None, None, None)

  predicate IsMaster(c: ClientState) {
    c.userInfo.Some? && c.userInfo.value.isMaster
  }

  // A master always has a game state, and inputs come with the game state.
  ghost predicate ClientInv(c: ClientState) {
    && (IsMaster(c) ==> c.gameState.Some?)
    && (c.gameState.Some? <==> c.lastInputs.Some?)
    && (c.lastInputs.Some? ==>
          && |c.lastInputs.value| == OTHERS_COUNT
          && forall i :: 0 <= i < OTHERS_COUNT ==> c.lastInputs.value[i].id == i + 1)
  }

  // ---------------------------------------------------------------- receiving

  // attempt_init_current_game_state_by_master
  function InitByMaster(c: ClientState): ClientState {
    var c' := if c.gameState.None? then c.(gameState := Some(ZERO_STATE)) else c;
    if c'.lastInputs.None? then c'.(lastInputs := Some(ZERO_INPUTS)) else c'
  }

  function AcceptUserInfo(c: ClientState, u: UserInfo): ClientState {
    var c' := c.(userInfo := Some(u));
    if u.isMaster then InitByMaster(c') else c'
  }

  function MarkExisting(g: GameState, id: UInt32): GameState {
    if id == 1 then g.(pos2 := g.pos2.(isExists := true))
    else if id == 2 then g.(pos3 := g.pos3.(isExists := true))
    else if id == 3 then g.(pos4 := g.pos4.(isExists := true))
    else g
  }

  // handle_on_slave_connected
  function SlaveConnects(c: ClientState, u: UserInfo): ClientState {
    if c.gameState.None? then c else c.(gameState := Some(MarkExisting(c.gameState.value, u.id)))
  }

  // update_games_state_by_slave_input; the input array exists on a master
  function StoreInput(inputs: seq<PlayerInput>, p: PlayerInput): (r: seq<PlayerInput>)
    requires |inputs| == OTHERS_COUNT
    ensures |r| == OTHERS_COUNT
  {
    if 1 <= p.id <= OTHERS_COUNT then inputs[p.id - 1 := inputs[p.id - 1].(x := p.x, y := p.y)] else inputs
  }

  function ReceiveInput(c: ClientState, p: PlayerInput): ClientState {
    if IsMaster(c) && c.lastInputs.Some? && |c.lastInputs.value| == OTHERS_COUNT
    then c.(lastInputs := Some(StoreInput(c.lastInputs.value, p))) else c
  }

  // What a packet says to a client.
  datatype Content = OwnInfo(info: UserInfo) | SlaveNews(slave: UserInfo) | Input(input: PlayerInput) | Nothing

  function ContentOf(packet: Bytes): Content {
    match ParseMessage(packet)
    case None => Nothing
    case Some(m) =>
      match m.kind
      case ResUserInfo =>
        (match UnpackUserInfo(m.payload) case Some(u) => OwnInfo(u) case None => Nothing)
      case SlaveConnected =>
        (match UnpackUserInfo(m.payload) case Some(u) => SlaveNews(u) case None => Nothing)
      case PlayerInputMsg =>
        (match UnpackPlayerInput(m.payload) case Some(p) => Input(p) case None => Nothing)
      case _ => Nothing
  }

  // The receive dispatch.
  function Deliver(c: ClientState, content: Content): ClientState {
    match content
    case OwnInfo(u) => AcceptUserInfo(c, u)
    case SlaveNews(u) => SlaveConnects(c, u)
    case Input(p) => ReceiveInput(c, p)
    case Nothing => c
  }

  // The three packings a client receives arrive as what was sent.
  lemma ContentRoundTrip(u: UserInfo, p: PlayerInput)
    ensures ContentOf([TypeCode(ResUserInfo)] + PackUserInfo(u)) == OwnInfo(u)
    ensures ContentOf([TypeCode(SlaveConnected)] + PackUserInfo(u)) == SlaveNews(u)
    ensures ContentOf([TypeCode(PlayerInputMsg)] + PackPlayerInput(p)) == Input(p)
  {
    FramingBijection([TypeCode(ResUserInfo)] + PackUserInfo(u), Message(ResUserInfo, PackUserInfo(u)));
    FramingBijection([TypeCode(SlaveConnected)] + PackUserInfo(u), Message(SlaveConnected, PackUserInfo(u)));
    FramingBijection([TypeCode(PlayerInputMsg)] + PackPlayerInput(p), Message(PlayerInputMsg, PackPlayerInput(p)));
    UserInfoRoundTrip(u, []);
    PlayerInputRoundTrip(p, []);
    assert PackUserInfo(u) + [] == PackUserInfo(u) && PackPlayerInput(p) + [] == PackPlayerInput(p);
  }

  // ---------------------------------------------------------------- ticking

  function Move(p: PlayerPos, x: Int32, y: Int32): PlayerPos {
    p.(x := ToInt32(p.x + x), y := ToInt32(p.y + y))
  }

  function OwnInput(g: GameState, ticks: UInt32, input: UserInput): GameState {
    g.(tick := ticks, pos1 := Move(g.pos1, input.x, input.y).(isExists := true))
  }

  function OthersInputs(g: GameState, inputs: seq<PlayerInput>): GameState
    requires |inputs| == OTHERS_COUNT
  {
    g.(pos2 := Move(g.pos2, inputs[0].x, inputs[0].y),
       pos3 := Move(g.pos3, inputs[1].x, inputs[1].y),
       pos4 := Move(g.pos4, inputs[2].x, inputs[2].y))
  }

  predicate TickReady(c: ClientState) {
    IsMaster(c) && c.gameState.Some? && c.lastInputs.Some? && |c.lastInputs.value| == OTHERS_COUNT
  }

  // try_execute_tick, the state: only a master commits, snapshot plus inputs.
  function Tick(c: ClientState, ticks: UInt32, input: UserInput): ClientState {
    if TickReady(c) then c.(gameState := Some(OthersInputs(OwnInput(c.gameState.value, ticks, input), c.lastInputs.value)))
    else c
  }

  // try_execute_tick, the packet: a master sends the committed state, a slave its own input; a
  // tick that is not ready fails and sends nothing.
  function TickPacket(c: ClientState, ticks: UInt32, input: UserInput): Option<Bytes> {
    if c.userInfo.None? then None
    else if !c.userInfo.value.isMaster then
      Some([TypeCode(PlayerInputMsg)] + PackPlayerInput(PlayerInput(c.userInfo.value.id, input.x, input.y)))
    else if TickReady(c) then Some([TypeCode(GameStateUpd)] + PackGameState(Tick(c, ticks, input).gameState.value))
    else None
  }

  datatype ClientEvent = Delivery(content: Content) | TickEvent(ticks: UInt32, input: UserInput)

  function Advance(c: ClientState, e: ClientEvent): ClientState {
    match e
    case Delivery(content) => Deliver(c, content)
    case TickEvent(ticks, input) => Tick(c, ticks, input)
  }

  function AdvanceAll(c: ClientState, events: seq<ClientEvent>): ClientState {
    if events == [] then c
    else Advance(AdvanceAll(c, events[..|events| - 1]), events[|events| - 1])
  }

  // ---------------------------------------------------------------- what every step keeps

  lemma AdvanceKeepsInv(c: ClientState, e: ClientEvent)
    requires ClientInv(c)
    ensures ClientInv(Advance(c, e))
  {
  }

  predicate Exists(g: GameState, n: nat)
    requires 1 <= n <= 4
  {
    Position(g, n).isExists
  }

  // A game state is never lost, and a position that exists never stops existing.
  lemma ExistenceNeverReverts(c: ClientState, e: ClientEvent, n: nat)
    requires ClientInv(c) && 1 <= n <= 4
    ensures c.gameState.Some? ==> Advance(c, e).gameState.Some?
    ensures c.gameState.Some? && Exists(c.gameState.value, n) ==> Exists(Advance(c, e).gameState.value, n)
  {
  }

  lemma {:induction false} RunsKeepInvAndExistence(c: ClientState, events: seq<ClientEvent>, n: nat)
    requires ClientInv(c) && 1 <= n <= 4
    ensures ClientInv(AdvanceAll(c, events))
    ensures c.gameState.Some? ==> AdvanceAll(c, events).gameState.Some?
    ensures c.gameState.Some? && Exists(c.gameState.value, n) ==> Exists(AdvanceAll(c, events).gameState.value, n)
  {
    if events != [] {
      var before := events[..|events| - 1];
      RunsKeepInvAndExistence(c, before, n);
      AdvanceKeepsInv(AdvanceAll(c, before), events[|events| - 1]);
      ExistenceNeverReverts(AdvanceAll(c, before), events[|events| - 1], n);
    }
  }

  // ---------------------------------------------------------------- the meaning of serial ticks

  // What one event adds to the x or y coordinate of a position, as seen by a master: a tick adds
  // the user's input to position 1 and the latest stored input of slave n - 1 to position n.
  function Added(c: ClientState, e: ClientEvent, n: nat, vertical: bool): int
    requires 1 <= n <= 4
  {
    if !e.TickEvent? || !IsMaster(c) || c.lastInputs.None? || |c.lastInputs.value| != OTHERS_COUNT then 0
    else if n == 1 then if vertical then e.input.y else e.input.x
    else if vertical then c.lastInputs.value[n - 2].y else c.lastInputs.value[n - 2].x
  }

  function Coordinate(g: GameState, n: nat, vertical: bool): Int32
    requires 1 <= n <= 4
  {
    if vertical then Position(g, n).y else Position(g, n).x
  }

  lemma DeliveryMovesNothing(c: ClientState, content: Content, n: nat, vertical: bool)
    requires c.gameState.Some? && 1 <= n <= 4
    ensures Deliver(c, content).gameState.Some?
    ensures Coordinate(Deliver(c, content).gameState.value, n, vertical) == Coordinate(c.gameState.value, n, vertical)
  {
  }

  lemma TickMoves(c: ClientState, ticks: UInt32, input: UserInput, n: nat, vertical: bool)
    requires TickReady(c) && 1 <= n <= 4
    ensures Coordinate(Tick(c, ticks, input).gameState.value, n, vertical)
         == ToInt32(Coordinate(c.gameState.value, n, vertical) + Added(c, TickEvent(ticks, input), n, vertical))
  {
    assert n == 1 || n == 2 || n == 3 || n == 4;
  }

  lemma AdvanceMoves(c: ClientState, e: ClientEvent, n: nat, vertical: bool)
    requires ClientInv(c) && c.gameState.Some? && 1 <= n <= 4
    ensures Advance(c, e).gameState.Some?
    ensures Coordinate(Advance(c, e).gameState.value, n, vertical)
         == ToInt32(Coordinate(c.gameState.value, n, vertical) + Added(c, e, n, vertical))
  {
    match e {
      case Delivery(content) => DeliveryMovesNothing(c, content, n, vertical);
      case TickEvent(ticks, input) =>
        if IsMaster(c) { TickMoves(c, ticks, input, n, vertical); }
    }
  }

  // The coordinate stands at this sum.
  ghost predicate StandsAt(c: ClientState, n: nat, vertical: bool, sum: int)
    requires 1 <= n <= 4
  {
    c.gameState.Some? && Coordinate(c.gameState.value, n, vertical) == ToInt32(sum)
  }

  lemma AdvanceMovesOn(c: ClientState, e: ClientEvent, n: nat, vertical: bool, sum: int)
    requires ClientInv(c) && 1 <= n <= 4 && StandsAt(c, n, vertical, sum)
    ensures ClientInv(Advance(c, e)) && StandsAt(Advance(c, e), n, vertical, sum + Added(c, e, n, vertical))
  {
    AdvanceKeepsInv(c, e);
    AdvanceMoves(c, e, n, vertical);
    WrapOfSum(sum, Added(c, e, n, vertical));
  }

  // The stored input of slave k is the latest one delivered for it while this client was
  // master, or the one at the start; the events are searched backwards.
  function LatestInput(c: ClientState, events: seq<ClientEvent>, k: nat): PlayerInput
    requires 1 <= k <= OTHERS_COUNT && ClientInv(c) && c.lastInputs.Some?
  {
    if events == [] then c.lastInputs.value[k - 1]
    else
      var before, e := events[..|events| - 1], events[|events| - 1];
      if e.Delivery? && e.content.Input? && e.content.input.id == k && IsMaster(AdvanceAll(c, before))
      then e.content.input else LatestInput(c, before, k)
  }

  lemma {:induction false} StoredInputIsLatest(c: ClientState, events: seq<ClientEvent>, k: nat)
    requires ClientInv(c) && c.gameState.Some? && 1 <= k <= OTHERS_COUNT
    ensures ClientInv(AdvanceAll(c, events)) && AdvanceAll(c, events).gameState.Some?
    ensures AdvanceAll(c, events).lastInputs.value[k - 1] == LatestInput(c, events, k)
  {
    if events != [] {
      var before := events[..|events| - 1];
      StoredInputIsLatest(c, before, k);
      AdvanceKeepsInv(AdvanceAll(c, before), events[|events| - 1]);
    }
  }

  // What an event after these adds to a coordinate, told from the deliveries alone: a tick of a
  // master adds the user's input to position 1 and the latest delivered input of slave n - 1 to
  // position n.
  function LatestShare(c: ClientState, before: seq<ClientEvent>, e: ClientEvent, n: nat, vertical: bool): int
    requires 1 <= n <= 4 && ClientInv(c) && c.gameState.Some?
  {
    if !e.TickEvent? || !IsMaster(AdvanceAll(c, before)) then 0
    else if n == 1 then if vertical then e.input.y else e.input.x
    else if vertical then LatestInput(c, before, n - 1).y else LatestInput(c, before, n - 1).x
  }

  function LatestSum(c: ClientState, events: seq<ClientEvent>, n: nat, vertical: bool): int
    requires 1 <= n <= 4 && ClientInv(c) && c.gameState.Some?
  {
    if events == [] then 0
    else
      var before := events[..|events| - 1];
      LatestSum(c, before, n, vertical) + LatestShare(c, before, events[|events| - 1], n, vertical)
  }

  // That is what the event adds.
  lemma {:induction false} LatestIsAdded(c: ClientState, before: seq<ClientEvent>, e: ClientEvent, n: nat, vertical: bool)
    requires 1 <= n <= 4 && ClientInv(c) && c.gameState.Some?
    ensures LatestShare(c, before, e, n, vertical) == Added(AdvanceAll(c, before), e, n, vertical)
  {
    StoredInputIsLatest(c, before, if n == 1 then 1 else n - 1);
  }

  // Over any sequence of ticks and deliveries every coordinate is its start plus, summed per
  // tick, the latest delivered input of its user, in 32-bit arithmetic.
  lemma {:induction false} SerialTickMeaning(c: ClientState, events: seq<ClientEvent>, n: nat, vertical: bool, start: int)
    requires ClientInv(c) && 1 <= n <= 4 && StandsAt(c, n, vertical, start)
    ensures ClientInv(AdvanceAll(c, events))
    ensures StandsAt(AdvanceAll(c, events), n, vertical, start + LatestSum(c, events, n, vertical))
  {
    if events != [] {
      var before, e := events[..|events| - 1], events[|events| - 1];
      SerialTickMeaning(c, before, n, vertical, start);
      AdvanceMovesOn(AdvanceAll(c, before), e, n, vertical, start + LatestSum(c, before, n, vertical));
      LatestIsAdded(c, before, e, n, vertical);
    }
  }

  // ---------------------------------------------------------------- routing of inputs

  // Position n is the one that inputs with this id move.
  predicate MovedBy(n: nat, id: UInt32) {
    1 <= id <= OTHERS_COUNT && n == id + 1
  }

  // States alike but for the coordinates of the position that inputs with this id move.
  ghost predicate StatesAlike(g: GameState, h: GameState, id: UInt32) {
    && g.tick == h.tick
    && forall n :: 1 <= n <= 4 ==>
         && Exists(g, n) == Exists(h, n)
         && (!MovedBy(n, id) ==> Position(g, n) == Position(h, n))
  }

  // Stored inputs alike but for the one with this id.
  ghost predicate InputsAlike(a: seq<PlayerInput>, b: seq<PlayerInput>, id: UInt32) {
    |a| == |b| && forall i :: 0 <= i < |a| && i + 1 != id ==> a[i] == b[i]
  }

  ghost predicate AlikeExcept(c: ClientState, d: ClientState, id: UInt32) {
    && c.userInfo == d.userInfo
    && (c.gameState.Some? <==> d.gameState.Some?)
    && (c.gameState.Some? ==> StatesAlike(c.gameState.value, d.gameState.value, id))
    && (c.lastInputs.Some? <==> d.lastInputs.Some?)
    && (c.lastInputs.Some? ==> InputsAlike(c.lastInputs.value, d.lastInputs.value, id))
  }

  lemma TickKeepsAlike(g: GameState, h: GameState, a: seq<PlayerInput>, b: seq<PlayerInput>, ticks: UInt32, input: UserInput, id: UInt32)
    requires |a| == |b| == OTHERS_COUNT && StatesAlike(g, h, id) && InputsAlike(a, b, id)
    ensures StatesAlike(OthersInputs(OwnInput(g, ticks, input), a), OthersInputs(OwnInput(h, ticks, input), b), id)
  {
    var g', h' := OthersInputs(OwnInput(g, ticks, input), a), OthersInputs(OwnInput(h, ticks, input), b);
    forall n | 1 <= n <= 4
      ensures Exists(g', n) == Exists(h', n) && (!MovedBy(n, id) ==> Position(g', n) == Position(h', n))
    {
      assert Exists(g, n) == Exists(h, n);
      assert n > 1 && !MovedBy(n, id) ==> a[n - 2] == b[n - 2];
    }
  }

  lemma MarkKeepsAlike(g: GameState, h: GameState, k: UInt32, id: UInt32)
    requires StatesAlike(g, h, id)
    ensures StatesAlike(MarkExisting(g, k), MarkExisting(h, k), id)
  {
    forall n | 1 <= n <= 4
      ensures Exists(MarkExisting(g, k), n) == Exists(MarkExisting(h, k), n)
      ensures !MovedBy(n, id) ==> Position(MarkExisting(g, k), n) == Position(MarkExisting(h, k), n)
    {
      assert Exists(g, n) == Exists(h, n);
    }
  }

  lemma AdvanceKeepsAlike(c: ClientState, d: ClientState, e: ClientEvent, id: UInt32)
    requires ClientInv(c) && ClientInv(d) && AlikeExcept(c, d, id)
    ensures AlikeExcept(Advance(c, e), Advance(d, e), id)
  {
    match e {
      case TickEvent(ticks, input) =>
        if TickReady(c) {
          TickKeepsAlike(c.gameState.value, d.gameState.value, c.lastInputs.value, d.lastInputs.value, ticks, input, id);
        }
      case Delivery(SlaveNews(u)) =>
        if c.gameState.Some? {
          MarkKeepsAlike(c.gameState.value, d.gameState.value, u.id, id);
        }
      case _ =>
    }
  }

  lemma {:induction false} AdvanceAllKeepsAlike(c: ClientState, d: ClientState, events: seq<ClientEvent>, id: UInt32)
    requires ClientInv(c) && ClientInv(d) && AlikeExcept(c, d, id)
    ensures ClientInv(AdvanceAll(c, events)) && ClientInv(AdvanceAll(d, events))
    ensures AlikeExcept(AdvanceAll(c, events), AdvanceAll(d, events), id)
  {
    if events != [] {
      var before, e := events[..|events| - 1], events[|events| - 1];
      AdvanceAllKeepsAlike(c, d, before, id);
      AdvanceKeepsInv(AdvanceAll(c, before), e);
      AdvanceKeepsInv(AdvanceAll(d, before), e);
      AdvanceKeepsAlike(AdvanceAll(c, before), AdvanceAll(d, before), e, id);
    }
  }

  // Whatever happens after an input was delivered, it makes no difference but to the coordinates
  // of position id + 1, for ids 1 to 3, and to none for other ids.
  lemma {:induction false} InputTouchesOnePosition(c: ClientState, p: PlayerInput, after: seq<ClientEvent>)
    requires ClientInv(c)
    ensures AlikeExcept(AdvanceAll(Deliver(c, Input(p)), after), AdvanceAll(c, after), p.id)
  {
    AdvanceKeepsInv(c, Delivery(Input(p)));
    AdvanceAllKeepsAlike(Deliver(c, Input(p)), c, after, p.id);
  }

  // The next tick moves that position by the input; it is the position that the news of the
  // slave marks.
  lemma InputMovesMarkedPosition(c: ClientState, p: PlayerInput, ticks: UInt32, input: UserInput, n: nat)
    requires ClientInv(c) && IsMaster(c) && 1 <= n <= 4
    ensures TickReady(c) && TickReady(Deliver(c, Input(p)))
    ensures MovedBy(n, p.id) ==>
              Position(Tick(Deliver(c, Input(p)), ticks, input).gameState.value, n) == Move(Position(c.gameState.value, n), p.x, p.y)
    ensures Position(Deliver(c, SlaveNews(UserInfo(p.id, false))).gameState.value, n)
         == if MovedBy(n, p.id) then Position(c.gameState.value, n).(isExists := true) else Position(c.gameState.value, n)
  {
  }

  // End to end: what a slave's tick sends is, in the master's hands, that slave's input.
  lemma SlaveTickReachesMaster(slave: ClientState, ticks: UInt32, input: UserInput)
    requires slave.userInfo.Some? && !IsMaster(slave)
    ensures TickPacket(slave, ticks, input).Some?
    ensures ContentOf(TickPacket(slave, ticks, input).value)
         == Input(PlayerInput(slave.userInfo.value.id, input.x, input.y))
    ensures Tick(slave, ticks, input) == slave
  {
    ContentRoundTrip(slave.userInfo.value, PlayerInput(slave.userInfo.value.id, input.x, input.y));
  }
}
