/**
 * A client's whole state, and what its ticks send, told from the history of its deliveries and
 * ticks alone: who it was told to be, the last tick it took as master, whom it was told of, and
 * which inputs it was sent.
 */
module ClientHistory {
  import opened Base
  import opened Protocol
  import opened ProtocolTheorems
  import opened WireFormat
  import opened Client

  // ---------------------------------------------------------------- the history

  function Before(events: seq<ClientEvent>): seq<ClientEvent>
    requires events != []
  {
    events[..|events| - 1]
  }

  function Latest(events: seq<ClientEvent>): ClientEvent
    requires events != []
  {
    events[|events| - 1]
  }

  // The last user information delivered.
  function InfoTold(events: seq<ClientEvent>): Option<UserInfo> {
    if events == [] then None
    else match Latest(events)
      case Delivery(OwnInfo(u)) => Some(u)
      case _ => InfoTold(Before(events))
  }

  predicate ToldMaster(events: seq<ClientEvent>) {
    InfoTold(events).Some? && InfoTold(events).value.isMaster
  }

  // Some user information ever made this client master.
  predicate EverMaster(events: seq<ClientEvent>) {
    events != [] && (ToldMaster(events) || EverMaster(Before(events)))
  }

  // The number of the last tick taken as master; 0 before the first.
  function LastTick(events: seq<ClientEvent>): UInt32 {
    if events == [] then 0
    else match Latest(events)
      case TickEvent(ticks, _) => if ToldMaster(Before(events)) then ticks else LastTick(Before(events))
      case _ => LastTick(Before(events))
  }

  // Position 1 exists from the first tick as master on, position n from the first news of slave
  // n - 1 on, once there is a game state.
  predicate Seen(events: seq<ClientEvent>, n: nat) {
    events != [] &&
    (Seen(Before(events), n) ||
     match Latest(events)
     case TickEvent(_, _) => n == 1 && ToldMaster(Before(events))
     case Delivery(SlaveNews(u)) => n > 1 && u.id + 1 == n && EverMaster(Before(events))
     case _ => false)
  }

  // The last input of slave k delivered to a master; nothing before the first.
  function LastInput(events: seq<ClientEvent>, k: nat): PlayerInput
    requires 1 <= k <= 3
  {
    if events == [] then PlayerInput(k, 0, 0)
    else match Latest(events)
      case Delivery(Input(p)) => if p.id == k && ToldMaster(Before(events)) then p else LastInput(Before(events), k)
      case _ => LastInput(Before(events), k)
  }

  // What all ticks taken as master added: the user's inputs to position 1, and to position n each
  // time the last input of slave n - 1.
  function SumOf(events: seq<ClientEvent>, n: nat, vertical: bool): int
    requires 1 <= n <= 4
  {
    if events == [] then 0
    else
      SumOf(Before(events), n, vertical) +
      match Latest(events)
      case TickEvent(_, input) =>
        if !ToldMaster(Before(events)) then 0
        else if n == 1 then if vertical then input.y else input.x
        else if vertical then LastInput(Before(events), n - 1).y else LastInput(Before(events), n - 1).x
      case _ => 0
  }

  // ---------------------------------------------------------------- the state is the history

  ghost predicate IdentityFollows(c: ClientState, events: seq<ClientEvent>) {
    && c.userInfo == InfoTold(events)
    && (c.gameState.Some? <==> EverMaster(events))
    && (c.lastInputs.Some? <==> EverMaster(events))
  }

  ghost predicate PositionFollows(c: ClientState, events: seq<ClientEvent>, n: nat)
    requires 1 <= n <= 4
  {
    c.gameState.Some? ==>
      && Position(c.gameState.value, n).isExists == Seen(events, n)
      && Position(c.gameState.value, n).x == ToInt32(SumOf(events, n, false))
      && Position(c.gameState.value, n).y == ToInt32(SumOf(events, n, true))
  }

  ghost predicate InputFollows(c: ClientState, events: seq<ClientEvent>, k: nat)
    requires 1 <= k <= 3
  {
    c.lastInputs.Some? ==> |c.lastInputs.value| == 3 && c.lastInputs.value[k - 1] == LastInput(events, k)
  }

  ghost predicate TickFollows(c: ClientState, events: seq<ClientEvent>) {
    c.gameState.Some? ==> c.gameState.value.tick == LastTick(events)
  }

  ghost predicate IsHistory(c: ClientState, events: seq<ClientEvent>) {
    && IdentityFollows(c, events)
    && TickFollows(c, events)
    && (forall n :: 1 <= n <= 4 ==> PositionFollows(c, events, n))
    && (forall k :: 1 <= k <= 3 ==> InputFollows(c, events, k))
  }

  // Nothing happens before the first election.
  lemma {:induction false} NothingBeforeElection(events: seq<ClientEvent>, n: nat)
    requires !EverMaster(events) && 1 <= n <= 4
    ensures !ToldMaster(events) && LastTick(events) == 0 && !Seen(events, n)
    ensures SumOf(events, n, false) == 0 && SumOf(events, n, true) == 0
    ensures n <= 3 ==> LastInput(events, n) == PlayerInput(n, 0, 0)
  {
    if events != [] {
      NothingBeforeElection(Before(events), n);
    }
  }

  lemma IdentityStep(c: ClientState, events: seq<ClientEvent>)
    requires events != [] && ClientInv(c) && IdentityFollows(c, Before(events))
    ensures IdentityFollows(Advance(c, Latest(events)), events)
  {
  }

  lemma TickNumberStep(c: ClientState, events: seq<ClientEvent>)
    requires events != [] && ClientInv(c) && IdentityFollows(c, Before(events)) && TickFollows(c, Before(events))
    ensures TickFollows(Advance(c, Latest(events)), events)
  {
    if c.gameState.None? { NothingBeforeElection(Before(events), 1); }
  }

  lemma InputStep(c: ClientState, events: seq<ClientEvent>, k: nat)
    requires events != [] && 1 <= k <= 3 && ClientInv(c) && IdentityFollows(c, Before(events)) && InputFollows(c, Before(events), k)
    ensures InputFollows(Advance(c, Latest(events)), events, k)
  {
    if c.lastInputs.None? { NothingBeforeElection(Before(events), k); }
  }

  lemma TickedPosition(c: ClientState, events: seq<ClientEvent>, n: nat)
    requires events != [] && 1 <= n <= 4 && ClientInv(c) && IsHistory(c, Before(events)) && Latest(events).TickEvent? && IsMaster(c)
    ensures PositionFollows(Advance(c, Latest(events)), events, n)
  {
    var before, e := Before(events), Latest(events);
    assert PositionFollows(c, before, n);
    if n > 1 { assert InputFollows(c, before, n - 1); }
    forall vertical ensures Coordinate(Advance(c, e).gameState.value, n, vertical) == ToInt32(SumOf(events, n, vertical)) {
      TickMoves(c, e.ticks, e.input, n, vertical);
      WrapOfSum(SumOf(before, n, vertical), Added(c, e, n, vertical));
    }
    assert Coordinate(Advance(c, e).gameState.value, n, false) == ToInt32(SumOf(events, n, false));
    assert Coordinate(Advance(c, e).gameState.value, n, true) == ToInt32(SumOf(events, n, true));
  }

  lemma PositionStep(c: ClientState, events: seq<ClientEvent>, n: nat)
    requires events != [] && 1 <= n <= 4 && ClientInv(c) && IsHistory(c, Before(events))
    ensures PositionFollows(Advance(c, Latest(events)), events, n)
  {
    assert PositionFollows(c, Before(events), n);
    if c.gameState.None? { NothingBeforeElection(Before(events), n); }
    if Latest(events).TickEvent? && IsMaster(c) {
      TickedPosition(c, events, n);
    }
  }

  // Whatever happened to a fresh client, its state is its history and nothing else: the tick
  // number, the four positions with their existence and coordinates, and the stored inputs.
  lemma {:induction false} StateIsHistory(events: seq<ClientEvent>)
    ensures ClientInv(AdvanceAll(FRESH_CLIENT, events)) && IsHistory(AdvanceAll(FRESH_CLIENT, events), events)
  {
    if events != [] {
      var c := AdvanceAll(FRESH_CLIENT, Before(events));
      StateIsHistory(Before(events));
      AdvanceKeepsInv(c, Latest(events));
      IdentityStep(c, events);
      TickNumberStep(c, events);
      forall n | 1 <= n <= 4 ensures PositionFollows(Advance(c, Latest(events)), events, n) {
        PositionStep(c, events, n);
      }
      forall k | 1 <= k <= 3 ensures InputFollows(Advance(c, Latest(events)), events, k) {
        InputStep(c, events, k);
      }
    }
  }

  // ---------------------------------------------------------------- what a tick sends

  // The next tick of a master: what it leaves behind and what it sends.
  lemma {:induction false} MasterSends(events: seq<ClientEvent>, ticks: UInt32, input: UserInput)
    requires ToldMaster(events)
    ensures var after := AdvanceAll(FRESH_CLIENT, events + [TickEvent(ticks, input)]);
            && after.gameState.Some?
            && after.gameState.value.tick == ticks && after.gameState.value.pos1.isExists
            && TickPacket(AdvanceAll(FRESH_CLIENT, events), ticks, input) == Some([3] + GameStateBytes(after.gameState.value))
  {
    var longer := events + [TickEvent(ticks, input)];
    var after := AdvanceAll(FRESH_CLIENT, longer);
    StateIsHistory(events);
    StateIsHistory(longer);
    assert Before(longer) == events && Latest(longer) == TickEvent(ticks, input);
    assert PositionFollows(after, longer, 1);
    PackedGameState(after.gameState.value);
  }

  lemma {:induction false} SlaveSends(events: seq<ClientEvent>, ticks: UInt32, input: UserInput)
    requires InfoTold(events).Some? && !ToldMaster(events)
    ensures TickPacket(AdvanceAll(FRESH_CLIENT, events), ticks, input)
         == Some([4] + PlayerInputBytes(PlayerInput(InfoTold(events).value.id, input.x, input.y)))
  {
    StateIsHistory(events);
    PackedPlayerInput(PlayerInput(InfoTold(events).value.id, input.x, input.y));
  }

  // The packet of the next tick, in bytes: none before the client was told who it is, a slave's
  // input with its number, or the state of a master after the tick, which carries the tick's
  // number and in which position 1 exists.
  lemma {:induction false} TickSendsHistory(events: seq<ClientEvent>, ticks: UInt32, input: UserInput)
    ensures var packet := TickPacket(AdvanceAll(FRESH_CLIENT, events), ticks, input);
            match InfoTold(events)
            case None => packet == None
            case Some(u) =>
              if !u.isMaster then packet == Some([4] + PlayerInputBytes(PlayerInput(u.id, input.x, input.y)))
              else
                var after := AdvanceAll(FRESH_CLIENT, events + [TickEvent(ticks, input)]);
                && after.gameState.Some?
                && after.gameState.value.tick == ticks && after.gameState.value.pos1.isExists
                && packet == Some([3] + GameStateBytes(after.gameState.value))
  {
    if InfoTold(events).None? {
      StateIsHistory(events);
    } else if InfoTold(events).value.isMaster {
      MasterSends(events, ticks, input);
    } else {
      SlaveSends(events, ticks, input);
    }
  }

  // What a packet says to a client, by its first byte: 2 is its own information, 5 the news of a
  // slave, 4 an input; anything else, and what does not unpack, says nothing.
  lemma ContentInBytes(code: Byte, payload: Bytes)
    ensures ContentOf([]) == Nothing
    ensures ContentOf([code] + payload)
         == if code == 2 && UnpackUserInfo(payload).Some? then OwnInfo(UnpackUserInfo(payload).value)
            else if code == 5 && UnpackUserInfo(payload).Some? then SlaveNews(UnpackUserInfo(payload).value)
            else if code == 4 && UnpackPlayerInput(payload).Some? then Input(UnpackPlayerInput(payload).value)
            else Nothing
  {
    TypeBytes(code, payload);
  }
}
