/**
 * The server as it runs: ten pointers to heap records, scanned in loops, replaced on
 * registration and cleared in place on removal. Every operation is proved against the state
 * machine of module Server.
 */
module ServerCode {
  import opened Base
  import opened Protocol
  import opened ProtocolCode
  import opened Server

  class ActivePlayer {
    var peer: Option<Peer>
    var isExists: bool
    var isConnected: bool
    var isMaster: bool

    // A record with all fields zero.
    constructor ()
      ensures peer == None && !isExists && !isConnected && !isMaster
    {
      peer := None;
      isExists, isConnected, isMaster := false, false, false;
    }

    constructor Registered(peer: Peer, isMaster: bool)
      ensures this.peer == Some(peer) && isExists && isConnected && this.isMaster == isMaster
    {
      this.peer := Some(peer);
      isExists, isConnected, this.isMaster := true, true, isMaster;
    }

    constructor Copy(p: ActivePlayer)
      ensures peer == p.peer && isExists == p.isExists && isConnected == p.isConnected && isMaster == p.isMaster
    {
      peer, isExists, isConnected, isMaster := p.peer, p.isExists, p.isConnected, p.isMaster;
    }
  }

  ghost function SlotOf(p: ActivePlayer): Slot
    reads p
  {
    if p.isExists && p.isConnected && p.peer.Some? then Used(p.peer.value, p.isMaster) else Free
  }

  class RelayServer {
    const players: array<ActivePlayer>
    // The empty record all ten pointers refer to at the start.
    const placeholder: ActivePlayer
    // What the records say, slot by slot.
    ghost var table: seq<Slot>

    ghost function Records(): set<ActivePlayer>
      reads players
    {
      set i | 0 <= i < players.Length :: players[i]
    }

    // Records that exist are distinct objects, connected and bound to a peer; the placeholder
    // does not exist.
    ghost predicate HeapValid()
      reads this, players, Records(), placeholder
    {
      && players.Length == TABLE_SIZE == |table|
      && (forall i :: 0 <= i < players.Length ==> table[i] == SlotOf(players[i]))
      && (forall i :: 0 <= i < players.Length && players[i].isExists ==> players[i].isConnected && players[i].peer.Some?)
      && (forall i, j :: 0 <= i < j < players.Length && players[i].isExists && players[j].isExists ==>
            players[i] != players[j])
      && !placeholder.isExists
    }

    ghost predicate Valid()
      reads this, players, Records(), placeholder
    {
      HeapValid() && TableInv(table)
    }

    constructor ()
      ensures Valid() && table == EMPTY_TABLE
      ensures fresh(players) && forall i :: 0 <= i < players.Length ==> fresh(players[i])
    {
      var p := new ActivePlayer();
      placeholder := p;
      players := new ActivePlayer[TABLE_SIZE](_ => p);
      table := EMPTY_TABLE;
    }

    method IsPlayerActive(peer: Peer) returns (r: bool)
      requires Valid()
      ensures r <==> IsActive(table, peer)
    {
      for i := 0 to players.Length
        invariant forall j :: 0 <= j < i ==> !(table[j].Used? && table[j].peer == peer)
      {
        var p := players[i];
        if !p.isExists {
          continue;
        }
        if p.peer == Some(peer) && p.isConnected {
          return true;
        }
      }
      return false;
    }

    method TryGetPlayerByPeer(peer: Peer) returns (player: ActivePlayer?)
      requires Valid()
      ensures player != null <==> IsActive(table, peer)
      ensures player != null ==> player == players[IndexOf(table, peer)]
    {
      for i := 0 to players.Length
        invariant forall j :: 0 <= j < i ==> !(table[j].Used? && table[j].peer == peer)
      {
        var p := players[i];
        if !(p.isExists && p.isConnected) {
          continue;
        }
        if p.peer == Some(peer) {
          return p;
        }
      }
      return null;
    }

    method TryGetMasterClient() returns (master: ActivePlayer?)
      requires Valid()
      ensures master != null <==> MasterOf(table).Some?
      ensures master != null ==> master.peer == MasterOf(table)
    {
      for i := 0 to players.Length
        invariant forall j :: 0 <= j < i ==> !(table[j].Used? && table[j].isMaster)
      {
        var p := players[i];
        if !(p.isExists && p.isConnected) {
          continue;
        }
        if p.isMaster {
          return p;
        }
      }
      return null;
    }

    method GetActivePlayersCount() returns (count: nat)
      requires Valid()
      ensures count == UsedCount(table)
    {
      count := 0;
      for i := 0 to players.Length
        invariant count == UsedCount(table[..i])
      {
        var p := players[i];
        assert table[..i + 1][..i] == table[..i];
        if !p.isExists {
          continue;
        }
        if !p.isConnected {
          continue;
        }
        count := count + 1;
      }
      assert table[..players.Length] == table;
    }

    // Stores a fresh copy of the record in the first slot that is not in use. The heap stays
    // valid if the record, should it exist, is connected and has a peer.
    method TryRegisterPlayer(player: ActivePlayer) returns (ok: bool, outIndex: nat)
      requires HeapValid()
      modifies players, this`table
      ensures (player.isExists ==> player.isConnected && player.peer.Some?) ==> HeapValid()
      ensures !ok ==> HeapValid() && forall i :: 0 <= i < players.Length ==> players[i] == old(players[i])
      ensures ok ==> outIndex < players.Length && fresh(players[outIndex])
      ensures ok ==> forall i :: 0 <= i < players.Length && i != outIndex ==> players[i] == old(players[i])
      ensures ok ==> players[outIndex].peer == player.peer && players[outIndex].isExists == player.isExists
                     && players[outIndex].isConnected == player.isConnected && players[outIndex].isMaster == player.isMaster
      ensures ok <==> FirstFree(old(table)) < TABLE_SIZE
      ensures ok ==> outIndex == FirstFree(old(table))
      ensures table == if ok then old(table)[outIndex := SlotOf(player)] else old(table)
    {
      var isFreeIndexFound, freeIndex := false, 0;
      for i := 0 to players.Length
        invariant !isFreeIndexFound
        invariant forall j :: 0 <= j < i ==> table[j].Used?
      {
        var p := players[i];
        if p.isExists && p.isConnected {
          continue;
        }
        isFreeIndexFound := true;
        freeIndex := i;
        break;
      }
      if !isFreeIndexFound {
        return false, 0;
      }
      var copy := new ActivePlayer.Copy(player);
      assert freeIndex == FirstFree(table);
      players[freeIndex] := copy;
      table := table[freeIndex := SlotOf(player)];
      return true, freeIndex;
    }

    // Clears the record of the peer in place; no other record is written.
    method TryRemovePlayer(peer: Peer) returns (ok: bool)
      requires Valid()
      modifies Records(), this`table
      ensures Valid()
      ensures ok <==> IsActive(old(table), peer)
      ensures table == Remove(old(table), peer)
      ensures unchanged(placeholder)
      ensures forall i :: 0 <= i < players.Length && i != IndexOf(old(table), peer) && old(table[i].Used?) ==> unchanged(players[i])
    {
      for i := 0 to players.Length
        invariant unchanged(Records())
        invariant forall j :: 0 <= j < i ==> !(table[j].Used? && table[j].peer == peer)
      {
        var p := players[i];
        if !p.isExists {
          continue;
        }
        if p.peer != Some(peer) {
          continue;
        }
        assert i == IndexOf(table, peer);
        p.peer := None;
        p.isExists := false;
        table := table[i := Free];
        return true;
      }
      return false;
    }

    // The messages that follow a registration.
    method AnswerRegistration(peer: Peer, outIndex: nat, isMaster: bool) returns (outputs: seq<Output>)
      requires Valid()
      ensures outputs == Answers(table, outIndex, peer, isMaster)
      ensures Valid() && table == old(table)
    {
      var sbuf := new SBuffer();
      var info := UserInfo(ToUInt32(outIndex), isMaster);
      var packed := TryPackUserInfo(sbuf, info);
      assert sbuf.data == PackUserInfo(info);
      var answer := FramePacket(ResUserInfo, sbuf);
      outputs := [Unicast(peer, Critical, answer.value)];
      if !isMaster {
        var master := TryGetMasterClient();
        if master == null {
          return;
        }
        var news := FramePacket(SlaveConnected, sbuf);
        outputs := outputs + [Unicast(master.peer.value, Critical, news.value)];
      }
    }

    method HandlePlayerRegister(peer: Peer) returns (outputs: seq<Output>)
      requires Valid()
      modifies players, this`table
      ensures Valid()
      ensures forall i :: 0 <= i < players.Length ==> players[i] == old(players[i]) || fresh(players[i])
      ensures Result(table, outputs) == Register(old(table), peer)
    {
      var active := IsPlayerActive(peer);
      if active {
        return [];
      }
      ghost var before := table;
      var count := GetActivePlayersCount();
      var p := new ActivePlayer.Registered(peer, count == 0);
      var ok, outIndex := TryRegisterPlayer(p);
      RegisterInCases(before, peer, table);
      RegisterKeepsInv(before, peer);
      if !ok {
        return [];
      }
      outputs := AnswerRegistration(peer, outIndex, count == 0);
    }

    method HandleGameStateUpdatedByMaster(g: GameState) returns (outputs: seq<Output>)
      ensures outputs == [Broadcast(Stream, [TypeCode(GameStateUpd)] + PackGameState(g))]
    {
      var sbuf := new SBuffer();
      var packed := TryPackGameState(sbuf, g);
      assert sbuf.data == PackGameState(g);
      var packet := FramePacket(GameStateUpd, sbuf);
      outputs := [Broadcast(Stream, packet.value)];
    }

    // What the loop does with a game state: unpack it and pack it again for everybody.
    method RelayGameState(payload: Bytes) returns (outputs: seq<Output>)
      ensures BytesDefined(payload, StateDefined) ==>
                outputs == match UnpackGameState(payload)
                           case Some(g) => [Broadcast(Stream, [TypeCode(GameStateUpd)] + PackGameState(g))]
                           case None => []
    {
      var none := PlayerPos(false, 0, 0);
      var g := new Ref(GameState(0, none, none, none, none));
      var unpacked := TryUnpackGameState(payload, g);
      if !unpacked {
        return [];
      }
      outputs := HandleGameStateUpdatedByMaster(g.value);
    }

    // The message switch of the event loop.
    method HandleMessage(peer: Peer, packet: Bytes, m: Message) returns (outputs: seq<Output>)
      requires Valid()
      modifies players, this`table
      ensures Valid()
      ensures forall i :: 0 <= i < players.Length ==> players[i] == old(players[i]) || fresh(players[i])
      ensures table == ReceiveMessage(old(table), peer, packet, m).table
      ensures MessageDefined(m) ==> outputs == ReceiveMessage(old(table), peer, packet, m).outputs
    {
      match m.kind {
        case ReqUserInfo =>
          outputs := HandlePlayerRegister(peer);
        case GameStateUpd =>
          outputs := RelayGameState(m.payload);
        case PlayerInputMsg =>
          var master := TryGetMasterClient();
          if master == null {
            return [];
          }
          return [Unicast(master.peer.value, StreamPuppetInputs, packet)];
        case _ =>
          return [];
      }
    }

    // One turn of the event loop.
    method HandleEvent(e: Event) returns (outputs: seq<Output>)
      requires Valid()
      modifies players, Records(), this`table
      ensures Valid()
      ensures forall i :: 0 <= i < players.Length ==> players[i] == old(players[i]) || fresh(players[i])
      ensures table == Step(old(table), e).table
      ensures EventDefined(e) ==> outputs == Step(old(table), e).outputs
      ensures unchanged(placeholder)
    {
      match e {
        case Connect(_) =>
          return [];
        case Disconnect(peer) =>
          var removed := TryRemovePlayer(peer);
          return [];
        case Receive(peer, packet) =>
          var ok, kind, payload := TryParseMessageByType(packet);
          if !ok {
            return [];
          }
          var player := TryGetPlayerByPeer(peer);
          outputs := HandleMessage(peer, packet, Message(kind, if payload.Some? then payload.value else []));
      }
    }
  }

  // Events on which the unpackers read only what the sender wrote.
  ghost predicate MessageDefined(m: Message) {
    m.kind == GameStateUpd ==> BytesDefined(m.payload, StateDefined)
  }

  ghost predicate EventDefined(e: Event) {
    e.Receive? && ParseMessage(e.packet).Some? ==> MessageDefined(ParseMessage(e.packet).value)
  }

  ghost predicate AllDefined(events: seq<Event>, n: nat)
    requires n <= |events|
  {
    forall i :: 0 <= i < n ==> EventDefined(events[i])
  }

  // After the first events the loop stands where the state machine stands.
  ghost predicate RunFollows(events: seq<Event>, n: nat, table: seq<Slot>, outputs: seq<Output>)
    requires n <= |events|
  {
    table == Run(events[..n]) && (AllDefined(events, n) ==> outputs == RunOutputs(events[..n]))
  }

  lemma RunFollowsOn(events: seq<Event>, n: nat, before: seq<Slot>, outputs: seq<Output>, table: seq<Slot>, sent: seq<Output>)
    requires n < |events| && RunFollows(events, n, before, outputs)
    requires table == Step(before, events[n]).table
    requires EventDefined(events[n]) ==> sent == Step(before, events[n]).outputs
    ensures RunFollows(events, n + 1, table, outputs + sent)
  {
    RunAppend(events, n);
  }

  // Any run of the event loop follows the state machine, in its table and in what it sends.
  method RunServer(events: seq<Event>) returns (server: RelayServer, outputs: seq<Output>)
    ensures server.Valid() && server.table == Run(events)
    ensures AllDefined(events, |events|) ==> outputs == RunOutputs(events)
  {
    server := new RelayServer();
    outputs := [];
    for i := 0 to |events|
      invariant server.Valid() && RunFollows(events, i, server.table, outputs)
      invariant fresh(server) && fresh(server.players) && forall k :: 0 <= k < server.players.Length ==> fresh(server.players[k])
    {
      ghost var before := server.table;
      var sent := server.HandleEvent(events[i]);
      RunFollowsOn(events, i, before, outputs, server.table, sent);
      outputs := outputs + sent;
    }
    assert events[..|events|] == events;
  }
}
