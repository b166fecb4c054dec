/**
 * The client as it runs, with ticks and deliveries one after the other: global records updated
 * in place, proved against the state machine of module Client. Module Threads treats the same
 * code with its threads interleaved.
 */
module ClientCode {
  import opened Base
  import opened Protocol
  import opened ProtocolCode
  import opened Client

  // Packets on which the unpackers read only what the sender wrote.
  ghost predicate PacketDefined(packet: Bytes) {
    ParseMessage(packet).Some? && ParseMessage(packet).value.kind == PlayerInputMsg ==>
      BytesDefined(ParseMessage(packet).value.payload, InputDefined)
  }

  class RelayClient {
    var myUserInfo: Option<UserInfo>
    var currentGameState: Option<GameState>
    var lastPlayerInputs: array?<PlayerInput>

    ghost function View(): ClientState
      reads this, lastPlayerInputs
    {
      ClientState(myUserInfo, currentGameState, if lastPlayerInputs == null then None else Some(lastPlayerInputs[..]))
    }

    ghost predicate Valid()
      reads this, lastPlayerInputs
    {
      ClientInv(View())
    }

    constructor ()
      ensures Valid() && View() == FRESH_CLIENT
    {
      myUserInfo, currentGameState, lastPlayerInputs := None, None, null;
    }

    method UpdateGamesStateBySlaveInput(p: PlayerInput)
      requires Valid() && IsMaster(View())
      modifies lastPlayerInputs
      ensures Valid() && View() == Deliver(old(View()), Input(p))
    {
      if p.id == 1 {
        lastPlayerInputs[0] := lastPlayerInputs[0].(x := p.x, y := p.y);
      } else if p.id == 2 {
        lastPlayerInputs[1] := lastPlayerInputs[1].(x := p.x, y := p.y);
      } else if p.id == 3 {
        lastPlayerInputs[2] := lastPlayerInputs[2].(x := p.x, y := p.y);
      }
      assert View() == Deliver(old(View()), Input(p));
    }

    method AttemptInitCurrentGameStateByMaster()
      modifies this`currentGameState, this`lastPlayerInputs
      ensures View() == InitByMaster(old(View()))
      ensures lastPlayerInputs == old(lastPlayerInputs) || fresh(lastPlayerInputs)
    {
      if currentGameState.None? {
        currentGameState := Some(ZERO_STATE);
      }
      if lastPlayerInputs == null {
        var inputs := new PlayerInput[OTHERS_COUNT](_ => PlayerInput(0, 0, 0));
        for i := 0 to OTHERS_COUNT
          invariant forall j :: 0 <= j < i ==> inputs[j] == PlayerInput(j + 1, 0, 0)
          modifies inputs
        {
          inputs[i] := PlayerInput(i + 1, 0, 0);
        }
        lastPlayerInputs := inputs;
        assert lastPlayerInputs[..] == ZERO_INPUTS;
      }
    }

    method HandleOnSlaveConnected(u: UserInfo)
      requires Valid()
      modifies this`currentGameState
      ensures Valid() && View() == Deliver(old(View()), SlaveNews(u))
    {
      if currentGameState.None? {
        return;
      }
      var g := currentGameState.value;
      if u.id == 1 {
        currentGameState := Some(g.(pos2 := g.pos2.(isExists := true)));
      } else if u.id == 2 {
        currentGameState := Some(g.(pos3 := g.pos3.(isExists := true)));
      } else if u.id == 3 {
        currentGameState := Some(g.(pos4 := g.pos4.(isExists := true)));
      }
    }

    // The receive branch of the network loop.
    method HandleReceive(packet: Bytes)
      requires Valid()
      modifies this, lastPlayerInputs
      ensures Valid()
      ensures PacketDefined(packet) ==> View() == Deliver(old(View()), ContentOf(packet))
      ensures myUserInfo == Deliver(old(View()), ContentOf(packet)).userInfo
      ensures currentGameState == Deliver(old(View()), ContentOf(packet)).gameState
      ensures lastPlayerInputs == old(lastPlayerInputs) || fresh(lastPlayerInputs)
    {
      var ok, kind, payload := TryParseMessageByType(packet);
      if !ok {
        return;
      }
      var data := if payload.Some? then payload.value else [];
      match kind {
        case ResUserInfo =>
          var u := new Ref(UserInfo(0, false));
          var unpacked := TryUnpackUserInfo(data, u);
          if unpacked {
            AcceptInfo(u.value);
          }
        case SlaveConnected =>
          var u := new Ref(UserInfo(0, false));
          var unpacked := TryUnpackUserInfo(data, u);
          if unpacked {
            HandleOnSlaveConnected(u.value);
          }
        case PlayerInputMsg =>
          if myUserInfo.Some? && myUserInfo.value.isMaster {
            var p := new Ref(PlayerInput(0, 0, 0));
            var unpacked := TryUnpackPlayerInput(data, p);
            if unpacked {
              UpdateGamesStateBySlaveInput(p.value);
            }
          }
        case _ =>
      }
    }

    method AcceptInfo(u: UserInfo)
      requires Valid()
      modifies this
      ensures Valid() && View() == Deliver(old(View()), OwnInfo(u))
      ensures lastPlayerInputs == old(lastPlayerInputs) || fresh(lastPlayerInputs)
    {
      AdvanceKeepsInv(View(), Delivery(OwnInfo(u)));
      myUserInfo := Some(u);
      if u.isMaster {
        AttemptInitCurrentGameStateByMaster();
      }
    }

    method HandleCmdSlaveTick(input: UserInput) returns (packet: Option<Bytes>)
      requires myUserInfo.Some?
      ensures packet
           == Some([TypeCode(PlayerInputMsg)] + PackPlayerInput(PlayerInput(myUserInfo.value.id, input.x, input.y)))
    {
      var p := PlayerInput(myUserInfo.value.id, input.x, input.y);
      var sbuf := new SBuffer();
      var packed := TryPackPlayerInput(sbuf, p);
      assert sbuf.data == PackPlayerInput(p);
      packet := FramePacket(PlayerInputMsg, sbuf);
    }

    // The loop over the inputs of the others.
    method AddOthersInputs(start: GameState) returns (g: GameState)
      requires lastPlayerInputs != null && lastPlayerInputs.Length == OTHERS_COUNT
      ensures g == OthersInputs(start, lastPlayerInputs[..])
    {
      g := start;
      for i := 0 to OTHERS_COUNT
        invariant g == SomeInputs(start, lastPlayerInputs[..], i)
      {
        var p := lastPlayerInputs[i];
        if i == 0 {
          g := g.(pos2 := g.pos2.(x := ToInt32(g.pos2.x + p.x), y := ToInt32(g.pos2.y + p.y)));
        } else if i == 1 {
          g := g.(pos3 := g.pos3.(x := ToInt32(g.pos3.x + p.x), y := ToInt32(g.pos3.y + p.y)));
        } else if i == 2 {
          g := g.(pos4 := g.pos4.(x := ToInt32(g.pos4.x + p.x), y := ToInt32(g.pos4.y + p.y)));
        }
      }
      AllInputs(start, lastPlayerInputs[..]);
    }

    // Snapshot, own input, the inputs of the others, commit.
    method CommitTick(ticks: UInt32, input: UserInput)
      requires Valid() && IsMaster(View())
      modifies this`currentGameState
      ensures Valid() && View() == Tick(old(View()), ticks, input)
    {
      AdvanceKeepsInv(View(), TickEvent(ticks, input));
      var g := currentGameState.value.(tick := ticks);
      g := g.(pos1 := g.pos1.(isExists := true));
      g := g.(pos1 := g.pos1.(x := ToInt32(g.pos1.x + input.x)));
      g := g.(pos1 := g.pos1.(y := ToInt32(g.pos1.y + input.y)));
      assert g == OwnInput(currentGameState.value, ticks, input);
      g := AddOthersInputs(g);
      currentGameState := Some(g);
    }

    method SendGameState() returns (packet: Option<Bytes>)
      requires currentGameState.Some?
      ensures packet == Some([TypeCode(GameStateUpd)] + PackGameState(currentGameState.value))
    {
      var sbuf := new SBuffer();
      var packed := TryPackGameState(sbuf, currentGameState.value);
      assert sbuf.data == PackGameState(currentGameState.value);
      packet := FramePacket(GameStateUpd, sbuf);
    }

    // try_execute_tick, alone: the packet to send, if the tick succeeds.
    method TryExecuteTick(ticks: UInt32, input: UserInput) returns (ok: bool, packet: Option<Bytes>)
      requires Valid()
      modifies this`currentGameState
      ensures Valid() && View() == Tick(old(View()), ticks, input)
      ensures packet == TickPacket(old(View()), ticks, input) && (ok <==> packet.Some?)
    {
      if myUserInfo.None? {
        return false, None;
      }
      if myUserInfo.value.isMaster {
        if currentGameState.None? {
          return false, None;
        }
        CommitTick(ticks, input);
        packet := SendGameState();
      } else {
        packet := HandleCmdSlaveTick(input);
      }
      ok := true;
    }
  }

  // The state after the first `n` slave inputs.
  ghost function SomeInputs(g: GameState, inputs: seq<PlayerInput>, n: nat): GameState
    requires |inputs| == OTHERS_COUNT && n <= OTHERS_COUNT
  {
    if n == 0 then g
    else
      var h := SomeInputs(g, inputs, n - 1);
      if n == 1 then h.(pos2 := Move(h.pos2, inputs[0].x, inputs[0].y))
      else if n == 2 then h.(pos3 := Move(h.pos3, inputs[1].x, inputs[1].y))
      else h.(pos4 := Move(h.pos4, inputs[2].x, inputs[2].y))
  }

  lemma {:induction false} AllInputs(g: GameState, inputs: seq<PlayerInput>)
    requires |inputs| == OTHERS_COUNT
    ensures SomeInputs(g, inputs, OTHERS_COUNT) == OthersInputs(g, inputs)
  {
    assert SomeInputs(g, inputs, 1) == g.(pos2 := Move(g.pos2, inputs[0].x, inputs[0].y));
  }
}
