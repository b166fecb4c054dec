/**
 * Everything the server sends over a whole run, told without its table: an abstract machine that
 * knows the active peers' numbers and who is master sends the same packets in the same order.
 */
module ServerOutputs {
  import opened Base
  import opened Protocol
  import opened WireFormat
  import opened Server

  // ---------------------------------------------------------------- the abstract machine

  // A request for user information by a peer that is not active while fewer than ten are.
  ghost predicate IsAccepted(m: map<Peer, nat>, e: Event) {
    e.Receive? && e.packet != [] && e.packet[0] == 1 && e.peer !in m && |m| < 10
  }

  // Its number, the least no active peer holds, and its role.
  ghost function InfoFor(m: map<Peer, nat>): UserInfo {
    UserInfo(LeastUnusedFrom(m, 0), m == map[])
  }

  // Master is who was accepted when nobody was active, until it disconnects.
  ghost function MasterAfter(m: map<Peer, nat>, master: Option<Peer>, e: Event): Option<Peer> {
    if e.Disconnect? && master == Some(e.peer) then None
    else if IsAccepted(m, e) && m == map[] then Some(e.peer)
    else master
  }

  ghost function AbstractMaster(events: seq<Event>): Option<Peer> {
    if events == [] then None
    else
      var before := events[..|events| - 1];
      MasterAfter(AbstractRun(before), AbstractMaster(before), events[|events| - 1])
  }

  ghost function AnswerTo(m: map<Peer, nat>, p: Peer): Output {
    Unicast(p, Critical, [2] + UserInfoBytes(InfoFor(m)))
  }

  ghost function NewsFor(m: map<Peer, nat>, master: Peer): Output {
    Unicast(master, Critical, [5] + UserInfoBytes(InfoFor(m)))
  }

  // What is sent for one event: the answer, with the news of a slave to the master; the packing of
  // a game state to everybody; an input as it is to the master; for anything else nothing.
  ghost function Due(m: map<Peer, nat>, master: Option<Peer>, e: Event): seq<Output> {
    if IsAccepted(m, e) then
      [AnswerTo(m, e.peer)] + if m != map[] && master.Some? then [NewsFor(m, master.value)] else []
    else if e.Receive? && e.packet != [] && e.packet[0] == 3 && UnpackGameState(e.packet[1..]).Some? then
      [Broadcast(Stream, [3] + GameStateBytes(UnpackGameState(e.packet[1..]).value))]
    else if e.Receive? && e.packet != [] && e.packet[0] == 4 && master.Some? then
      [Unicast(master.value, StreamPuppetInputs, e.packet)]
    else []
  }

  ghost function DueInRun(events: seq<Event>): seq<Output> {
    if events == [] then []
    else
      var before := events[..|events| - 1];
      DueInRun(before) + Due(AbstractRun(before), AbstractMaster(before), events[|events| - 1])
  }

  // ---------------------------------------------------------------- one event

  lemma {:induction false} AcceptedIsRegistration(t: seq<Slot>, e: Event)
    requires TableInv(t)
    ensures IsAccepted(SlotMap(t), e) <==> IsRegistration(e) && !IsActive(t, e.peer) && FirstFree(t) < TABLE_SIZE
  {
    LeastUnusedIsFirstFree(t);
  }

  lemma {:induction false} NobodyActive(t: seq<Slot>)
    requires TableInv(t)
    ensures SlotMap(t) == map[] <==> UsedCount(t) == 0
  {
    SlotMapRepresents(t);
    CountOfMap(t, SlotMap(t));
  }

  lemma MasterAfterFill(t: seq<Slot>, p: Peer)
    requires TableInv(t) && !IsActive(t, p) && FirstFree(t) < TABLE_SIZE
    ensures var isMaster := UsedCount(t) == 0;
            MasterOf(t[FirstFree(t) := Used(p, isMaster)]) == if isMaster then Some(p) else MasterOf(t)
  {
    var free, t' := FirstFree(t), t[FirstFree(t) := Used(p, UsedCount(t) == 0)];
    UsedCountZero(t);
    RegisterInCases(t, p, t');
    RegisterKeepsInv(t, p);
    MasterIsSlotZero(t);
    MasterIsSlotZero(t');
  }

  lemma AnswersInBytes(t: seq<Slot>, free: nat, p: Peer, u: UserInfo)
    requires u.id == ToUInt32(free)
    ensures Answers(t, free, p, u.isMaster)
         == [Unicast(p, Critical, [2] + UserInfoBytes(u))]
            + if !u.isMaster && MasterOf(t).Some? then [Unicast(MasterOf(t).value, Critical, [5] + UserInfoBytes(u))] else []
  {
    PackedUserInfo(u);
  }

  lemma SmallNumber(n: nat)
    requires n <= TABLE_SIZE
    ensures ToUInt32(n) == n
  {
  }

  lemma {:induction false} AnswersAreDueNow(t: seq<Slot>, t': seq<Slot>, p: Peer)
    requires TableInv(t) && !IsActive(t, p) && FirstFree(t) < TABLE_SIZE
    requires t' == t[FirstFree(t) := Used(p, UsedCount(t) == 0)]
    ensures Answers(t', FirstFree(t), p, UsedCount(t) == 0)
         == [AnswerTo(SlotMap(t), p)]
            + if UsedCount(t) != 0 && MasterOf(t).Some? then [NewsFor(SlotMap(t), MasterOf(t).value)] else []
  {
    var u := InfoFor(SlotMap(t));
    LeastUnusedIsFirstFree(t);
    NobodyActive(t);
    MasterAfterFill(t, p);
    SmallNumber(FirstFree(t));
    AnswersInBytes(t', FirstFree(t), p, u);
  }

  lemma {:induction false} RegistrationSends(t: seq<Slot>, e: Event)
    requires TableInv(t) && IsRegistration(e) && !IsActive(t, e.peer) && FirstFree(t) < TABLE_SIZE
    ensures Step(t, e).outputs == Due(SlotMap(t), MasterOf(t), e)
    ensures MasterOf(Step(t, e).table) == MasterAfter(SlotMap(t), MasterOf(t), e)
  {
    var t' := t[FirstFree(t) := Used(e.peer, UsedCount(t) == 0)];
    RegisterInCases(t, e.peer, t');
    assert Step(t, e) == Register(t, e.peer);
    AcceptedIsRegistration(t, e);
    NobodyActive(t);
    AnswersAreDueNow(t, t', e.peer);
    MasterAfterFill(t, e.peer);
  }

  lemma {:induction false} OtherRequestsAreIgnored(t: seq<Slot>, p: Peer)
    requires IsActive(t, p) || FirstFree(t) == |t|
    ensures Register(t, p) == Result(t, [])
  {
  }

  lemma RelaySends(t: seq<Slot>, e: Event, m: Message)
    requires TableInv(t) && e.Receive? && !IsAccepted(SlotMap(t), e) && ParseMessage(e.packet) == Some(m)
    requires e.packet == [e.packet[0]] + m.payload && e.packet[0] == TypeCode(m.kind)
    ensures Step(t, e) == Result(t, Due(SlotMap(t), MasterOf(t), e))
  {
    assert e.packet[1..] == m.payload;
    if m.kind == ReqUserInfo {
      AcceptedIsRegistration(t, e);
      OtherRequestsAreIgnored(t, e.peer);
    } else if m.kind == GameStateUpd && UnpackGameState(m.payload).Some? {
      PackedGameState(UnpackGameState(m.payload).value);
    }
  }

  lemma OtherSends(t: seq<Slot>, e: Event)
    requires TableInv(t) && e.Receive? && !IsAccepted(SlotMap(t), e)
    ensures Step(t, e) == Result(t, Due(SlotMap(t), MasterOf(t), e))
  {
    if e.packet != [] {
      TypeBytes(e.packet[0], e.packet[1..]);
      assert e.packet == [e.packet[0]] + e.packet[1..];
      if ParseMessage(e.packet).Some? {
        RelaySends(t, e, ParseMessage(e.packet).value);
      }
    }
  }

  lemma RemoveEndsRole(t: seq<Slot>, p: Peer)
    requires TableInv(t)
    ensures MasterOf(Remove(t, p)) == if MasterOf(t) == Some(p) then None else MasterOf(t)
  {
    StepKeepsInv(t, Disconnect(p));
    MasterIsSlotZero(t);
    MasterIsSlotZero(Remove(t, p));
  }

  // Connecting and disconnecting are answered by nothing.
  lemma StepSends(t: seq<Slot>, e: Event)
    requires TableInv(t)
    ensures Step(t, e).outputs == Due(SlotMap(t), MasterOf(t), e)
    ensures MasterOf(Step(t, e).table) == MasterAfter(SlotMap(t), MasterOf(t), e)
  {
    if e.Receive? {
      AcceptedIsRegistration(t, e);
      if IsAccepted(SlotMap(t), e) {
        RegistrationSends(t, e);
      } else {
        OtherSends(t, e);
      }
    } else if e.Disconnect? {
      RemoveEndsRole(t, e.peer);
    }
  }

  // ---------------------------------------------------------------- whole runs

  lemma {:induction false} MasterIsAbstract(events: seq<Event>)
    ensures MasterOf(Run(events)) == AbstractMaster(events)
  {
    if events == [] {
      MasterIsSlotZero(EMPTY_TABLE);
    } else {
      var before, e := events[..|events| - 1], events[|events| - 1];
      MasterIsAbstract(before);
      RunKeepsInv(before);
      RunRefines(before);
      StepSends(Run(before), e);
    }
  }

  // Over every run the server sends what the abstract machine sends, in its order, and its master
  // is the abstract one.
  lemma {:induction false} RunSends(events: seq<Event>)
    ensures RunOutputs(events) == DueInRun(events)
    ensures MasterOf(Run(events)) == AbstractMaster(events)
  {
    MasterIsAbstract(events);
    if events != [] {
      var before, e := events[..|events| - 1], events[|events| - 1];
      RunSends(before);
      RunKeepsInv(before);
      RunRefines(before);
      StepSends(Run(before), e);
    }
  }

  // ---------------------------------------------------------------- the answers of a run

  predicate IsAnswerPacket(o: Output) {
    o.packet != [] && o.packet[0] == 2
  }

  function OnlyAnswers(outputs: seq<Output>): seq<Output> {
    if outputs == [] then []
    else OnlyAnswers(outputs[..|outputs| - 1]) + if IsAnswerPacket(outputs[|outputs| - 1]) then [outputs[|outputs| - 1]] else []
  }

  // One answer for each accepted registration, in order: to the peer, with its number and role.
  ghost function DueAnswers(events: seq<Event>): seq<Output> {
    if events == [] then []
    else
      var before, e := events[..|events| - 1], events[|events| - 1];
      var m := AbstractRun(before);
      DueAnswers(before)
      + if IsAccepted(m, e) then [AnswerTo(m, e.peer)]
        else []
  }

  lemma {:induction false} AnswersAppend(a: seq<Output>, b: seq<Output>)
    ensures OnlyAnswers(a + b) == OnlyAnswers(a) + OnlyAnswers(b)
  {
    if b == [] {
      assert a + b == a;
    } else {
      assert (a + b)[..|a + b| - 1] == a + b[..|b| - 1];
      AnswersAppend(a, b[..|b| - 1]);
    }
  }

  lemma AnswersAmongTwo(a: Output, b: Output)
    ensures OnlyAnswers([]) == []
    ensures OnlyAnswers([a]) == if IsAnswerPacket(a) then [a] else []
    ensures !IsAnswerPacket(b) ==> OnlyAnswers([a] + [b]) == OnlyAnswers([a])
  {
    assert [a][..0] == [] && ([a] + [b])[..1] == [a];
  }

  lemma AnswersOfOne(m: map<Peer, nat>, master: Option<Peer>, e: Event)
    ensures OnlyAnswers(Due(m, master, e)) == if IsAccepted(m, e) then [AnswerTo(m, e.peer)] else []
  {
    var due := Due(m, master, e);
    if IsAccepted(m, e) {
      var news := NewsFor(m, if master.Some? then master.value else e.peer);
      AnswersAmongTwo(AnswerTo(m, e.peer), news);
      assert due == [AnswerTo(m, e.peer)] || due == [AnswerTo(m, e.peer)] + [news];
    } else if due != [] {
      AnswersAmongTwo(due[0], due[0]);
      assert due == [due[0]];
    }
  }

  // The answers of a run are exactly one for each registration accepted, addressed to that peer
  // with its number and its role: nothing is answered to a connection, to a repeated request, to
  // a request at a full table, or to anything else.
  lemma {:induction false} AnswersAreDue(events: seq<Event>)
    ensures OnlyAnswers(RunOutputs(events)) == DueAnswers(events)
  {
    if events != [] {
      var before, e := events[..|events| - 1], events[|events| - 1];
      var t := Run(before);
      AnswersAreDue(before);
      RunKeepsInv(before);
      RunRefines(before);
      StepSends(t, e);
      AnswersOfOne(SlotMap(t), MasterOf(t), e);
      AnswersAppend(RunOutputs(before), Step(t, e).outputs);
    }
  }

  // Connections and disconnections make the server send nothing.
  lemma OnlyPacketsAreAnswered(t: seq<Slot>, e: Event)
    requires TableInv(t) && Step(t, e).outputs != []
    ensures e.Receive?
  {
    StepSends(t, e);
  }
}
