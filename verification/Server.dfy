/**
 * The relay server as a state machine: a table of ten slots, one step per network event, and
 * what every run of events keeps.
 */
module Server {
  import opened Base
  import opened Protocol
  import opened ProtocolTheorems

  const TABLE_SIZE: nat := 10

  type Peer = nat

  datatype Slot = Free | Used(peer: Peer, isMaster: bool)

  datatype Channel = Critical | Stream | StreamPuppetInputs | Service

  datatype Event =
    | Connect(peer: Peer)
    | Receive(peer: Peer, packet: Bytes)
    | Disconnect(peer: Peer)

  // What the server hands to the network.
  datatype Output =
    | Unicast(to: Peer, channel: Channel, packet: Bytes)
    | Broadcast(channel: Channel, packet: Bytes)

  datatype Result = Result(table: seq<Slot>, outputs: seq<Output>)

  // ---------------------------------------------------------------- looking at the table

  ghost predicate IsActive(t: seq<Slot>, p: Peer) {
    exists i :: 0 <= i < |t| && t[i].Used? && t[i].peer == p
  }

  // The index of the first slot with this peer, or the length of the table.
  function IndexOf(t: seq<Slot>, p: Peer): (i: nat)
    ensures i <= |t|
    ensures i < |t| ==> t[i].Used? && t[i].peer == p
    ensures forall j :: 0 <= j < i ==> !(t[j].Used? && t[j].peer == p)
    ensures i < |t| <==> IsActive(t, p)
  {
    if t == [] then 0
    else if t[0].Used? && t[0].peer == p then 0
    else
      var rest := IndexOf(t[1..], p);
      assert rest < |t[1..]| ==> t[rest + 1].Used?;
      1 + rest
  }

  // The least free index, or the length of a full table.
  function FirstFree(t: seq<Slot>): (i: nat)
    ensures i <= |t|
    ensures i < |t| ==> t[i].Free?
    ensures forall j :: 0 <= j < i ==> t[j].Used?
  {
    if t == [] then 0 else if t[0].Free? then 0 else 1 + FirstFree(t[1..])
  }

  // The first slot held by a master, or the length of the table.
  function MasterIndex(t: seq<Slot>): (i: nat)
    ensures i <= |t|
    ensures i < |t| ==> t[i].Used? && t[i].isMaster
    ensures forall j :: 0 <= j < i ==> !(t[j].Used? && t[j].isMaster)
  {
    if t == [] then 0 else if t[0].Used? && t[0].isMaster then 0 else 1 + MasterIndex(t[1..])
  }

  function MasterOf(t: seq<Slot>): Option<Peer> {
    var i := MasterIndex(t);
    if i < |t| then Some(t[i].peer) else None
  }

  function UsedCount(t: seq<Slot>): (n: nat)
    ensures n <= |t|
  {
    if t == [] then 0 else (if t[|t| - 1].Used? then 1 else 0) + UsedCount(t[..|t| - 1])
  }

  // ---------------------------------------------------------------- one event

  // The answer to the peer registered in slot `free`, and the news for the master, if any.
  function Answers(t: seq<Slot>, free: nat, p: Peer, isMaster: bool): seq<Output> {
    var info := PackUserInfo(UserInfo(ToUInt32(free), isMaster));
    [Unicast(p, Critical, [TypeCode(ResUserInfo)] + info)]
    + if isMaster || MasterOf(t).None? then []
      else [Unicast(MasterOf(t).value, Critical, [TypeCode(SlaveConnected)] + info)]
  }

  // handle_player_register
  function Register(t: seq<Slot>, p: Peer): (r: Result)
    ensures |r.table| == |t|
  {
    var free := FirstFree(t);
    if IndexOf(t, p) < |t| || free == |t| then Result(t, [])
    else
      var isMaster := UsedCount(t) == 0;
      var t' := t[free := Used(p, isMaster)];
      Result(t', Answers(t', free, p, isMaster))
  }

  lemma {:induction false} RegisterInCases(t: seq<Slot>, p: Peer, t': seq<Slot>)
    requires |t| == TABLE_SIZE && !IsActive(t, p)
    requires t' == if FirstFree(t) < TABLE_SIZE then t[FirstFree(t) := Used(p, UsedCount(t) == 0)] else t
    ensures Register(t, p)
         == Result(t', if FirstFree(t) < TABLE_SIZE then Answers(t', FirstFree(t), p, UsedCount(t) == 0) else [])
  {
  }

  // try_remove_player
  function Remove(t: seq<Slot>, p: Peer): (t': seq<Slot>)
    ensures |t'| == |t|
  {
    var i := IndexOf(t, p);
    if i < |t| then t[i := Free] else t
  }

  function ReceiveMessage(t: seq<Slot>, p: Peer, packet: Bytes, m: Message): (r: Result)
    ensures |r.table| == |t|
  {
    match m.kind
    case ReqUserInfo => Register(t, p)
    case GameStateUpd =>
      (match UnpackGameState(m.payload)
       case Some(g) => Result(t, [Broadcast(Stream, [TypeCode(GameStateUpd)] + PackGameState(g))])
       case None => Result(t, []))
    case PlayerInputMsg =>
      (match MasterOf(t)
       case Some(master) => Result(t, [Unicast(master, StreamPuppetInputs, packet)])
       case None => Result(t, []))
    case _ => Result(t, [])
  }

  function Step(t: seq<Slot>, e: Event): (r: Result)
    ensures |r.table| == |t|
  {
    match e
    case Connect(_) => Result(t, [])
    case Disconnect(p) => Result(Remove(t, p), [])
    case Receive(p, packet) =>
      match ParseMessage(packet)
      case None => Result(t, [])
      case Some(m) => ReceiveMessage(t, p, packet, m)
  }

  const EMPTY_TABLE: seq<Slot> := [Free, Free, Free, Free, Free, Free, Free, Free, Free, Free]

  function Run(events: seq<Event>): (t: seq<Slot>)
    ensures |t| == TABLE_SIZE
  {
    if events == [] then EMPTY_TABLE
    else Step(Run(events[..|events| - 1]), events[|events| - 1]).table
  }

  // Everything handed to the network in a run, in order.
  function RunOutputs(events: seq<Event>): seq<Output> {
    if events == [] then []
    else RunOutputs(events[..|events| - 1]) + Step(Run(events[..|events| - 1]), events[|events| - 1]).outputs
  }

  // ---------------------------------------------------------------- invariant of every run

  ghost predicate Distinct(t: seq<Slot>) {
    forall i, j :: 0 <= i < j < |t| && t[i].Used? && t[j].Used? ==> t[i].peer != t[j].peer
  }

  // Peers are distinct, and only slot 0 may hold a master.
  ghost predicate TableInv(t: seq<Slot>) {
    && |t| == TABLE_SIZE
    && Distinct(t)
    && (forall i :: 0 < i < |t| && t[i].Used? ==> !t[i].isMaster)
  }

  lemma {:induction false} UsedCountZero(t: seq<Slot>)
    ensures UsedCount(t) == 0 <==> forall i :: 0 <= i < |t| ==> t[i].Free?
  {
    if t != [] {
      UsedCountZero(t[..|t| - 1]);
      assert forall i :: 0 <= i < |t| - 1 ==> t[i] == t[..|t| - 1][i];
    }
  }

  lemma RegisterKeepsInv(t: seq<Slot>, p: Peer)
    requires TableInv(t)
    ensures TableInv(Register(t, p).table)
  {
    var free := FirstFree(t);
    if IndexOf(t, p) == |t| && free < |t| {
      UsedCountZero(t);
      assert UsedCount(t) == 0 ==> free == 0;
    }
  }

  lemma StepKeepsInv(t: seq<Slot>, e: Event)
    requires TableInv(t)
    ensures TableInv(Step(t, e).table)
  {
    match e {
      case Receive(p, packet) =>
        RegisterKeepsInv(t, p);
      case _ =>
    }
  }

  lemma {:induction false} RunKeepsInv(events: seq<Event>)
    ensures TableInv(Run(events))
  {
    if events != [] {
      RunKeepsInv(events[..|events| - 1]);
      StepKeepsInv(Run(events[..|events| - 1]), events[|events| - 1]);
    }
  }

  // At most one master, and it sits in slot 0.
  lemma MasterIsSlotZero(t: seq<Slot>)
    requires TableInv(t)
    ensures MasterOf(t).Some? <==> t[0].Used? && t[0].isMaster
    ensures MasterOf(t).Some? ==> MasterOf(t) == Some(t[0].peer)
    ensures forall i :: 0 <= i < |t| && t[i].Used? && t[i].isMaster ==> i == 0 && MasterOf(t) == Some(t[i].peer)
  {
  }

  // ---------------------------------------------------------------- refinement of a partial map

  ghost function ActivePeers(t: seq<Slot>): (active: set<Peer>)
    ensures forall p :: p in active <==> IsActive(t, p)
  {
    set i | 0 <= i < |t| && t[i].Used? :: t[i].peer
  }

  // The table as a partial map from active peers to slot numbers.
  ghost function SlotMap(t: seq<Slot>): (m: map<Peer, nat>)
    ensures forall p :: p in m <==> IsActive(t, p)
    ensures forall p :: p in m ==> m[p] == IndexOf(t, p)
  {
    map p | p in ActivePeers(t) :: IndexOf(t, p)
  }

  // The abstract machine: registration takes the least number no peer holds, while fewer than
  // ten peers are active.
  ghost function LeastUnusedFrom(m: map<Peer, nat>, n: nat): (k: nat)
    requires n <= TABLE_SIZE
    ensures n <= k <= TABLE_SIZE
    ensures forall j :: n <= j < k ==> j in m.Values
    ensures k < TABLE_SIZE ==> k !in m.Values
    decreases TABLE_SIZE - n
  {
    if n == TABLE_SIZE || n !in m.Values then n else LeastUnusedFrom(m, n + 1)
  }

  ghost predicate IsRegistration(e: Event) {
    e.Receive? && ParseMessage(e.packet).Some? && ParseMessage(e.packet).value.kind == ReqUserInfo
  }

  ghost function AbstractStep(m: map<Peer, nat>, e: Event): map<Peer, nat> {
    if e.Disconnect? then m - {e.peer}
    else if IsRegistration(e) && e.peer !in m && |m| < TABLE_SIZE then m[e.peer := LeastUnusedFrom(m, 0)]
    else m
  }

  ghost function AbstractRun(events: seq<Event>): map<Peer, nat> {
    if events == [] then map[] else AbstractStep(AbstractRun(events[..|events| - 1]), events[|events| - 1])
  }

  // The map and the table say the same; no other map does.
  ghost predicate Represents(t: seq<Slot>, m: map<Peer, nat>) {
    && (forall i :: 0 <= i < |t| && t[i].Used? ==> t[i].peer in m && m[t[i].peer] == i)
    && (forall p :: p in m ==> m[p] < |t| && t[m[p]].Used? && t[m[p]].peer == p)
  }

  lemma SlotMapRepresents(t: seq<Slot>)
    requires Distinct(t)
    ensures Represents(t, SlotMap(t))
  {
    forall i | 0 <= i < |t| && t[i].Used? ensures t[i].peer in SlotMap(t) && SlotMap(t)[t[i].peer] == i {
      assert IsActive(t, t[i].peer);
    }
  }

  lemma RepresentsUnique(t: seq<Slot>, m: map<Peer, nat>)
    requires Distinct(t) && Represents(t, m)
    ensures m == SlotMap(t)
  {
    SlotMapRepresents(t);
    forall p ensures p in m <==> p in SlotMap(t) {
      if p in m { assert t[m[p]].peer in SlotMap(t); }
      if p in SlotMap(t) { assert t[SlotMap(t)[p]].peer in m; }
    }
    forall p | p in m ensures m[p] == SlotMap(t)[p] {
      assert t[m[p]].peer == p;
    }
  }

  // Represents under the two updates of the table.
  lemma RepresentsFill(t: seq<Slot>, m: map<Peer, nat>, i: nat, p: Peer, isMaster: bool)
    requires Represents(t, m) && i < |t| && t[i].Free? && p !in m
    ensures Represents(t[i := Used(p, isMaster)], m[p := i])
  {
  }

  lemma RepresentsClear(t: seq<Slot>, m: map<Peer, nat>, p: Peer)
    requires Represents(t, m)
    ensures Represents(if p in m then t[m[p] := Free] else t, m - {p})
  {
  }

  lemma OneMore(m: map<Peer, nat>, p: Peer)
    requires p in m
    ensures |m| == |m - {p}| + 1
  {
    assert m == (m - {p})[p := m[p]];
  }

  lemma RepresentsFront(t: seq<Slot>, m: map<Peer, nat>)
    requires Represents(t, m) && t != []
    ensures t[|t| - 1].Used? ==> t[|t| - 1].peer in m && Represents(t[..|t| - 1], m - {t[|t| - 1].peer})
    ensures t[|t| - 1].Free? ==> Represents(t[..|t| - 1], m)
  {
    var n := |t| - 1;
    forall p | p in m && (t[n].Used? ==> p != t[n].peer) ensures m[p] < n {
      assert t[m[p]].Used? && t[m[p]].peer == p;
    }
  }

  lemma NothingRepresented(m: map<Peer, nat>)
    requires Represents([], m)
    ensures |m| == 0
  {
    assert m == map[];
  }

  lemma {:induction false} CountOfMap(t: seq<Slot>, m: map<Peer, nat>)
    requires Represents(t, m)
    ensures |m| == UsedCount(t)
  {
    if t == [] {
      NothingRepresented(m);
    } else {
      var n := |t| - 1;
      RepresentsFront(t, m);
      if t[n].Used? {
        CountOfMap(t[..n], m - {t[n].peer});
        OneMore(m, t[n].peer);
      } else {
        CountOfMap(t[..n], m);
      }
    }
  }

  lemma {:induction false} UsedCountFull(t: seq<Slot>)
    ensures UsedCount(t) == |t| <==> forall i :: 0 <= i < |t| ==> t[i].Used?
  {
    if t != [] {
      UsedCountFull(t[..|t| - 1]);
      assert forall i :: 0 <= i < |t| - 1 ==> t[i] == t[..|t| - 1][i];
    }
  }

  lemma {:induction false} LeastUnusedIsFirstFree(t: seq<Slot>)
    requires TableInv(t)
    ensures LeastUnusedFrom(SlotMap(t), 0) == FirstFree(t)
    ensures |SlotMap(t)| < TABLE_SIZE <==> FirstFree(t) < TABLE_SIZE
  {
    var m, free := SlotMap(t), FirstFree(t);
    SlotMapRepresents(t);
    forall j | 0 <= j < free ensures j in m.Values {
      assert m[t[j].peer] == j;
    }
    assert free < |t| ==> free !in m.Values;
    CountOfMap(t, m);
    UsedCountFull(t);
  }

  // Registration takes the least free slot, changes nothing for an active peer and fails
  // exactly when ten peers are active.
  lemma RegisterRefines(t: seq<Slot>, p: Peer)
    requires TableInv(t)
    ensures SlotMap(Register(t, p).table)
         == if !IsActive(t, p) && |SlotMap(t)| < TABLE_SIZE then SlotMap(t)[p := LeastUnusedFrom(SlotMap(t), 0)] else SlotMap(t)
  {
    LeastUnusedIsFirstFree(t);
    SlotMapRepresents(t);
    var free, t' := FirstFree(t), Register(t, p).table;
    if !IsActive(t, p) && free < |t| {
      RegisterKeepsInv(t, p);
      RepresentsFill(t, SlotMap(t), free, p, UsedCount(t) == 0);
      RepresentsUnique(t', SlotMap(t)[p := free]);
    }
  }

  lemma RemoveRefines(t: seq<Slot>, p: Peer)
    requires TableInv(t)
    ensures SlotMap(Remove(t, p)) == SlotMap(t) - {p}
  {
    SlotMapRepresents(t);
    RepresentsClear(t, SlotMap(t), p);
    RepresentsUnique(Remove(t, p), SlotMap(t) - {p});
  }

  lemma StepRefines(t: seq<Slot>, e: Event)
    requires TableInv(t)
    ensures SlotMap(Step(t, e).table) == AbstractStep(SlotMap(t), e)
  {
    if e.Disconnect? {
      RemoveRefines(t, e.peer);
    } else if IsRegistration(e) {
      assert Step(t, e).table == Register(t, e.peer).table;
      RegisterRefines(t, e.peer);
    } else {
      assert Step(t, e).table == t;
    }
  }

  // Over every run the table refines the partial map: the active peers are the fold of the
  // accepted registrations and the disconnects.
  lemma {:induction false} RunRefines(events: seq<Event>)
    ensures SlotMap(Run(events)) == AbstractRun(events)
  {
    if events == [] {
      RepresentsUnique(EMPTY_TABLE, map[]);
    } else {
      RunRefines(events[..|events| - 1]);
      RunKeepsInv(events[..|events| - 1]);
      StepRefines(Run(events[..|events| - 1]), events[|events| - 1]);
    }
  }

  // ---------------------------------------------------------------- tenure of the master

  ghost predicate IsEmpty(t: seq<Slot>) {
    forall i :: 0 <= i < |t| ==> t[i].Free?
  }

  // A master is elected only from an empty table, by its own registration.
  lemma ElectedOnlyFromEmpty(t: seq<Slot>, e: Event, p: Peer)
    requires TableInv(t) && MasterOf(Step(t, e).table) == Some(p) && MasterOf(t) != Some(p)
    ensures IsEmpty(t) && IsRegistration(e) && e.peer == p
  {
    StepKeepsInv(t, e);
    MasterIsSlotZero(t);
    MasterIsSlotZero(Step(t, e).table);
    UsedCountZero(t);
  }

  // It keeps the role until its own disconnect.
  lemma MasterKeepsRole(t: seq<Slot>, e: Event, p: Peer)
    requires TableInv(t) && MasterOf(t) == Some(p) && e != Disconnect(p)
    ensures MasterOf(Step(t, e).table) == Some(p)
  {
    StepKeepsInv(t, e);
    MasterIsSlotZero(t);
    MasterIsSlotZero(Step(t, e).table);
    UsedCountZero(t);
  }

  lemma RunAppend(events: seq<Event>, n: nat)
    requires n < |events|
    ensures Run(events[..n + 1]) == Step(Run(events[..n]), events[n]).table
    ensures RunOutputs(events[..n + 1]) == RunOutputs(events[..n]) + Step(Run(events[..n]), events[n]).outputs
  {
    assert events[..n + 1][..n] == events[..n];
  }

  lemma {:induction false} MasterTenure(events: seq<Event>, i: nat, j: nat, p: Peer)
    requires i <= j <= |events| && MasterOf(Run(events[..i])) == Some(p)
    requires forall k :: i <= k < j ==> events[k] != Disconnect(p)
    ensures MasterOf(Run(events[..j])) == Some(p)
  {
    if i < j {
      MasterTenure(events, i, j - 1, p);
      RunKeepsInv(events[..j - 1]);
      RunAppend(events, j - 1);
      MasterKeepsRole(Run(events[..j - 1]), events[j - 1], p);
    }
  }

  // Nobody becomes master while the table stays non-empty.
  lemma {:induction false} NoMasterUntilDrained(events: seq<Event>, i: nat, j: nat)
    requires i <= j <= |events| && MasterOf(Run(events[..i])) == None
    requires forall k :: i <= k < j ==> !IsEmpty(Run(events[..k]))
    ensures MasterOf(Run(events[..j])) == None
  {
    if i < j {
      NoMasterUntilDrained(events, i, j - 1);
      RunAppend(events, j - 1);
      RunKeepsInv(events[..j - 1]);
      if MasterOf(Run(events[..j])).Some? {
        ElectedOnlyFromEmpty(Run(events[..j - 1]), events[j - 1], MasterOf(Run(events[..j])).value);
      }
    }
  }

  // The table became orphaned at event i: the master of that moment disconnected there, and
  // since then the table was never empty.
  ghost predicate OrphanedAt(events: seq<Event>, i: nat) {
    && i < |events|
    && MasterOf(Run(events[..i])).Some?
    && events[i] == Disconnect(MasterOf(Run(events[..i])).value)
    && forall k :: i < k <= |events| ==> !IsEmpty(Run(events[..k]))
  }

  lemma FirstRegistrationIsMaster(t: seq<Slot>, e: Event)
    requires TableInv(t) && IsEmpty(t) && !IsEmpty(Step(t, e).table)
    ensures MasterOf(Step(t, e).table).Some?
  {
    UsedCountZero(t);
    var t' := Step(t, e).table;
    assert t'[0].Used? && t'[0].isMaster;
  }

  lemma {:induction false} OrphanedLater(events: seq<Event>, n: nat, i: nat)
    requires |events| == n + 1 && OrphanedAt(events[..n], i) && !IsEmpty(Run(events))
    ensures OrphanedAt(events, i)
  {
    assert events[..n][..i] == events[..i];
    forall k | i < k <= |events| ensures !IsEmpty(Run(events[..k])) {
      if k <= n { assert events[..n][..k] == events[..k]; } else { assert events[..k] == events; }
    }
  }

  // A non-empty table without a master lost its master by disconnect since it was last empty.
  lemma {:induction false} MasterlessMeansOrphaned(events: seq<Event>) returns (i: nat)
    requires !IsEmpty(Run(events)) && MasterOf(Run(events)) == None
    ensures OrphanedAt(events, i)
  {
    var n := |events| - 1;
    i := n;
    assert events[..n + 1] == events;
    RunAppend(events, n);
    RunKeepsInv(events[..n]);
    var before, e := Run(events[..n]), events[n];
    if IsEmpty(before) {
      FirstRegistrationIsMaster(before, e);
    } else if MasterOf(before).Some? {
      if e != Disconnect(MasterOf(before).value) {
        MasterKeepsRole(before, e, MasterOf(before).value);
      }
      OrphanedNow(events, n);
    } else {
      i := MasterlessMeansOrphaned(events[..n]);
      OrphanedLater(events, n, i);
    }
  }

  lemma {:induction false} OrphanedNow(events: seq<Event>, n: nat)
    requires |events| == n + 1 && !IsEmpty(Run(events))
    requires MasterOf(Run(events[..n])).Some? && events[n] == Disconnect(MasterOf(Run(events[..n])).value)
    ensures OrphanedAt(events, n)
  {
    forall k | n < k <= |events| ensures !IsEmpty(Run(events[..k])) {
      assert events[..k] == events;
    }
  }

  // The disconnect of a master leaves no master.
  lemma DisconnectEndsRole(t: seq<Slot>, p: Peer)
    requires TableInv(t) && MasterOf(t) == Some(p)
    ensures MasterOf(Step(t, Disconnect(p)).table) == None
  {
    StepKeepsInv(t, Disconnect(p));
    MasterIsSlotZero(t);
    MasterIsSlotZero(Step(t, Disconnect(p)).table);
  }

  lemma {:induction false} OrphanedMeansMasterless(events: seq<Event>, i: nat)
    requires OrphanedAt(events, i)
    ensures !IsEmpty(Run(events)) && MasterOf(Run(events)) == None
  {
    RunKeepsInv(events[..i]);
    RunAppend(events, i);
    DisconnectEndsRole(Run(events[..i]), MasterOf(Run(events[..i])).value);
    NoMasterUntilDrained(events, i + 1, |events|);
    assert events[..|events|] == events;
  }

  // A non-empty table has no master exactly when its master disconnected since it was last empty.
  lemma {:induction false} MasterlessIffOrphaned(events: seq<Event>)
    ensures !IsEmpty(Run(events)) && MasterOf(Run(events)) == None <==> exists i :: OrphanedAt(events, i)
  {
    if !IsEmpty(Run(events)) && MasterOf(Run(events)) == None {
      var i := MasterlessMeansOrphaned(events);
    }
    if i :| OrphanedAt(events, i) {
      OrphanedMeansMasterless(events, i);
    }
  }

  const REQUEST: Bytes := [1]

  lemma {:induction false} RequestFills(t: seq<Slot>, p: Peer, free: nat)
    requires |t| == TABLE_SIZE && !IsActive(t, p) && free == FirstFree(t) < TABLE_SIZE
    ensures Step(t, Receive(p, REQUEST)).table == t[free := Used(p, UsedCount(t) == 0)]
  {
    assert REQUEST[1..] == [];
    RegisterInCases(t, p, t[free := Used(p, UsedCount(t) == 0)]);
  }

  const ONE_PEER := EMPTY_TABLE[0 := Used(1, true)]
  const TWO_PEERS := ONE_PEER[1 := Used(2, false)]

  lemma FirstPeer()
    ensures Step(EMPTY_TABLE, Receive(1, REQUEST)).table == ONE_PEER
  {
    UsedCountZero(EMPTY_TABLE);
    RequestFills(EMPTY_TABLE, 1, 0);
  }

  lemma SecondPeer()
    ensures Step(ONE_PEER, Receive(2, REQUEST)).table == TWO_PEERS
  {
    UsedCountZero(ONE_PEER);
    assert ONE_PEER[0].Used?;
    RequestFills(ONE_PEER, 2, 1);
  }

  lemma MasterLeaves()
    ensures Step(TWO_PEERS, Disconnect(1)).table == TWO_PEERS[0 := Free]
  {
    assert TWO_PEERS[0] == Used(1, true);
  }

  // A run in which it happens: two peers register and the first disconnects.
  lemma OrphanedRun() returns (events: seq<Event>)
    ensures Run(events) == TWO_PEERS[0 := Free]
    ensures !IsEmpty(Run(events)) && MasterOf(Run(events)) == None
  {
    events := [Receive(1, REQUEST), Receive(2, REQUEST), Disconnect(1)];
    FirstPeer();
    SecondPeer();
    MasterLeaves();
    RunOfThree(events, ONE_PEER, TWO_PEERS);
    MasterlessTable();
  }

  lemma {:induction false} RunOfThree(events: seq<Event>, one: seq<Slot>, two: seq<Slot>)
    requires |events| == 3
    requires Step(EMPTY_TABLE, events[0]).table == one && Step(one, events[1]).table == two
    ensures Run(events) == Step(two, events[2]).table
  {
    RunAppend(events, 0);
    RunAppend(events, 1);
    RunAppend(events, 2);
    assert events[..0] == [] && events[..3] == events;
  }

  lemma MasterlessTable()
    ensures !IsEmpty(TWO_PEERS[0 := Free]) && MasterOf(TWO_PEERS[0 := Free]) == None
  {
    assert TWO_PEERS[0 := Free][1].Used?;
    MasterIsSlotZero(TWO_PEERS[0 := Free]);
  }

  // ---------------------------------------------------------------- what is sent to whom

  // Player inputs go unchanged to the unique master or to nobody, game states to everybody as
  // the canonical packing of what was decoded; neither touches the table.
  lemma RelayRouting(t: seq<Slot>, p: Peer, packet: Bytes, m: Message)
    requires TableInv(t) && ParseMessage(packet) == Some(m)
    ensures m.kind == PlayerInputMsg ==>
              && Step(t, Receive(p, packet)).table == t
              && (forall o :: o in Step(t, Receive(p, packet)).outputs ==>
                    o.Unicast? && o.packet == packet && exists i :: 0 <= i < |t| && t[i] == Used(o.to, true))
              && (|Step(t, Receive(p, packet)).outputs| == if exists i :: 0 <= i < |t| && t[i].Used? && t[i].isMaster then 1 else 0)
    ensures m.kind == GameStateUpd ==>
              && Step(t, Receive(p, packet)).table == t
              && Step(t, Receive(p, packet)).outputs
                 == if Repack(m.payload).Some? then [Broadcast(Stream, Frame(GameStateUpd, Repack(m.payload).value).value)] else []
  {
    MasterIsSlotZero(t);
  }
}
