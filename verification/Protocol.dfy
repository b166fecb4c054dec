/**
 * The messages of the relay protocol: structures, the objects they are packed as, what the
 * unpackers accept, and the one-byte frame in front of every payload.
 */
module Protocol {
  import opened Base
  import opened MsgPack
  import opened Fields

  datatype UserInfo = UserInfo(id: UInt32, isMaster: bool)
  datatype PlayerInput = PlayerInput(id: UInt32, x: Int32, y: Int32)
  datatype PlayerPos = PlayerPos(isExists: bool, x: Int32, y: Int32)
  datatype GameState = GameState(tick: UInt32, pos1: PlayerPos, pos2: PlayerPos, pos3: PlayerPos, pos4: PlayerPos)

  // ---------------------------------------------------------------- keys

  const ID_KEY := Ascii("id")
  const IS_MASTER_KEY := Ascii("is_master")
  const IS_EXISTS_KEY := Ascii("is_exists")
  const X_KEY := Ascii("x")
  const Y_KEY := Ascii("y")
  const TICK_KEY := Ascii("tick")

  function Decimal(n: nat): (s: string)
    ensures forall i :: 0 <= i < |s| ==> '0' <= s[i] <= '9'
    ensures |s| > 0
  {
    (if n < 10 then "" else Decimal(n / 10)) + ['0' + (n % 10) as char]
  }

  // "pos_1", "pos_2", ...
  function PosKey(n: nat): Bytes {
    Ascii("pos_") + Ascii(Decimal(n))
  }

  // Keys that have different lengths or differ at some byte.
  lemma KeysDiffer()
    ensures |ID_KEY| == 2 && |IS_MASTER_KEY| == 9 && |IS_EXISTS_KEY| == 9 && |X_KEY| == 1 && |Y_KEY| == 1 && |TICK_KEY| == 4
    ensures X_KEY[0] == 120 && Y_KEY[0] == 121 && IS_EXISTS_KEY[0] == 105
    ensures forall n: nat :: n < 10 ==> |PosKey(n)| == 5 && PosKey(n)[4] == 48 + n
  {
    forall n: nat | n < 10 ensures |PosKey(n)| == 5 && PosKey(n)[4] == 48 + n {
      assert Decimal(n) == ['0' + n as char];
    }
  }

  // ---------------------------------------------------------------- packed form

  function IntObject(i: int): Object {
    if i >= 0 then PosInt(i) else NegInt(i)
  }

  lemma PackableWhen(entries: seq<Entry>)
    requires |entries| < LIMIT_32
    requires forall i :: 0 <= i < |entries| ==> Packable(entries[i].key) && Packable(entries[i].val)
    ensures Packable(Map(entries))
  {
  }

  function UserInfoEntries(u: UserInfo): (es: seq<Entry>)
    ensures Packable(Map(es))
  {
    KeysDiffer();
    var es := [Entry(Str(ID_KEY), PosInt(u.id)), Entry(Str(IS_MASTER_KEY), Boolean(u.isMaster))];
    PackableWhen(es);
    es
  }

  function InputEntries(p: PlayerInput): (es: seq<Entry>)
    ensures Packable(Map(es))
  {
    KeysDiffer();
    var es := [Entry(Str(ID_KEY), PosInt(p.id)), Entry(Str(X_KEY), IntObject(p.x)), Entry(Str(Y_KEY), IntObject(p.y))];
    PackableWhen(es);
    es
  }

  function PosEntries(p: PlayerPos): (es: seq<Entry>)
    ensures Packable(Map(es))
  {
    KeysDiffer();
    var es := [Entry(Str(IS_EXISTS_KEY), Boolean(p.isExists)), Entry(Str(X_KEY), IntObject(p.x)), Entry(Str(Y_KEY), IntObject(p.y))];
    PackableWhen(es);
    es
  }

  function PositionEntry(n: nat, p: PlayerPos): Entry {
    Entry(Str(PosKey(n)), Map(PosEntries(p)))
  }

  function StateEntries(g: GameState): (es: seq<Entry>)
    ensures Packable(Map(es))
  {
    KeysDiffer();
    var es := [Entry(Str(TICK_KEY), PosInt(g.tick)), PositionEntry(1, g.pos1), PositionEntry(2, g.pos2),
               PositionEntry(3, g.pos3), PositionEntry(4, g.pos4)];
    PackableWhen(es);
    es
  }

  function PackUserInfo(u: UserInfo): Bytes {
    Encode(Map(UserInfoEntries(u)))
  }

  function PackPlayerInput(p: PlayerInput): Bytes {
    Encode(Map(InputEntries(p)))
  }

  function PackGameState(g: GameState): Bytes {
    Encode(Map(StateEntries(g)))
  }

  // ---------------------------------------------------------------- accepted form

  // (uint32_t) of a positive integer object.
  function IdField(e: Entry): Reading<UInt32> {
    if e.key == Str(ID_KEY) && e.val.PosInt? then Value(ToUInt32(e.val.magnitude)) else Skip
  }

  function MasterField(e: Entry): Reading<bool> {
    if e.key == Str(IS_MASTER_KEY) && e.val.Boolean? then Value(e.val.flag) else Skip
  }

  predicate IsInteger(o: Object) {
    o.PosInt? || o.NegInt?
  }

  // (int32_t) of the untagged integer member. On an object that is no integer the C code reads
  // whatever the union holds, and 0 stands for it here: the unpackers of module ProtocolCode
  // are equal to the functions below only where the Defined predicates exclude the case.
  function Low32(o: Object): Int32 {
    if o.PosInt? then ToInt32(o.magnitude) else if o.NegInt? then ToInt32(o.number) else 0
  }

  function InputXField(e: Entry): Reading<Int32> {
    if e.key == Str(X_KEY) then Value(Low32(e.val)) else Skip
  }

  function InputYField(e: Entry): Reading<Int32> {
    if e.key == Str(Y_KEY) then Value(Low32(e.val)) else Skip
  }

  // Position keys are compared by prefix only.
  predicate StartsWith(o: Object, key: Bytes) {
    o.Str? && key <= o.text
  }

  function ExistsField(e: Entry): Reading<bool> {
    if StartsWith(e.key, IS_EXISTS_KEY) && e.val.Boolean? then Value(e.val.flag) else Skip
  }

  function PosXField(e: Entry): Reading<Int32> {
    if StartsWith(e.key, X_KEY) then Value(Low32(e.val)) else Skip
  }

  function PosYField(e: Entry): Reading<Int32> {
    if StartsWith(e.key, Y_KEY) then Value(Low32(e.val)) else Skip
  }

  function TickField(e: Entry): Reading<UInt32> {
    if e.key == Str(TICK_KEY) && e.val.PosInt? then Value(ToUInt32(e.val.magnitude)) else Skip
  }

  function PosOf(o: Object): Option<PlayerPos> {
    if !o.Map? then None
    else
      match (Scan(o.entries, ExistsField), Scan(o.entries, PosXField), Scan(o.entries, PosYField))
      case (Found(isExists), Found(x), Found(y)) => Some(PlayerPos(isExists, x, y))
      case _ => None
  }

  function ReadPosition(n: nat, e: Entry): Reading<PlayerPos> {
    if e.key != Str(PosKey(n)) then Skip
    else
      match PosOf(e.val)
      case Some(p) => Value(p)
      case None => Bad
  }

  function PositionField(n: nat): Entry -> Reading<PlayerPos> {
    (e: Entry) => ReadPosition(n, e)
  }

  function UserInfoOf(o: Object): Option<UserInfo> {
    if !o.Map? then None
    else
      match (Scan(o.entries, IdField), Scan(o.entries, MasterField))
      case (Found(id), Found(isMaster)) => Some(UserInfo(id, isMaster))
      case _ => None
  }

  function PlayerInputOf(o: Object): Option<PlayerInput> {
    if !o.Map? then None
    else
      match (Scan(o.entries, IdField), Scan(o.entries, InputXField), Scan(o.entries, InputYField))
      case (Found(id), Found(x), Found(y)) => Some(PlayerInput(id, x, y))
      case _ => None
  }

  function GameStateOf(o: Object): Option<GameState> {
    if !o.Map? then None
    else
      var es := o.entries;
      var (p1, p2, p3, p4) := (Scan(es, PositionField(1)), Scan(es, PositionField(2)), Scan(es, PositionField(3)), Scan(es, PositionField(4)));
      match Scan(es, TickField)
      case Found(tick) =>
        if p1.Found? && p2.Found? && p3.Found? && p4.Found?
        then Some(GameState(tick, p1.value, p2.value, p3.value, p4.value)) else None
      case _ => None
  }

  function Unpack<T>(b: Bytes, decode: Object -> Option<T>): Option<T> {
    match Read(b)
    case Success(o, _) => decode(o)
    case _ => None
  }

  function UnpackUserInfo(b: Bytes): Option<UserInfo> {
    Unpack(b, UserInfoOf)
  }

  function UnpackPlayerInput(b: Bytes): Option<PlayerInput> {
    Unpack(b, PlayerInputOf)
  }

  function UnpackGameState(b: Bytes): Option<GameState> {
    Unpack(b, GameStateOf)
  }

  // The inputs on which the C unpackers only read initialised, correctly tagged memory.

  predicate PosDefined(o: Object) {
    o.Map? ==>
      forall i :: 0 <= i < |o.entries| ==>
        var e := o.entries[i];
        && e.key.Str?
        && !(e.key.text < IS_EXISTS_KEY)
        && (StartsWith(e.key, X_KEY) || StartsWith(e.key, Y_KEY) ==> IsInteger(e.val))
  }

  predicate IsPositionKey(key: Object) {
    key == Str(PosKey(1)) || key == Str(PosKey(2)) || key == Str(PosKey(3)) || key == Str(PosKey(4))
  }

  predicate StateDefined(o: Object) {
    o.Map? ==> forall i :: 0 <= i < |o.entries| && IsPositionKey(o.entries[i].key) ==> PosDefined(o.entries[i].val)
  }

  predicate InputDefined(o: Object) {
    o.Map? ==>
      forall i :: 0 <= i < |o.entries| && (o.entries[i].key == Str(X_KEY) || o.entries[i].key == Str(Y_KEY)) ==>
        IsInteger(o.entries[i].val)
  }

  predicate BytesDefined(b: Bytes, defined: Object -> bool) {
    Read(b).Success? ==> defined(Read(b).value)
  }

  // ---------------------------------------------------------------- framing

  datatype MessageType = NoType | ReqUserInfo | ResUserInfo | GameStateUpd | PlayerInputMsg | SlaveConnected

  datatype Message = Message(kind: MessageType, payload: Bytes)

  function TypeCode(t: MessageType): Byte {
    match t
    case NoType => 0
    case ReqUserInfo => 1
    case ResUserInfo => 2
    case GameStateUpd => 3
    case PlayerInputMsg => 4
    case SlaveConnected => 5
  }

  predicate IsSuitable(t: MessageType) {
    !t.NoType?
  }

  function TypeOf(code: Byte): MessageType {
    if code == 1 then ReqUserInfo
    else if code == 2 then ResUserInfo
    else if code == 3 then GameStateUpd
    else if code == 4 then PlayerInputMsg
    else if code == 5 then SlaveConnected
    else NoType
  }

  function Frame(t: MessageType, payload: Bytes): Option<Bytes> {
    if IsSuitable(t) then Some([TypeCode(t)] + payload) else None
  }

  function ParseMessage(packet: Bytes): Option<Message> {
    if |packet| < 1 || !IsSuitable(TypeOf(packet[0])) then None
    else Some(Message(TypeOf(packet[0]), packet[1..]))
  }

  // Accepted packets and (suitable type, payload) pairs determine each other.
  lemma FramingBijection(packet: Bytes, m: Message)
    ensures ParseMessage(packet) == Some(m) <==> Frame(m.kind, m.payload) == Some(packet)
  {
    if ParseMessage(packet) == Some(m) {
      assert packet == [packet[0]] + packet[1..];
    }
  }
}
