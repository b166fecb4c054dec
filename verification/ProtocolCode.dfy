/**
 * The packers and unpackers as the program runs them: packers append to a buffer step by step,
 * unpackers walk the map entries in a loop, keep one flag per field and write the caller's
 * structure only on success. Each is proved against the functions of module Protocol.
 */
module ProtocolCode {
  import opened Base
  import opened MsgPack
  import opened Fields
  import opened Protocol
  import opened ProtocolTheorems

  // A structure the caller owns and passes by pointer.
  class Ref<T> {
    var value: T

    constructor (value: T)
      ensures this.value == value
    {
      this.value := value;
    }
  }

  // msgpack_sbuffer together with the msgpack_pack_* functions that write to it.
  class SBuffer {
    var data: Bytes

    constructor ()
      ensures data == []
    {
      data := [];
    }

    method PackMap(n: nat)
      requires n < LIMIT_32
      modifies this
      ensures data == old(data) + MapHeader(n)
    {
      data := data + MapHeader(n);
    }

    method PackStr(n: nat)
      requires n < LIMIT_32
      modifies this
      ensures data == old(data) + StrHeader(n)
    {
      data := data + StrHeader(n);
    }

    method PackStrBody(s: Bytes)
      modifies this
      ensures data == old(data) + s
    {
      data := data + s;
    }

    method PackUInt32(n: UInt32)
      modifies this
      ensures data == old(data) + Encode(PosInt(n))
    {
      data := data + UnsignedBytes(n);
    }

    method PackInt32(i: Int32)
      modifies this
      ensures data == old(data) + Encode(IntObject(i))
    {
      data := data + if i >= 0 then UnsignedBytes(i) else NegativeBytes(i);
    }

    method PackTrue()
      modifies this
      ensures data == old(data) + Encode(Boolean(true))
    {
      data := data + [0xc3];
    }

    method PackFalse()
      modifies this
      ensures data == old(data) + Encode(Boolean(false))
    {
      data := data + [0xc2];
    }
  }

  method PackStrFull(sbuf: SBuffer, s: Bytes)
    requires |s| < LIMIT_32
    modifies sbuf
    ensures sbuf.data == old(sbuf.data) + Encode(Str(s))
  {
    sbuf.PackStr(|s|);
    sbuf.PackStrBody(s);
  }

  // The buffer after the header of a map and its first `k` entries.
  ghost function Written(header: Bytes, es: seq<Entry>, k: nat): Bytes
    requires k <= |es| && Packable(Map(es))
  {
    header + EncodeEntries(es[..k])
  }

  lemma EntryWritten(header: Bytes, es: seq<Entry>, k: nat)
    requires k < |es| && Packable(Map(es))
    ensures Written(header, es, k) + Encode(es[k].key) + Encode(es[k].val) == Written(header, es, k + 1)
  {
    assert es[..k + 1] == es[..k] + [es[k]];
    EncodeEntriesSnoc(es[..k], es[k]);
    ConcatAssociates(Written(header, es, k), Encode(es[k].key), Encode(es[k].val));
    ConcatAssociates(header, EncodeEntries(es[..k]), EncodeEntry(es[k]));
  }

  lemma MapWritten(before: Bytes, es: seq<Entry>)
    requires Packable(Map(es))
    ensures Written(before + MapHeader(|es|), es, 0) == before + MapHeader(|es|)
    ensures Written(before + MapHeader(|es|), es, |es|) == before + Encode(Map(es))
  {
    assert es[..0] == [] && es[..|es|] == es;
    ConcatAssociates(before, MapHeader(|es|), EncodeEntries(es));
  }

  method TryPackUserInfo(sbuf: SBuffer, user: UserInfo) returns (ok: bool)
    modifies sbuf
    ensures ok && sbuf.data == old(sbuf.data) + PackUserInfo(user)
  {
    KeysDiffer();
    ghost var es := UserInfoEntries(user);
    ghost var header := sbuf.data + MapHeader(2);
    MapWritten(sbuf.data, es);
    sbuf.PackMap(2);
    sbuf.PackStr(|ID_KEY|);
    sbuf.PackStrBody(ID_KEY);
    sbuf.PackUInt32(user.id);
    assert sbuf.data == Written(header, es, 1) by {
      EntryWritten(header, es, 0);
      ConcatAssociates(header, StrHeader(|ID_KEY|), ID_KEY);
    }
    sbuf.PackStr(|IS_MASTER_KEY|);
    sbuf.PackStrBody(IS_MASTER_KEY);
    if user.isMaster {
      sbuf.PackTrue();
    } else {
      sbuf.PackFalse();
    }
    assert sbuf.data == Written(header, es, 2) by {
      EntryWritten(header, es, 1);
      ConcatAssociates(Written(header, es, 1), StrHeader(|IS_MASTER_KEY|), IS_MASTER_KEY);
    }
    ok := true;
  }

  method TryPackPlayerInput(sbuf: SBuffer, input: PlayerInput) returns (ok: bool)
    modifies sbuf
    ensures ok && sbuf.data == old(sbuf.data) + PackPlayerInput(input)
  {
    KeysDiffer();
    ghost var es := InputEntries(input);
    ghost var header := sbuf.data + MapHeader(3);
    MapWritten(sbuf.data, es);
    sbuf.PackMap(3);
    PackStrFull(sbuf, ID_KEY);
    sbuf.PackUInt32(input.id);
    assert sbuf.data == Written(header, es, 1) by { EntryWritten(header, es, 0); }
    PackStrFull(sbuf, X_KEY);
    sbuf.PackInt32(input.x);
    assert sbuf.data == Written(header, es, 2) by { EntryWritten(header, es, 1); }
    PackStrFull(sbuf, Y_KEY);
    sbuf.PackInt32(input.y);
    assert sbuf.data == Written(header, es, 3) by { EntryWritten(header, es, 2); }
    ok := true;
  }

  method TryPackPlayerPos(sbuf: SBuffer, pos: PlayerPos) returns (ok: bool)
    modifies sbuf
    ensures ok && sbuf.data == old(sbuf.data) + Encode(Map(PosEntries(pos)))
  {
    KeysDiffer();
    ghost var es := PosEntries(pos);
    ghost var header := sbuf.data + MapHeader(3);
    MapWritten(sbuf.data, es);
    sbuf.PackMap(3);
    PackStrFull(sbuf, IS_EXISTS_KEY);
    if pos.isExists {
      sbuf.PackTrue();
    } else {
      sbuf.PackFalse();
    }
    assert sbuf.data == Written(header, es, 1) by { EntryWritten(header, es, 0); }
    PackStrFull(sbuf, X_KEY);
    sbuf.PackInt32(pos.x);
    assert sbuf.data == Written(header, es, 2) by { EntryWritten(header, es, 1); }
    PackStrFull(sbuf, Y_KEY);
    sbuf.PackInt32(pos.y);
    assert sbuf.data == Written(header, es, 3) by { EntryWritten(header, es, 2); }
    ok := true;
  }

  // The entries "pos_1", "pos_2", ... of the positions in front of the first NULL pointer.
  ghost function PositionEntries(positions: seq<Option<PlayerPos>>): (es: seq<Entry>)
    ensures forall i :: 0 <= i < |es| ==> Packable(es[i].val) && es[i].key.Str?
    ensures |es| <= |positions|
    ensures |es| < |positions| <==> None in positions
  {
    if positions == [] then []
    else
      var n := |positions| - 1;
      var front := PositionEntries(positions[..n]);
      assert positions == positions[..n] + [positions[n]];
      if |front| == n && positions[n].Some? then front + [PositionEntry(n + 1, positions[n].value)] else front
  }

  function Power10(k: nat): nat {
    if k == 0 then 1 else 10 * Power10(k - 1)
  }

  // No key is cut off by the 32-byte key buffer.
  lemma {:induction false} DecimalLength(n: nat, k: nat)
    requires n < Power10(k) && k > 0
    ensures |Decimal(n)| <= k
  {
    if n >= 10 {
      DecimalLength(n / 10, k - 1);
    }
  }

  lemma PosKeyFits(n: nat)
    requires n <= LIMIT_64
    ensures |PosKey(n)| < 0x20
  {
    assert Power10(4) == 10000;
    assert Power10(8) == 10000 * 10000;
    assert Power10(12) == 10000 * 10000 * 10000;
    assert Power10(16) == 10000 * 10000 * 10000 * 10000;
    DecimalLength(n, 20);
  }

  // The first `n` positions are all there and their entries stand behind `start`.
  ghost predicate PositionsWritten(start: Bytes, positions: seq<Option<PlayerPos>>, n: nat, data: Bytes)
    requires n <= |positions|
  {
    var es := PositionEntries(positions[..n]);
    && |es| == n
    && (forall k :: 0 <= k < n ==> Packable(es[k].key))
    && data == start + EncodeEntries(es)
  }

  lemma PositionWritten(start: Bytes, positions: seq<Option<PlayerPos>>, n: nat, data: Bytes)
    requires n < |positions| < LIMIT_64 && PositionsWritten(start, positions, n, data) && positions[n].Some?
    ensures Packable(Str(PosKey(n + 1)))
    ensures PositionsWritten(start, positions, n + 1,
                             data + Encode(Str(PosKey(n + 1))) + Encode(Map(PosEntries(positions[n].value))))
  {
    var front, e := PositionEntries(positions[..n]), PositionEntry(n + 1, positions[n].value);
    assert positions[..n + 1][..n] == positions[..n];
    PosKeyFits(n + 1);
    EncodeEntriesSnoc(front, e);
    ConcatAssociates(data, Encode(e.key), Encode(e.val));
    ConcatAssociates(start, EncodeEntries(front), EncodeEntry(e));
  }

  // The entries in front of the first NULL pointer stand behind `start`.
  ghost predicate FrontWritten(start: Bytes, positions: seq<Option<PlayerPos>>, data: Bytes) {
    var es := PositionEntries(positions);
    (forall i :: 0 <= i < |es| ==> Packable(es[i].key)) && data == start + EncodeEntries(es)
  }

  lemma NothingWritten(start: Bytes, positions: seq<Option<PlayerPos>>)
    ensures PositionsWritten(start, positions, 0, start)
  {
    assert start + [] == start;
  }

  lemma AllWritten(start: Bytes, positions: seq<Option<PlayerPos>>, data: Bytes)
    requires PositionsWritten(start, positions, |positions|, data)
    ensures FrontWritten(start, positions, data) && None !in positions
  {
    assert positions[..|positions|] == positions;
  }

  lemma {:induction false} StopsAtNull(positions: seq<Option<PlayerPos>>, n: nat)
    requires n <= |positions| && |PositionEntries(positions[..n])| < n
    ensures PositionEntries(positions) == PositionEntries(positions[..n]) && None in positions
  {
    if n < |positions| {
      assert positions[..|positions| - 1][..n] == positions[..n];
      StopsAtNull(positions[..|positions| - 1], n);
    } else {
      assert positions[..n] == positions;
    }
  }

  lemma WrittenUpToNull(start: Bytes, positions: seq<Option<PlayerPos>>, n: nat, data: Bytes)
    requires n < |positions| && PositionsWritten(start, positions, n, data) && positions[n].None?
    ensures FrontWritten(start, positions, data) && None in positions
  {
    assert positions[..n + 1][..n] == positions[..n];
    assert PositionEntries(positions[..n + 1]) == PositionEntries(positions[..n]);
    StopsAtNull(positions, n + 1);
  }

  method TryPackPlayerPosCount(sbuf: SBuffer, positions: seq<Option<PlayerPos>>) returns (ok: bool)
    requires |positions| < LIMIT_64
    modifies sbuf
    ensures ok <==> None !in positions
    ensures FrontWritten(old(sbuf.data), positions, sbuf.data)
  {
    ghost var start := sbuf.data;
    NothingWritten(start, positions);
    for i := 0 to |positions|
      invariant PositionsWritten(start, positions, i, sbuf.data)
    {
      if positions[i].None? {
        WrittenUpToNull(start, positions, i, sbuf.data);
        return false;
      }
      PositionWritten(start, positions, i, sbuf.data);
      PackStrFull(sbuf, PosKey(i + 1));
      var packed := TryPackPlayerPos(sbuf, positions[i].value);
    }
    AllWritten(start, positions, sbuf.data);
    return true;
  }

  lemma StateEntriesSplit(g: GameState)
    ensures StateEntries(g)
         == [Entry(Str(TICK_KEY), PosInt(g.tick))] + PositionEntries([Some(g.pos1), Some(g.pos2), Some(g.pos3), Some(g.pos4)])
  {
    var ps := [Some(g.pos1), Some(g.pos2), Some(g.pos3), Some(g.pos4)];
    assert PositionEntries(ps[..0]) == [];
    assert ps[..1][..0] == ps[..0] && ps[..2][..1] == ps[..1] && ps[..3][..2] == ps[..2] && ps == ps[..4];
    assert PositionEntries(ps[..1]) == [PositionEntry(1, g.pos1)];
    assert PositionEntries(ps[..2]) == [PositionEntry(1, g.pos1), PositionEntry(2, g.pos2)];
    assert PositionEntries(ps[..3]) == [PositionEntry(1, g.pos1), PositionEntry(2, g.pos2), PositionEntry(3, g.pos3)];
  }

  lemma StateWritten(header: Bytes, g: GameState)
    ensures var es, ps := StateEntries(g), PositionEntries([Some(g.pos1), Some(g.pos2), Some(g.pos3), Some(g.pos4)]);
            && (forall i :: 0 <= i < |ps| ==> Packable(ps[i].key))
            && Written(header, es, 1) + EncodeEntries(ps) == Written(header, es, 5)
            && |es| == 5
  {
    var es, ps := StateEntries(g), PositionEntries([Some(g.pos1), Some(g.pos2), Some(g.pos3), Some(g.pos4)]);
    StateEntriesSplit(g);
    assert es[1..] == ps && es[..1] + ps == es && es[..5] == es;
    assert Packable(Map(es));
    EncodeEntriesAppend(es[..1], ps);
    ConcatAssociates(header, EncodeEntries(es[..1]), EncodeEntries(ps));
  }

  method TryPackGameState(sbuf: SBuffer, g: GameState) returns (ok: bool)
    modifies sbuf
    ensures ok && sbuf.data == old(sbuf.data) + PackGameState(g)
  {
    KeysDiffer();
    ghost var es := StateEntries(g);
    ghost var header := sbuf.data + MapHeader(5);
    MapWritten(sbuf.data, es);
    sbuf.PackMap(5);
    PackStrFull(sbuf, TICK_KEY);
    sbuf.PackUInt32(g.tick);
    assert sbuf.data == Written(header, es, 1) by { EntryWritten(header, es, 0); }
    StateWritten(header, g);
    ok := TryPackPlayerPosCount(sbuf, [Some(g.pos1), Some(g.pos2), Some(g.pos3), Some(g.pos4)]);
  }

  // ---------------------------------------------------------------- unpackers

  lemma ScanStep<T>(es: seq<Entry>, i: nat, field: Entry -> Reading<T>)
    requires i < |es|
    ensures Scan(es[..i + 1], field) == Update(Scan(es[..i], field), field(es[i]))
  {
    assert es[..i + 1][..i] == es[..i];
  }

  // What the flag and the local structure know about a field after some entries.
  ghost predicate Tracks<T>(entries: seq<Entry>, field: Entry -> Reading<T>, parsed: bool, value: T) {
    match Scan(entries, field)
    case Missing => !parsed
    case Found(v) => parsed && value == v
    case Failed => false
  }

  method TryUnpackUserInfo(data: Bytes, out: Ref<UserInfo>) returns (ok: bool)
    modifies out
    ensures ok <==> UnpackUserInfo(data).Some?
    ensures ok ==> UnpackUserInfo(data) == Some(out.value)
    ensures !ok ==> out.value == old(out.value)
  {
    var result := Read(data);
    if !result.Success? {
      return false;
    }
    var root := result.value;
    if !root.Map? {
      return false;
    }
    var unpackRes := UserInfo(0, false);
    var isIdParsed, isMasterParsed := false, false;
    KeysDiffer();
    for i := 0 to |root.entries|
      invariant out.value == old(out.value)
      invariant Tracks(root.entries[..i], IdField, isIdParsed, unpackRes.id)
      invariant Tracks(root.entries[..i], MasterField, isMasterParsed, unpackRes.isMaster)
    {
      var k, v := root.entries[i].key, root.entries[i].val;
      ScanStep(root.entries, i, IdField);
      ScanStep(root.entries, i, MasterField);
      if !k.Str? {
        continue;
      }
      if k.text == ID_KEY {
        if v.PosInt? {
          unpackRes := unpackRes.(id := ToUInt32(v.magnitude));
          isIdParsed := true;
        }
      } else if k.text == IS_MASTER_KEY {
        if v.Boolean? {
          unpackRes := unpackRes.(isMaster := v.flag);
          isMasterParsed := true;
        }
      }
    }
    assert root.entries[..|root.entries|] == root.entries;
    if !isIdParsed || !isMasterParsed {
      return false;
    }
    out.value := unpackRes;
    return true;
  }

  // The untagged read (int32_t)v.via.i64: any value at all when the object is no integer.
  method UntaggedLow32(v: Object) returns (x: Int32)
    ensures IsInteger(v) ==> x == Low32(v)
  {
    if IsInteger(v) {
      x := Low32(v);
    } else {
      x := *;
    }
  }

  method TryUnpackPlayerInput(data: Bytes, out: Ref<PlayerInput>) returns (ok: bool)
    modifies out
    ensures BytesDefined(data, InputDefined) ==>
              && (ok <==> UnpackPlayerInput(data).Some?)
              && (ok ==> UnpackPlayerInput(data) == Some(out.value))
    ensures !ok ==> out.value == old(out.value)
  {
    var result := Read(data);
    if !result.Success? {
      return false;
    }
    var root := result.value;
    if !root.Map? {
      return false;
    }
    var unpackRes := PlayerInput(0, 0, 0);
    var isIdParsed, isXParsed, isYParsed := false, false, false;
    KeysDiffer();
    for i := 0 to |root.entries|
      invariant out.value == old(out.value)
      invariant Tracks(root.entries[..i], IdField, isIdParsed, unpackRes.id)
      invariant InputDefined(root) ==> Tracks(root.entries[..i], InputXField, isXParsed, unpackRes.x)
      invariant InputDefined(root) ==> Tracks(root.entries[..i], InputYField, isYParsed, unpackRes.y)
    {
      var k, v := root.entries[i].key, root.entries[i].val;
      ScanStep(root.entries, i, IdField);
      ScanStep(root.entries, i, InputXField);
      ScanStep(root.entries, i, InputYField);
      if !k.Str? {
        continue;
      }
      if k.text == ID_KEY {
        if v.PosInt? {
          unpackRes := unpackRes.(id := ToUInt32(v.magnitude));
          isIdParsed := true;
        }
      }
      if |k.text| == |X_KEY| {
        if k.text == X_KEY {
          var x := UntaggedLow32(v);
          unpackRes := unpackRes.(x := x);
          isXParsed := true;
        }
        if k.text == Y_KEY {
          var y := UntaggedLow32(v);
          unpackRes := unpackRes.(y := y);
          isYParsed := true;
        }
      }
    }
    assert root.entries[..|root.entries|] == root.entries;
    if !isIdParsed || !isXParsed || !isYParsed {
      return false;
    }
    out.value := unpackRes;
    return true;
  }

  // memcmp of a position key with a name. The key's tag is not checked and a key shorter than
  // the name is read past its end: the outcome is then anything, unless an earlier byte differs.
  method ComparePrefix(key: Object, name: Bytes) returns (equal: bool)
    ensures key.Str? && !(key.text < name) ==> equal == StartsWith(key, name)
  {
    if key.Str? && !(key.text < name) {
      equal := name <= key.text;
    } else {
      equal := *;
    }
  }

  // Flag and value follow what an entry says about the field.
  predicate Follows<T(==)>(reading: Reading<T>, was: bool, before: T, parsed: bool, value: T) {
    match reading
    case Skip => parsed == was && value == before
    case Value(v) => parsed && value == v
    case Bad => false
  }

  lemma TracksNext<T>(es: seq<Entry>, i: nat, field: Entry -> Reading<T>, was: bool, before: T, parsed: bool, value: T)
    requires i < |es| && Tracks(es[..i], field, was, before) && Follows(field(es[i]), was, before, parsed, value)
    ensures Tracks(es[..i + 1], field, parsed, value)
  {
    ScanStep(es, i, field);
  }

  // The three flags of a position.
  datatype PosFlags = PosFlags(isExists: bool, x: bool, y: bool)

  ghost predicate PosTracks(obj: Object, k: nat, flags: PosFlags, pos: PlayerPos)
    requires obj.Map? && k <= |obj.entries|
  {
    && Tracks(obj.entries[..k], ExistsField, flags.isExists, pos.isExists)
    && Tracks(obj.entries[..k], PosXField, flags.x, pos.x)
    && Tracks(obj.entries[..k], PosYField, flags.y, pos.y)
  }

  ghost predicate PosFollows(e: Entry, was: PosFlags, before: PlayerPos, flags: PosFlags, pos: PlayerPos) {
    && Follows(ExistsField(e), was.isExists, before.isExists, flags.isExists, pos.isExists)
    && Follows(PosXField(e), was.x, before.x, flags.x, pos.x)
    && Follows(PosYField(e), was.y, before.y, flags.y, pos.y)
  }

  lemma PosTracksNext(obj: Object, i: nat, was: PosFlags, before: PlayerPos, flags: PosFlags, pos: PlayerPos)
    requires obj.Map? && i < |obj.entries| && PosTracks(obj, i, was, before)
    requires PosFollows(obj.entries[i], was, before, flags, pos)
    ensures PosTracks(obj, i + 1, flags, pos)
  {
    TracksNext(obj.entries, i, ExistsField, was.isExists, before.isExists, flags.isExists, pos.isExists);
    TracksNext(obj.entries, i, PosXField, was.x, before.x, flags.x, pos.x);
    TracksNext(obj.entries, i, PosYField, was.y, before.y, flags.y, pos.y);
  }

  lemma PosTracked(obj: Object, flags: PosFlags, pos: PlayerPos)
    requires obj.Map? && PosTracks(obj, |obj.entries|, flags, pos)
    ensures PosOf(obj) == if flags == PosFlags(true, true, true) then Some(pos) else None
  {
    assert obj.entries[..|obj.entries|] == obj.entries;
  }

  // Where the position is defined, each key is a string no name goes beyond.
  lemma KeyIsReadable(obj: Object, i: nat)
    requires obj.Map? && PosDefined(obj) && i < |obj.entries|
    ensures var key := obj.entries[i].key;
            key.Str? && !(key.text < IS_EXISTS_KEY) && !(key.text < X_KEY) && !(key.text < Y_KEY)
  {
    KeysDiffer();
    assert [] < IS_EXISTS_KEY;
  }

  // The body of the loop below.
  method TryUnpackPosEntry(obj: Object, i: nat, out: Ref<PlayerPos>, was: PosFlags) returns (flags: PosFlags)
    requires obj.Map? && i < |obj.entries|
    modifies out
    ensures PosDefined(obj) ==> PosFollows(obj.entries[i], was, old(out.value), flags, out.value)
  {
    var key, val := obj.entries[i].key, obj.entries[i].val;
    if PosDefined(obj) {
      KeyIsReadable(obj, i);
    }
    flags := was;
    var isExistsKey := ComparePrefix(key, IS_EXISTS_KEY);
    if isExistsKey {
      if val.Boolean? {
        out.value := out.value.(isExists := val.flag);
        flags := flags.(isExists := true);
      }
    }
    var isXKey := ComparePrefix(key, X_KEY);
    if isXKey {
      var x := UntaggedLow32(val);
      out.value := out.value.(x := x);
      flags := flags.(x := true);
    }
    var isYKey := ComparePrefix(key, Y_KEY);
    if isYKey {
      var y := UntaggedLow32(val);
      out.value := out.value.(y := y);
      flags := flags.(y := true);
    }
  }

  method TryUnpackPlayerPos(obj: Object, out: Ref<PlayerPos>) returns (ok: bool)
    modifies out
    ensures PosDefined(obj) ==>
              && (ok <==> PosOf(obj).Some?)
              && (ok ==> PosOf(obj) == Some(out.value))
  {
    if !obj.Map? {
      return false;
    }
    var flags := PosFlags(false, false, false);
    for i := 0 to |obj.entries|
      invariant PosDefined(obj) ==> PosTracks(obj, i, flags, out.value)
    {
      ghost var was, before := flags, out.value;
      flags := TryUnpackPosEntry(obj, i, out, flags);
      if PosDefined(obj) {
        PosTracksNext(obj, i, was, before, flags, out.value);
      }
    }
    if PosDefined(obj) {
      PosTracked(obj, flags, out.value);
    }
    return flags.isExists && flags.x && flags.y;
  }

  lemma FailedMeansRejected(root: Object, i: nat, n: nat)
    requires root.Map? && i < |root.entries| && 1 <= n <= 4
    requires Scan(root.entries[..i + 1], PositionField(n)).Failed?
    ensures GameStateOf(root) == None
  {
    FailedStays(root.entries, i + 1, PositionField(n));
    assert n == 1 || n == 2 || n == 3 || n == 4;
  }

  lemma PositionKeys(n: nat)
    requires 1 <= n <= 4
    ensures IsPositionKey(Str(PosKey(n)))
  {
    assert n == 1 || n == 2 || n == 3 || n == 4;
  }

  // The branch for one position key inside the loop below.
  method TryUnpackPositionEntry(root: Object, i: nat, n: nat, pos: Ref<PlayerPos>, wasParsed: bool)
    returns (ok: bool, isParsed: bool)
    requires root.Map? && i < |root.entries| && 1 <= n <= 4
    requires StateDefined(root) ==> Tracks(root.entries[..i], PositionField(n), wasParsed, pos.value)
    modifies pos
    ensures StateDefined(root) && ok ==> Tracks(root.entries[..i + 1], PositionField(n), isParsed, pos.value)
    ensures StateDefined(root) && !ok ==> GameStateOf(root) == None
  {
    var key, val := root.entries[i].key, root.entries[i].val;
    ScanStep(root.entries, i, PositionField(n));
    if key.Str? && key.text == PosKey(n) {
      PositionKeys(n);
      ok := TryUnpackPlayerPos(val, pos);
      if !ok {
        if StateDefined(root) {
          FailedMeansRejected(root, i, n);
        }
        return false, wasParsed;
      }
      return true, true;
    }
    return true, wasParsed;
  }

  // What the flags and the local structures know about the positions after some entries.
  ghost predicate PositionsTrack(root: Object, k: nat, is1: bool, is2: bool, is3: bool, is4: bool,
                                 pos1: PlayerPos, pos2: PlayerPos, pos3: PlayerPos, pos4: PlayerPos)
    requires root.Map? && k <= |root.entries|
  {
    StateDefined(root) ==>
      && Tracks(root.entries[..k], PositionField(1), is1, pos1)
      && Tracks(root.entries[..k], PositionField(2), is2, pos2)
      && Tracks(root.entries[..k], PositionField(3), is3, pos3)
      && Tracks(root.entries[..k], PositionField(4), is4, pos4)
  }

  // The branches for the four position keys.
  method TryUnpackPositions(root: Object, i: nat, pos1: Ref<PlayerPos>, pos2: Ref<PlayerPos>, pos3: Ref<PlayerPos>,
                            pos4: Ref<PlayerPos>, was1: bool, was2: bool, was3: bool, was4: bool)
    returns (ok: bool, is1: bool, is2: bool, is3: bool, is4: bool)
    requires root.Map? && i < |root.entries|
    requires pos1 != pos2 && pos1 != pos3 && pos1 != pos4 && pos2 != pos3 && pos2 != pos4 && pos3 != pos4
    requires PositionsTrack(root, i, was1, was2, was3, was4, pos1.value, pos2.value, pos3.value, pos4.value)
    modifies pos1, pos2, pos3, pos4
    ensures ok ==> PositionsTrack(root, i + 1, is1, is2, is3, is4, pos1.value, pos2.value, pos3.value, pos4.value)
    ensures StateDefined(root) && !ok ==> GameStateOf(root) == None
  {
    is1, is2, is3, is4 := was1, was2, was3, was4;
    ok, is1 := TryUnpackPositionEntry(root, i, 1, pos1, was1);
    if !ok { return; }
    ok, is2 := TryUnpackPositionEntry(root, i, 2, pos2, was2);
    if !ok { return; }
    ok, is3 := TryUnpackPositionEntry(root, i, 3, pos3, was3);
    if !ok { return; }
    ok, is4 := TryUnpackPositionEntry(root, i, 4, pos4, was4);
  }

  // All flags set after the last entry: the local structures are what the map says.
  lemma StateTracked(root: Object, isTick: bool, is1: bool, is2: bool, is3: bool, is4: bool, g: GameState)
    requires root.Map? && StateDefined(root) && Tracks(root.entries, TickField, isTick, g.tick)
    requires PositionsTrack(root, |root.entries|, is1, is2, is3, is4, g.pos1, g.pos2, g.pos3, g.pos4)
    ensures GameStateOf(root) == if isTick && is1 && is2 && is3 && is4 then Some(g) else None
  {
    assert root.entries[..|root.entries|] == root.entries;
  }

  method TryUnpackGameState(data: Bytes, out: Ref<GameState>) returns (ok: bool)
    modifies out
    ensures BytesDefined(data, StateDefined) ==>
              && (ok <==> UnpackGameState(data).Some?)
              && (ok ==> UnpackGameState(data) == Some(out.value))
    ensures !ok ==> out.value == old(out.value)
  {
    var result := Read(data);
    if !result.Success? {
      return false;
    }
    var root := result.value;
    if !root.Map? {
      return false;
    }
    var tick: UInt32 := 0;
    var pos1 := new Ref(PlayerPos(false, 0, 0));
    var pos2 := new Ref(PlayerPos(false, 0, 0));
    var pos3 := new Ref(PlayerPos(false, 0, 0));
    var pos4 := new Ref(PlayerPos(false, 0, 0));
    var isTickParsed, is1, is2, is3, is4 := false, false, false, false, false;
    for i := 0 to |root.entries|
      invariant out.value == old(out.value)
      invariant Tracks(root.entries[..i], TickField, isTickParsed, tick)
      invariant PositionsTrack(root, i, is1, is2, is3, is4, pos1.value, pos2.value, pos3.value, pos4.value)
    {
      var k, v := root.entries[i].key, root.entries[i].val;
      ScanStep(root.entries, i, TickField);
      if k.Str? && k.text == TICK_KEY && v.PosInt? {
        tick := ToUInt32(v.magnitude);
        isTickParsed := true;
      }
      ok, is1, is2, is3, is4 := TryUnpackPositions(root, i, pos1, pos2, pos3, pos4, is1, is2, is3, is4);
      if !ok { return; }
    }
    assert root.entries[..|root.entries|] == root.entries;
    var unpackRes := GameState(tick, pos1.value, pos2.value, pos3.value, pos4.value);
    if StateDefined(root) {
      StateTracked(root, isTickParsed, is1, is2, is3, is4, unpackRes);
    }
    if !isTickParsed || !is1 || !is2 || !is3 || !is4 {
      return false;
    }
    out.value := unpackRes;
    return true;
  }

  // ---------------------------------------------------------------- frames

  // The packet both senders build; a missing buffer means no payload.
  method FramePacket(kind: MessageType, sbuf: SBuffer?) returns (packet: Option<Bytes>)
    ensures packet == Frame(kind, if sbuf == null then [] else sbuf.data)
  {
    if !IsSuitable(kind) {
      return None;
    }
    var size := if sbuf != null then 1 + |sbuf.data| else 1;
    var data := new Byte[size](_ => 0);
    data[0] := TypeCode(kind);
    if sbuf != null {
      forall i | 0 <= i < |sbuf.data| {
        data[1 + i] := sbuf.data[i];
      }
    }
    assert data[..] == [TypeCode(kind)] + if sbuf == null then [] else sbuf.data;
    return Some(data[..]);
  }

  // The payload stays NULL when the packet has nothing behind its type byte.
  method TryParseMessageByType(packet: Bytes) returns (ok: bool, kind: MessageType, payload: Option<Bytes>)
    ensures ok <==> ParseMessage(packet).Some?
    ensures ok ==> ParseMessage(packet) == Some(Message(kind, if payload.Some? then payload.value else []))
    ensures payload.Some? ==> payload.value != []
  {
    kind, payload := NoType, None;
    if |packet| < 1 {
      return false, kind, payload;
    }
    kind := TypeOf(packet[0]);
    ok := IsSuitable(kind);
    if |packet| > 1 {
      payload := Some(packet[1..]);
    }
  }
}
