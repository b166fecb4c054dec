/** What the packed messages promise: round trips, prefix freedom, sizes, and tolerant decoding. */
module ProtocolTheorems {
  import opened Base
  import opened MsgPack
  import opened Fields
  import opened Protocol

  // ---------------------------------------------------------------- decoding the packed objects

  lemma WrapIsIdentity(i: int)
    ensures -0x8000_0000 <= i < 0x8000_0000 ==> Low32(IntObject(i)) == i
    ensures 0 <= i < 0x1_0000_0000 ==> ToUInt32(i) == i
  {
  }

  lemma UserInfoDecodes(u: UserInfo)
    ensures UserInfoOf(Map(UserInfoEntries(u))) == Some(u)
  {
    KeysDiffer();
    var es := UserInfoEntries(u);
    ScanOfOne(es, 0, IdField);
    ScanOfOne(es, 1, MasterField);
  }

  lemma PlayerInputDecodes(p: PlayerInput)
    ensures PlayerInputOf(Map(InputEntries(p))) == Some(p)
    ensures InputDefined(Map(InputEntries(p)))
  {
    KeysDiffer();
    WrapIsIdentity(p.x);
    WrapIsIdentity(p.y);
    var es := InputEntries(p);
    ScanOfOne(es, 0, IdField);
    ScanOfOne(es, 1, InputXField);
    ScanOfOne(es, 2, InputYField);
  }

  lemma PosDecodes(p: PlayerPos)
    ensures PosOf(Map(PosEntries(p))) == Some(p)
    ensures PosDefined(Map(PosEntries(p)))
  {
    KeysDiffer();
    WrapIsIdentity(p.x);
    WrapIsIdentity(p.y);
    var es := PosEntries(p);
    assert X_KEY <= X_KEY && Y_KEY <= Y_KEY && IS_EXISTS_KEY <= IS_EXISTS_KEY;
    ScanOfOne(es, 0, ExistsField);
    ScanOfOne(es, 1, PosXField);
    ScanOfOne(es, 2, PosYField);
  }

  function Position(g: GameState, n: nat): PlayerPos
    requires 1 <= n <= 4
  {
    if n == 1 then g.pos1 else if n == 2 then g.pos2 else if n == 3 then g.pos3 else g.pos4
  }

  // The entries of a game state with these objects for its positions.
  function LaidOut(g: GameState, positions: seq<Object>): (es: seq<Entry>)
    requires |positions| == 4
  {
    [Entry(Str(TICK_KEY), PosInt(g.tick)), Entry(Str(PosKey(1)), positions[0]), Entry(Str(PosKey(2)), positions[1]),
     Entry(Str(PosKey(3)), positions[2]), Entry(Str(PosKey(4)), positions[3])]
  }

  lemma OnlyOnePositionKey(g: GameState, positions: seq<Object>, n: nat)
    requires |positions| == 4 && 1 <= n <= 4
    ensures forall j :: 0 <= j < 5 && j != n ==> PositionField(n)(LaidOut(g, positions)[j]).Skip?
    ensures LaidOut(g, positions)[n] == Entry(Str(PosKey(n)), positions[n - 1])
  {
    KeysDiffer();
    var es := LaidOut(g, positions);
    forall j | 0 <= j < 5 && j != n ensures PositionField(n)(es[j]).Skip? {
      assert es[j].key != Str(PosKey(n));
    }
  }

  lemma PositionFound(g: GameState, positions: seq<Object>, n: nat)
    requires |positions| == 4 && 1 <= n <= 4 && PosOf(positions[n - 1]) == Some(Position(g, n))
    ensures Scan(LaidOut(g, positions), PositionField(n)) == Found(Position(g, n))
  {
    OnlyOnePositionKey(g, positions, n);
    ScanOfOne(LaidOut(g, positions), n, PositionField(n));
  }

  lemma TickFound(g: GameState, positions: seq<Object>)
    requires |positions| == 4
    ensures Scan(LaidOut(g, positions), TickField) == Found(g.tick)
  {
    KeysDiffer();
    ScanOfOne(LaidOut(g, positions), 0, TickField);
  }

  lemma LaidOutDecodes(g: GameState, positions: seq<Object>)
    requires |positions| == 4 && forall n :: 1 <= n <= 4 ==> PosOf(positions[n - 1]) == Some(Position(g, n))
    ensures GameStateOf(Map(LaidOut(g, positions))) == Some(g)
  {
    TickFound(g, positions);
    PositionFound(g, positions, 1);
    PositionFound(g, positions, 2);
    PositionFound(g, positions, 3);
    PositionFound(g, positions, 4);
  }

  lemma PackedStateDefined(g: GameState)
    ensures StateDefined(Map(StateEntries(g)))
  {
    KeysDiffer();
    var es := StateEntries(g);
    forall i | 0 <= i < |es| && IsPositionKey(es[i].key) ensures PosDefined(es[i].val) {
      if i > 0 {
        assert es[i] == PositionEntry(i, Position(g, i));
        PosDecodes(Position(g, i));
      }
    }
  }

  lemma GameStateDecodes(g: GameState)
    ensures GameStateOf(Map(StateEntries(g))) == Some(g)
    ensures StateDefined(Map(StateEntries(g)))
  {
    var packed := [Map(PosEntries(g.pos1)), Map(PosEntries(g.pos2)), Map(PosEntries(g.pos3)), Map(PosEntries(g.pos4))];
    forall n | 1 <= n <= 4 ensures PosOf(packed[n - 1]) == Some(Position(g, n)) {
      PosDecodes(Position(g, n));
    }
    assert StateEntries(g) == LaidOut(g, packed);
    LaidOutDecodes(g, packed);
    PackedStateDefined(g);
  }

  // ---------------------------------------------------------------- round trips in bytes

  lemma UserInfoRoundTrip(u: UserInfo, tail: Bytes)
    ensures UnpackUserInfo(PackUserInfo(u) + tail) == Some(u)
  {
    ReadEncoded(Map(UserInfoEntries(u)), tail);
    UserInfoDecodes(u);
  }

  lemma PlayerInputRoundTrip(p: PlayerInput, tail: Bytes)
    ensures UnpackPlayerInput(PackPlayerInput(p) + tail) == Some(p)
    ensures BytesDefined(PackPlayerInput(p) + tail, InputDefined)
  {
    ReadEncoded(Map(InputEntries(p)), tail);
    PlayerInputDecodes(p);
  }

  lemma GameStateRoundTrip(g: GameState, tail: Bytes)
    ensures UnpackGameState(PackGameState(g) + tail) == Some(g)
    ensures BytesDefined(PackGameState(g) + tail, StateDefined)
  {
    ReadEncoded(Map(StateEntries(g)), tail);
    GameStateDecodes(g);
  }

  // Cut anywhere, a packed message is incomplete, whatever the decoder.
  lemma {:induction false} PackedPrefixIncomplete<T>(o: Object, k: nat, decode: Object -> Option<T>)
    requires Packable(o) && k < |Encode(o)|
    ensures Read(Encode(o)[..k]) == Continue && Unpack(Encode(o)[..k], decode) == None
  {
    ReadEncoded(o, []);
    assert Encode(o) + [] == Encode(o);
    StrictPrefixContinues(Encode(o), k);
  }

  lemma MessagePrefixesRejected(u: UserInfo, p: PlayerInput, g: GameState, k: nat)
    ensures k < |PackUserInfo(u)| ==>
              Read(PackUserInfo(u)[..k]) == Continue && UnpackUserInfo(PackUserInfo(u)[..k]) == None
    ensures k < |PackPlayerInput(p)| ==>
              Read(PackPlayerInput(p)[..k]) == Continue && UnpackPlayerInput(PackPlayerInput(p)[..k]) == None
    ensures k < |PackGameState(g)| ==>
              Read(PackGameState(g)[..k]) == Continue && UnpackGameState(PackGameState(g)[..k]) == None
  {
    if k < |PackUserInfo(u)| { PackedPrefixIncomplete(Map(UserInfoEntries(u)), k, UserInfoOf); }
    if k < |PackPlayerInput(p)| { PackedPrefixIncomplete(Map(InputEntries(p)), k, PlayerInputOf); }
    if k < |PackGameState(g)| { PackedPrefixIncomplete(Map(StateEntries(g)), k, GameStateOf); }
  }

  // ---------------------------------------------------------------- the relay

  // What the server broadcasts for a received game state: unpacked and packed again.
  function Repack(payload: Bytes): Option<Bytes> {
    match UnpackGameState(payload)
    case Some(g) => Some(PackGameState(g))
    case None => None
  }

  // Repacking is the byte identity on canonical packings, and on every accepted payload an
  // idempotent normaliser: what is sent on decodes to what the server decoded.
  lemma {:induction false} RelayPreservesMeaning(payload: Bytes, g: GameState)
    ensures Repack(PackGameState(g)) == Some(PackGameState(g))
    ensures Repack(payload).Some? <==> UnpackGameState(payload).Some?
    ensures Repack(payload).Some? ==>
              && UnpackGameState(Repack(payload).value) == UnpackGameState(payload)
              && Repack(Repack(payload).value) == Repack(payload)
              && BytesDefined(Repack(payload).value, StateDefined)
  {
    GameStateRoundTrip(g, []);
    assert PackGameState(g) + [] == PackGameState(g);
    if Repack(payload).Some? {
      var h := UnpackGameState(payload).value;
      GameStateRoundTrip(h, []);
      assert PackGameState(h) + [] == PackGameState(h);
    }
  }

  // Canonical packings are exactly the fixed points of the relay.
  lemma RelayFixedPoints(payload: Bytes)
    ensures Repack(payload) == Some(payload) <==> exists g :: payload == PackGameState(g)
  {
    if Repack(payload) == Some(payload) {
      assert payload == PackGameState(UnpackGameState(payload).value);
    }
    if g :| payload == PackGameState(g) {
      RelayPreservesMeaning(payload, g);
    }
  }

  // ---------------------------------------------------------------- type separation

  lemma NeverAcceptedBy<T>(es: seq<Entry>, tail: Bytes, decode: Object -> Option<T>)
    requires Packable(Map(es)) && decode(Map(es)) == None
    ensures Unpack(Encode(Map(es)) + tail, decode) == None
  {
    ReadEncoded(Map(es), tail);
  }

  lemma UserInfoIsSeparate(u: UserInfo, tail: Bytes)
    ensures UnpackPlayerInput(PackUserInfo(u) + tail) == None && UnpackGameState(PackUserInfo(u) + tail) == None
  {
    KeysDiffer();
    var es := UserInfoEntries(u);
    ScanOfSkips(es, InputXField);
    ScanOfSkips(es, TickField);
    NeverAcceptedBy(es, tail, PlayerInputOf);
    NeverAcceptedBy(es, tail, GameStateOf);
  }

  lemma PlayerInputIsSeparate(p: PlayerInput, tail: Bytes)
    ensures UnpackUserInfo(PackPlayerInput(p) + tail) == None && UnpackGameState(PackPlayerInput(p) + tail) == None
  {
    KeysDiffer();
    var es := InputEntries(p);
    ScanOfSkips(es, MasterField);
    ScanOfSkips(es, TickField);
    NeverAcceptedBy(es, tail, UserInfoOf);
    NeverAcceptedBy(es, tail, GameStateOf);
  }

  lemma GameStateIsSeparate(g: GameState, tail: Bytes)
    ensures UnpackUserInfo(PackGameState(g) + tail) == None && UnpackPlayerInput(PackGameState(g) + tail) == None
  {
    KeysDiffer();
    var es := StateEntries(g);
    ScanOfSkips(es, MasterField);
    ScanOfSkips(es, IdField);
    NeverAcceptedBy(es, tail, UserInfoOf);
    NeverAcceptedBy(es, tail, PlayerInputOf);
  }

  // No packed structure is accepted by the unpacker of another.
  lemma TypesAreSeparate(u: UserInfo, p: PlayerInput, g: GameState, tail: Bytes)
    ensures UnpackPlayerInput(PackUserInfo(u) + tail) == None && UnpackGameState(PackUserInfo(u) + tail) == None
    ensures UnpackUserInfo(PackPlayerInput(p) + tail) == None && UnpackGameState(PackPlayerInput(p) + tail) == None
    ensures UnpackUserInfo(PackGameState(g) + tail) == None && UnpackPlayerInput(PackGameState(g) + tail) == None
  {
    UserInfoIsSeparate(u, tail);
    PlayerInputIsSeparate(p, tail);
    GameStateIsSeparate(g, tail);
  }

  // ---------------------------------------------------------------- sizes

  lemma {:induction false} EntrySize(key: Bytes, val: Object)
    requires |key| < 0x20 && Packable(val)
    ensures |EncodeEntry(Entry(Str(key), val))| == 1 + |key| + |Encode(val)|
  {
  }

  lemma NumberSize(i: int)
    requires -0x8000_0000 <= i < 0x1_0000_0000
    ensures Packable(IntObject(i)) && 1 <= |Encode(IntObject(i))| <= 5
  {
  }

  lemma {:induction false} EncodeEntriesAppend(a: seq<Entry>, b: seq<Entry>)
    requires forall i :: 0 <= i < |a + b| ==> Packable((a + b)[i].key) && Packable((a + b)[i].val)
    requires forall i :: 0 <= i < |a| ==> Packable(a[i].key) && Packable(a[i].val)
    requires forall i :: 0 <= i < |b| ==> Packable(b[i].key) && Packable(b[i].val)
    ensures EncodeEntries(a + b) == EncodeEntries(a) + EncodeEntries(b)
  {
    if a == [] {
      assert a + b == b;
    } else {
      assert (a + b)[0] == a[0] && (a + b)[1..] == a[1..] + b;
      EncodeEntriesAppend(a[1..], b);
      ConcatAssociates(EncodeEntry(a[0]), EncodeEntries(a[1..]), EncodeEntries(b));
    }
  }

  lemma {:induction false} EncodeEntriesSnoc(a: seq<Entry>, e: Entry)
    requires forall i :: 0 <= i < |a| ==> Packable(a[i].key) && Packable(a[i].val)
    requires Packable(e.key) && Packable(e.val)
    ensures forall i :: 0 <= i < |a + [e]| ==> Packable((a + [e])[i].key) && Packable((a + [e])[i].val)
    ensures EncodeEntries(a + [e]) == EncodeEntries(a) + EncodeEntry(e)
  {
    EncodeEntriesAppend(a, [e]);
    assert [e][1..] == [];
    assert EncodeEntries([e]) == EncodeEntry(e) + [];
  }

  lemma PosSize(p: PlayerPos)
    ensures 18 <= |Encode(Map(PosEntries(p)))| <= 26
  {
    KeysDiffer();
    NumberSize(p.x);
    NumberSize(p.y);
    var es := PosEntries(p);
    EntrySize(IS_EXISTS_KEY, Boolean(p.isExists));
    EntrySize(X_KEY, IntObject(p.x));
    EntrySize(Y_KEY, IntObject(p.y));
    SizeStep(es, 0);
    SizeStep(es, 1);
    SizeStep(es, 2);
  }

  lemma SizeStep(es: seq<Entry>, i: nat)
    requires i < |es| && forall j :: 0 <= j < |es| ==> Packable(es[j].key) && Packable(es[j].val)
    ensures es[0..] == es
    ensures |EncodeEntries(es[i..])| == |EncodeEntry(es[i])| + |EncodeEntries(es[i + 1..])|
  {
    assert es[i..][1..] == es[i + 1..];
  }

  lemma PositionEntrySize(n: nat, p: PlayerPos)
    requires n < 10
    ensures 24 <= |EncodeEntry(PositionEntry(n, p))| <= 32
  {
    KeysDiffer();
    PosSize(p);
    EntrySize(PosKey(n), Map(PosEntries(p)));
  }

  lemma UserInfoSize(u: UserInfo)
    ensures 16 <= |PackUserInfo(u)| <= 20
  {
    KeysDiffer();
    var es := UserInfoEntries(u);
    NumberSize(u.id);
    EntrySize(ID_KEY, PosInt(u.id));
    EntrySize(IS_MASTER_KEY, Boolean(u.isMaster));
    SizeStep(es, 0);
    SizeStep(es, 1);
  }

  lemma PlayerInputSize(p: PlayerInput)
    ensures 11 <= |PackPlayerInput(p)| <= 23
  {
    KeysDiffer();
    var es := InputEntries(p);
    NumberSize(p.id);
    NumberSize(p.x);
    NumberSize(p.y);
    EntrySize(ID_KEY, PosInt(p.id));
    EntrySize(X_KEY, IntObject(p.x));
    EntrySize(Y_KEY, IntObject(p.y));
    SizeStep(es, 0);
    SizeStep(es, 1);
    SizeStep(es, 2);
  }

  lemma GameStateSize(g: GameState)
    ensures 103 <= |PackGameState(g)| <= 139
  {
    KeysDiffer();
    var es := StateEntries(g);
    NumberSize(g.tick);
    EntrySize(TICK_KEY, PosInt(g.tick));
    PositionEntrySize(1, g.pos1);
    PositionEntrySize(2, g.pos2);
    PositionEntrySize(3, g.pos3);
    PositionEntrySize(4, g.pos4);
    SizeStep(es, 0);
    SizeStep(es, 1);
    SizeStep(es, 2);
    SizeStep(es, 3);
    SizeStep(es, 4);
  }

  // ---------------------------------------------------------------- tolerant decoding

  // Order of the root entries.
  lemma {:induction false} StateIgnoresOrder(a: seq<Entry>, b: seq<Entry>)
    requires multiset(a) == multiset(b)
    requires |Matching(a, TickField)| <= 1
    requires forall n :: 1 <= n <= 4 ==> |Matching(a, PositionField(n))| <= 1
    ensures GameStateOf(Map(a)) == GameStateOf(Map(b))
  {
    ScanIgnoresOrder(a, b, TickField);
    ScanIgnoresOrder(a, b, PositionField(1));
    ScanIgnoresOrder(a, b, PositionField(2));
    ScanIgnoresOrder(a, b, PositionField(3));
    ScanIgnoresOrder(a, b, PositionField(4));
  }

  // Order of the entries of one position.
  lemma {:induction false} PosIgnoresOrder(a: seq<Entry>, b: seq<Entry>)
    requires multiset(a) == multiset(b)
    requires |Matching(a, ExistsField)| <= 1 && |Matching(a, PosXField)| <= 1 && |Matching(a, PosYField)| <= 1
    ensures PosOf(Map(a)) == PosOf(Map(b))
  {
    ScanIgnoresOrder(a, b, ExistsField);
    ScanIgnoresOrder(a, b, PosXField);
    ScanIgnoresOrder(a, b, PosYField);
  }

  lemma {:induction false} UserInfoIgnoresOrder(a: seq<Entry>, b: seq<Entry>)
    requires multiset(a) == multiset(b)
    requires |Matching(a, IdField)| <= 1 && |Matching(a, MasterField)| <= 1
    ensures UserInfoOf(Map(a)) == UserInfoOf(Map(b))
  {
    ScanIgnoresOrder(a, b, IdField);
    ScanIgnoresOrder(a, b, MasterField);
  }

  lemma {:induction false} PlayerInputIgnoresOrder(a: seq<Entry>, b: seq<Entry>)
    requires multiset(a) == multiset(b)
    requires |Matching(a, IdField)| <= 1 && |Matching(a, InputXField)| <= 1 && |Matching(a, InputYField)| <= 1
    ensures PlayerInputOf(Map(a)) == PlayerInputOf(Map(b))
  {
    ScanIgnoresOrder(a, b, IdField);
    ScanIgnoresOrder(a, b, InputXField);
    ScanIgnoresOrder(a, b, InputYField);
  }

  // A root key other than the five of a game state; root keys are compared exactly.
  predicate IsRootExtension(e: Entry) {
    e.key != Str(TICK_KEY) && !IsPositionKey(e.key)
  }

  // A position key that starts with none of the three names; position keys match by prefix.
  predicate IsPosExtension(e: Entry) {
    !StartsWith(e.key, IS_EXISTS_KEY) && !StartsWith(e.key, X_KEY) && !StartsWith(e.key, Y_KEY)
  }

  lemma StateIgnoresExtensions(a: seq<Entry>, extensions: seq<Entry>, b: seq<Entry>)
    requires forall e :: e in extensions ==> IsRootExtension(e)
    ensures GameStateOf(Map(a + extensions + b)) == GameStateOf(Map(a + b))
  {
    ScanIgnoresStrangers(a, extensions, b, TickField);
    ScanIgnoresStrangers(a, extensions, b, PositionField(1));
    ScanIgnoresStrangers(a, extensions, b, PositionField(2));
    ScanIgnoresStrangers(a, extensions, b, PositionField(3));
    ScanIgnoresStrangers(a, extensions, b, PositionField(4));
  }

  lemma PosIgnoresExtensions(a: seq<Entry>, extensions: seq<Entry>, b: seq<Entry>)
    requires forall e :: e in extensions ==> IsPosExtension(e)
    ensures PosOf(Map(a + extensions + b)) == PosOf(Map(a + b))
  {
    ScanIgnoresStrangers(a, extensions, b, ExistsField);
    ScanIgnoresStrangers(a, extensions, b, PosXField);
    ScanIgnoresStrangers(a, extensions, b, PosYField);
  }

  // User information and inputs, whose keys are compared exactly.
  lemma UserInfoIgnoresExtensions(a: seq<Entry>, extensions: seq<Entry>, b: seq<Entry>)
    requires forall e :: e in extensions ==> e.key != Str(ID_KEY) && e.key != Str(IS_MASTER_KEY)
    ensures UserInfoOf(Map(a + extensions + b)) == UserInfoOf(Map(a + b))
  {
    ScanIgnoresStrangers(a, extensions, b, IdField);
    ScanIgnoresStrangers(a, extensions, b, MasterField);
  }

  lemma PlayerInputIgnoresExtensions(a: seq<Entry>, extensions: seq<Entry>, b: seq<Entry>)
    requires forall e :: e in extensions ==> e.key != Str(ID_KEY) && e.key != Str(X_KEY) && e.key != Str(Y_KEY)
    ensures PlayerInputOf(Map(a + extensions + b)) == PlayerInputOf(Map(a + b))
  {
    ScanIgnoresStrangers(a, extensions, b, IdField);
    ScanIgnoresStrangers(a, extensions, b, InputXField);
    ScanIgnoresStrangers(a, extensions, b, InputYField);
  }

  // A position may be laid out in any way that decodes alike.
  lemma StateIgnoresPosLayout(es: seq<Entry>, i: nat, v: Object)
    requires i < |es| && IsPositionKey(es[i].key) && PosOf(v) == PosOf(es[i].val)
    ensures GameStateOf(Map(es[i := Entry(es[i].key, v)])) == GameStateOf(Map(es))
  {
    KeysDiffer();
    var e := Entry(es[i].key, v);
    ScanReplace(es, i, e, TickField);
    ScanReplace(es, i, e, PositionField(1));
    ScanReplace(es, i, e, PositionField(2));
    ScanReplace(es, i, e, PositionField(3));
    ScanReplace(es, i, e, PositionField(4));
  }

  lemma {:induction false} MatchingAtMostOne<T>(es: seq<Entry>, i: nat, field: Entry -> Reading<T>)
    requires i < |es| && forall j :: 0 <= j < |es| && j != i ==> field(es[j]).Skip?
    ensures |Matching(es, field)| <= 1
  {
    var n := |es| - 1;
    if i == n {
      MatchingOfStrangers(es[..n], field);
    } else {
      MatchingAtMostOne(es[..n], i, field);
    }
  }

  // A position in another layout: its entries in any order, with entries of the sender's own.
  ghost predicate IsPosLayout(p: PlayerPos, o: Object, extensions: seq<Entry>) {
    && o.Map?
    && multiset(o.entries) == multiset(PosEntries(p) + extensions)
    && forall e :: e in extensions ==> IsPosExtension(e)
  }

  lemma PosFieldsUnique(p: PlayerPos)
    ensures |Matching(PosEntries(p), ExistsField)| <= 1
    ensures |Matching(PosEntries(p), PosXField)| <= 1 && |Matching(PosEntries(p), PosYField)| <= 1
  {
    KeysDiffer();
    MatchingAtMostOne(PosEntries(p), 0, ExistsField);
    MatchingAtMostOne(PosEntries(p), 1, PosXField);
    MatchingAtMostOne(PosEntries(p), 2, PosYField);
  }

  lemma {:induction false} ExtendedPosIgnoresOrder(es: seq<Entry>, extensions: seq<Entry>, layout: seq<Entry>)
    requires multiset(layout) == multiset(es + extensions) && forall e :: e in extensions ==> IsPosExtension(e)
    requires |Matching(es, ExistsField)| <= 1 && |Matching(es, PosXField)| <= 1 && |Matching(es, PosYField)| <= 1
    ensures PosOf(Map(layout)) == PosOf(Map(es))
  {
    StillAtMostOne(es, extensions, ExistsField);
    StillAtMostOne(es, extensions, PosXField);
    StillAtMostOne(es, extensions, PosYField);
    PosIgnoresOrder(es + extensions, layout);
    PosIgnoresExtensions(es, extensions, []);
    assert es + extensions + [] == es + extensions && es + [] == es;
  }

  lemma PosLayoutDecodes(p: PlayerPos, o: Object, extensions: seq<Entry>)
    requires IsPosLayout(p, o, extensions)
    ensures PosOf(o) == Some(p)
  {
    PosFieldsUnique(p);
    ExtendedPosIgnoresOrder(PosEntries(p), extensions, o.entries);
    PosDecodes(p);
  }

  lemma StateFieldsUnique(g: GameState, positions: seq<Object>)
    requires |positions| == 4
    ensures |Matching(LaidOut(g, positions), TickField)| <= 1
    ensures forall n :: 1 <= n <= 4 ==> |Matching(LaidOut(g, positions), PositionField(n))| <= 1
  {
    KeysDiffer();
    MatchingAtMostOne(LaidOut(g, positions), 0, TickField);
    forall n | 1 <= n <= 4 ensures |Matching(LaidOut(g, positions), PositionField(n))| <= 1 {
      OnlyOnePositionKey(g, positions, n);
      MatchingAtMostOne(LaidOut(g, positions), n, PositionField(n));
    }
  }

  lemma {:induction false} StillAtMostOne<T>(es: seq<Entry>, extensions: seq<Entry>, field: Entry -> Reading<T>)
    requires |Matching(es, field)| <= 1 && forall e :: e in extensions ==> field(e).Skip?
    ensures |Matching(es + extensions, field)| <= 1
  {
    MatchingOfStrangers(extensions, field);
    MatchingAppend(es, extensions, field);
  }

  lemma ExtensionSkipped(e: Entry, n: nat)
    requires IsRootExtension(e) && 1 <= n <= 4
    ensures PositionField(n)(e).Skip?
  {
    assert n == 1 || n == 2 || n == 3 || n == 4;
  }

  lemma {:induction false} ExtendedStateIgnoresOrder(es: seq<Entry>, extensions: seq<Entry>, layout: seq<Entry>)
    requires multiset(layout) == multiset(es + extensions)
    requires forall e :: e in extensions ==> IsRootExtension(e)
    requires |Matching(es, TickField)| <= 1
    requires forall n :: 1 <= n <= 4 ==> |Matching(es, PositionField(n))| <= 1
    ensures GameStateOf(Map(layout)) == GameStateOf(Map(es))
  {
    StillAtMostOne(es, extensions, TickField);
    forall n | 1 <= n <= 4 ensures |Matching(es + extensions, PositionField(n))| <= 1 {
      forall e | e in extensions ensures PositionField(n)(e).Skip? {
        ExtensionSkipped(e, n);
      }
      StillAtMostOne(es, extensions, PositionField(n));
    }
    StateIgnoresOrder(es + extensions, layout);
    StateIgnoresExtensions(es, extensions, []);
    assert es + extensions + [] == es + extensions && es + [] == es;
  }

  // In bytes: a sender may write the fields of a game state and of its positions in any order
  // and any format, add fields of its own holding anything, and the receiver still decodes the
  // same state.
  lemma {:induction false} AnyLayoutDecodes(b: Bytes, g: GameState, positions: seq<Object>, inner: seq<seq<Entry>>, layout: seq<Entry>, outer: seq<Entry>)
    requires Read(b).Success? && Read(b).value == Map(layout)
    requires |positions| == |inner| == 4
    requires forall n :: 1 <= n <= 4 ==> IsPosLayout(Position(g, n), positions[n - 1], inner[n - 1])
    requires multiset(layout) == multiset(LaidOut(g, positions) + outer)
    requires forall e :: e in outer ==> IsRootExtension(e)
    ensures UnpackGameState(b) == Some(g)
  {
    forall n | 1 <= n <= 4 ensures PosOf(positions[n - 1]) == Some(Position(g, n)) {
      PosLayoutDecodes(Position(g, n), positions[n - 1], inner[n - 1]);
    }
    LaidOutDecodes(g, positions);
    StateFieldsUnique(g, positions);
    ExtendedStateIgnoresOrder(LaidOut(g, positions), outer, layout);
  }

  // A key a position may have without the C code reading past it.
  predicate IsReadable(e: Entry) {
    e.key.Str? && !(e.key.text < IS_EXISTS_KEY)
  }

  ghost predicate AllReadable(es: seq<Entry>) {
    forall e :: e in es ==> IsReadable(e)
  }

  // If the added position keys are readable, no undefined memory is read on the way.
  lemma {:induction false} AnyLayoutDefined(b: Bytes, g: GameState, positions: seq<Object>, inner: seq<seq<Entry>>, layout: seq<Entry>, outer: seq<Entry>)
    requires Read(b).Success? && Read(b).value == Map(layout)
    requires |positions| == |inner| == 4
    requires forall n :: 1 <= n <= 4 ==> IsPosLayout(Position(g, n), positions[n - 1], inner[n - 1])
    requires multiset(layout) == multiset(LaidOut(g, positions) + outer)
    requires forall e :: e in outer ==> IsRootExtension(e)
    requires forall es :: es in inner ==> AllReadable(es)
    ensures BytesDefined(b, StateDefined)
  {
    forall i | 0 <= i < |layout| && IsPositionKey(layout[i].key) ensures PosDefined(layout[i].val) {
      assert layout[i] in multiset(layout);
      var n := PositionInLayout(g, positions, outer, layout[i]);
      PosLayoutDefined(Position(g, n), positions[n - 1], inner[n - 1]);
    }
  }

  lemma PositionInLayout(g: GameState, positions: seq<Object>, outer: seq<Entry>, e: Entry) returns (n: nat)
    requires |positions| == 4 && e in LaidOut(g, positions) + outer && IsPositionKey(e.key)
    requires forall e :: e in outer ==> IsRootExtension(e)
    ensures 1 <= n <= 4 && e.val == positions[n - 1]
  {
    KeysDiffer();
    var es := LaidOut(g, positions);
    var i :| 0 <= i < |es| && es[i] == e;
    n := i;
  }

  lemma PosLayoutDefined(p: PlayerPos, o: Object, extensions: seq<Entry>)
    requires IsPosLayout(p, o, extensions) && AllReadable(extensions)
    ensures PosDefined(o)
  {
    KeysDiffer();
    forall i | 0 <= i < |o.entries|
      ensures IsReadable(o.entries[i])
      ensures StartsWith(o.entries[i].key, X_KEY) || StartsWith(o.entries[i].key, Y_KEY) ==> IsInteger(o.entries[i].val)
    {
      assert o.entries[i] in multiset(o.entries);
      assert o.entries[i] in PosEntries(p) || o.entries[i] in extensions;
    }
  }
}
