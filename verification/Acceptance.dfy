/**
 * What the unpackers accept, told from the entries of the map alone: which entries count for a
 * field, that the last one decides, and that a message lacking any field is rejected. Keys are
 * given in numerals, numbers modulo 2^32.
 */
module Acceptance {
  import opened Base
  import opened MsgPack
  import opened Fields
  import opened Protocol
  import opened WireFormat

  // Entry i is the last one that passes the test.
  ghost predicate Last(es: seq<Entry>, test: Entry -> bool, i: int) {
    0 <= i < |es| && test(es[i]) && forall j :: i < j < |es| ==> !test(es[j])
  }


  // The field looks at the entries that pass the test, and reads this from one.
  ghost predicate Looks<T(!new)>(field: Entry -> Reading<T>, test: Entry -> bool, value: Entry -> T) {
    forall e :: field(e) == if test(e) then Value(value(e)) else Skip
  }

  lemma {:induction false} FoundIsLast<T(!new)>(es: seq<Entry>, field: Entry -> Reading<T>, test: Entry -> bool, value: Entry -> T, v: T)
    requires Looks(field, test, value)
    ensures Scan(es, field) == Found(v) <==> exists i :: Last(es, test, i) && value(es[i]) == v
  {
    ScanMeansLastMatch(es, field, v);
    if i :| LastSays(es, field, v, i) {
      assert Last(es, test, i) && value(es[i]) == v;
    }
    if i :| Last(es, test, i) && value(es[i]) == v {
      assert LastSays(es, field, v, i);
    }
  }

  // ---------------------------------------------------------------- the tests, in numerals

  predicate IsId(e: Entry) {
    e.key == Str([0x69, 0x64]) && e.val.PosInt?
  }

  predicate IsRole(e: Entry) {
    e.key == Str([0x69, 0x73, 0x5f, 0x6d, 0x61, 0x73, 0x74, 0x65, 0x72]) && e.val.Boolean?
  }

  predicate IsTick(e: Entry) {
    e.key == Str([0x74, 0x69, 0x63, 0x6b]) && e.val.PosInt?
  }

  predicate IsX(e: Entry) {
    e.key == Str([0x78])
  }

  predicate IsY(e: Entry) {
    e.key == Str([0x79])
  }

  // Inside a position a key only has to begin with the name.
  predicate BeginsExists(e: Entry) {
    e.key.Str? && [0x69, 0x73, 0x5f, 0x65, 0x78, 0x69, 0x73, 0x74, 0x73] <= e.key.text && e.val.Boolean?
  }

  predicate BeginsX(e: Entry) {
    e.key.Str? && [0x78] <= e.key.text
  }

  predicate BeginsY(e: Entry) {
    e.key.Str? && [0x79] <= e.key.text
  }

  predicate IsPosition(e: Entry, n: nat) {
    n < 10 && e.key == Str([0x70, 0x6f, 0x73, 0x5f, 0x30 + n])
  }

  // The number an object holds; 0 stands for what the C code reads in other objects.
  function NumberIn(o: Object): int {
    match o
    case PosInt(n) => n
    case NegInt(i) => i
    case _ => 0
  }

  // The 32-bit number u stands for n.
  predicate Stands32(u: int, n: int) {
    (u - n) % 0x1_0000_0000 == 0
  }

  // Only one number of the width does.
  lemma OnlyOneUnsigned(n: int, u: UInt32)
    ensures Stands32(u, n) <==> u == ToUInt32(n)
  {
    var q, d := n / 0x1_0000_0000, (u - n) / 0x1_0000_0000;
    assert n == q * 0x1_0000_0000 + ToUInt32(n);
    if Stands32(u, n) {
      assert u - ToUInt32(n) == (d + q) * 0x1_0000_0000;
      assert d + q == 0;
    }
    if u == ToUInt32(n) {
      assert u - n == -q * 0x1_0000_0000;
    }
  }

  lemma OnlyOneSigned(n: int, i: Int32)
    ensures Stands32(i, n) <==> i == ToInt32(n)
  {
    OnlyOneUnsigned(n + 0x8000_0000, i + 0x8000_0000);
  }

  // ---------------------------------------------------------------- user information and inputs

  ghost predicate HoldsId(es: seq<Entry>, id: UInt32) {
    exists i :: Last(es, IsId, i) && Stands32(id, NumberIn(es[i].val))
  }

  ghost predicate HoldsNumber(es: seq<Entry>, test: Entry -> bool, x: Int32) {
    exists i :: Last(es, test, i) && Stands32(x, NumberIn(es[i].val))
  }

  ghost predicate HoldsFlag(es: seq<Entry>, test: Entry -> bool, flag: bool) {
    exists i :: Last(es, test, i) && es[i].val == Boolean(flag)
  }

  lemma {:induction false} IdIsHeld(es: seq<Entry>, id: UInt32)
    ensures Scan(es, IdField) == Found(id) <==> HoldsId(es, id)
  {
    KeysInNumerals();
    var value := (e: Entry) => ToUInt32(NumberIn(e.val));
    FoundIsLast(es, IdField, IsId, value, id);
    if i :| Last(es, IsId, i) && value(es[i]) == id { OnlyOneUnsigned(NumberIn(es[i].val), id); }
    if i :| Last(es, IsId, i) && Stands32(id, NumberIn(es[i].val)) {
      OnlyOneUnsigned(NumberIn(es[i].val), id);
      assert value(es[i]) == id;
    }
  }

  lemma {:induction false} TickIsHeld(es: seq<Entry>, tick: UInt32)
    ensures Scan(es, TickField) == Found(tick) <==> exists i :: Last(es, IsTick, i) && Stands32(tick, NumberIn(es[i].val))
  {
    KeysInNumerals();
    var value := (e: Entry) => ToUInt32(NumberIn(e.val));
    FoundIsLast(es, TickField, IsTick, value, tick);
    if i :| Last(es, IsTick, i) && value(es[i]) == tick { OnlyOneUnsigned(NumberIn(es[i].val), tick); }
    if i :| Last(es, IsTick, i) && Stands32(tick, NumberIn(es[i].val)) {
      OnlyOneUnsigned(NumberIn(es[i].val), tick);
      assert value(es[i]) == tick;
    }
  }

  lemma LowIsNumber(o: Object, x: Int32)
    ensures Low32(o) == x <==> Stands32(x, NumberIn(o))
  {
    OnlyOneSigned(NumberIn(o), x);
  }

  lemma {:induction false} NumberIsHeld(es: seq<Entry>, field: Entry -> Reading<Int32>, test: Entry -> bool, x: Int32)
    requires forall e :: field(e) == if test(e) then Value(Low32(e.val)) else Skip
    ensures Scan(es, field) == Found(x) <==> HoldsNumber(es, test, x)
  {
    var value := (e: Entry) => Low32(e.val);
    FoundIsLast(es, field, test, value, x);
    if i :| Last(es, test, i) && value(es[i]) == x { LowIsNumber(es[i].val, x); }
    if i :| Last(es, test, i) && Stands32(x, NumberIn(es[i].val)) {
      LowIsNumber(es[i].val, x);
      assert value(es[i]) == x;
    }
  }

  lemma {:induction false} FlagIsHeld(es: seq<Entry>, field: Entry -> Reading<bool>, test: Entry -> bool, flag: bool)
    requires forall e :: test(e) ==> e.val.Boolean?
    requires forall e :: field(e) == if test(e) then Value(e.val.flag) else Skip
    ensures Scan(es, field) == Found(flag) <==> HoldsFlag(es, test, flag)
  {
    var value := (e: Entry) => e.val.Boolean? && e.val.flag;
    FoundIsLast(es, field, test, value, flag);
    if i :| Last(es, test, i) && value(es[i]) == flag { assert es[i].val == Boolean(flag); }
    if i :| Last(es, test, i) && es[i].val == Boolean(flag) { assert value(es[i]) == flag; }
  }

  // User information is accepted exactly when both fields are there, with their last values.
  lemma UserInfoAccepted(o: Object, u: UserInfo)
    ensures UserInfoOf(o) == Some(u) <==> o.Map? && HoldsId(o.entries, u.id) && HoldsFlag(o.entries, IsRole, u.isMaster)
  {
    if o.Map? {
      KeysInNumerals();
      IdIsHeld(o.entries, u.id);
      FlagIsHeld(o.entries, MasterField, IsRole, u.isMaster);
    }
  }

  // An input is accepted exactly when all three fields are there.
  lemma PlayerInputAccepted(o: Object, p: PlayerInput)
    ensures PlayerInputOf(o) == Some(p) <==>
      o.Map? && HoldsId(o.entries, p.id) && HoldsNumber(o.entries, IsX, p.x) && HoldsNumber(o.entries, IsY, p.y)
  {
    if o.Map? {
      KeysInNumerals();
      IdIsHeld(o.entries, p.id);
      NumberIsHeld(o.entries, InputXField, IsX, p.x);
      NumberIsHeld(o.entries, InputYField, IsY, p.y);
    }
  }

  // So is a position, whose keys match by prefix.
  lemma PosAccepted(o: Object, p: PlayerPos)
    ensures PosOf(o) == Some(p) <==>
      o.Map? && HoldsFlag(o.entries, BeginsExists, p.isExists) && HoldsNumber(o.entries, BeginsX, p.x) && HoldsNumber(o.entries, BeginsY, p.y)
  {
    if o.Map? {
      KeysInNumerals();
      FlagIsHeld(o.entries, ExistsField, BeginsExists, p.isExists);
      NumberIsHeld(o.entries, PosXField, BeginsX, p.x);
      NumberIsHeld(o.entries, PosYField, BeginsY, p.y);
    }
  }

  // ---------------------------------------------------------------- game states

  // All entries with the key of position n hold positions, and the last one holds p.
  ghost predicate HoldsPosition(es: seq<Entry>, n: nat, p: PlayerPos) {
    && (forall i :: 0 <= i < |es| && IsPosition(es[i], n) ==> PosOf(es[i].val).Some?)
    && exists i :: Last(es, (e: Entry) => IsPosition(e, n), i) && PosOf(es[i].val) == Some(p)
  }

  lemma PositionReads(n: nat, e: Entry)
    requires n < 10
    ensures PositionField(n)(e)
         == if !IsPosition(e, n) then Skip else if PosOf(e.val).Some? then Value(PosOf(e.val).value) else Bad
  {
    PosKeyInNumerals(n);
  }

  lemma {:induction false} PositionIsHeld(es: seq<Entry>, n: nat, p: PlayerPos)
    requires n < 10
    ensures Scan(es, PositionField(n)) == Found(p) <==> HoldsPosition(es, n, p)
  {
    ScanMeansLastMatch(es, PositionField(n), p);
    forall e ensures PositionField(n)(e)
                  == if !IsPosition(e, n) then Skip else if PosOf(e.val).Some? then Value(PosOf(e.val).value) else Bad
    {
      PositionReads(n, e);
    }
    var test := (e: Entry) => IsPosition(e, n);
    if i :| LastSays(es, PositionField(n), p, i) {
      assert Last(es, test, i) && PosOf(es[i].val) == Some(p);
    }
    if i :| Last(es, test, i) && PosOf(es[i].val) == Some(p) && NoneBad(es, PositionField(n)) {
      assert LastSays(es, PositionField(n), p, i);
    }
  }

  // A game state is accepted exactly when it has a tick and four positions and none of the
  // entries with the key of a position is malformed.
  lemma GameStateAccepted(o: Object, g: GameState)
    ensures GameStateOf(o) == Some(g) <==>
      && o.Map?
      && (exists i :: Last(o.entries, IsTick, i) && Stands32(g.tick, NumberIn(o.entries[i].val)))
      && HoldsPosition(o.entries, 1, g.pos1) && HoldsPosition(o.entries, 2, g.pos2)
      && HoldsPosition(o.entries, 3, g.pos3) && HoldsPosition(o.entries, 4, g.pos4)
  {
    if o.Map? {
      TickIsHeld(o.entries, g.tick);
      PositionIsHeld(o.entries, 1, g.pos1);
      PositionIsHeld(o.entries, 2, g.pos2);
      PositionIsHeld(o.entries, 3, g.pos3);
      PositionIsHeld(o.entries, 4, g.pos4);
    }
  }
}
