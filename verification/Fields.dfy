/**
 * The field-scanning scheme shared by all unpackers: walk the entries of a map, let the last
 * matching entry of a field win, and give up at once when a matching entry is malformed.
 */
module Fields {
  import opened MsgPack

  // What one entry says about one field.
  datatype Reading<+T> = Skip | Bad | Value(value: T)

  // What is known about one field after some entries.
  datatype Slot<+T> = Missing | Failed | Found(value: T)

  function Update<T>(before: Slot<T>, reading: Reading<T>): Slot<T> {
    if before.Failed? then Failed
    else
      match reading
      case Skip => before
      case Bad => Failed
      case Value(v) => Found(v)
  }

  // The meaning of a scan for one field.
  function Scan<T>(entries: seq<Entry>, field: Entry -> Reading<T>): Slot<T> {
    if entries == [] then Missing
    else Update(Scan(entries[..|entries| - 1], field), field(entries[|entries| - 1]))
  }

  // The entries that say something about the field.
  function Matching<T>(entries: seq<Entry>, field: Entry -> Reading<T>): (r: seq<Entry>)
    ensures forall e :: e in r ==> !field(e).Skip?
  {
    if entries == [] then []
    else
      var last := entries[|entries| - 1];
      Matching(entries[..|entries| - 1], field) + if field(last).Skip? then [] else [last]
  }

  lemma {:induction false} ScanOfMatching<T>(entries: seq<Entry>, field: Entry -> Reading<T>)
    ensures Scan(Matching(entries, field), field) == Scan(entries, field)
  {
    if entries != [] {
      ScanOfMatching(entries[..|entries| - 1], field);
      var all := Matching(entries, field);
      if field(entries[|entries| - 1]).Skip? {
        assert all == Matching(entries[..|entries| - 1], field);
      } else {
        assert all[..|all| - 1] == Matching(entries[..|entries| - 1], field);
      }
    }
  }

  lemma {:induction false} MatchingAppend<T>(a: seq<Entry>, b: seq<Entry>, field: Entry -> Reading<T>)
    ensures Matching(a + b, field) == Matching(a, field) + Matching(b, field)
  {
    if b == [] {
      assert a + b == a;
    } else {
      assert (a + b)[..|a + b| - 1] == a + b[..|b| - 1];
      MatchingAppend(a, b[..|b| - 1], field);
    }
  }

  lemma {:induction false} MatchingMultiplicity<T>(entries: seq<Entry>, field: Entry -> Reading<T>, e: Entry)
    ensures multiset(Matching(entries, field))[e] == if field(e).Skip? then 0 else multiset(entries)[e]
  {
    if entries != [] {
      var front, last := entries[..|entries| - 1], entries[|entries| - 1];
      MatchingMultiplicity(front, field, e);
      assert entries == front + [last];
      assert multiset(entries)[e] == multiset(front)[e] + if e == last then 1 else 0;
      if field(last).Skip? {
        assert Matching(entries, field) == Matching(front, field);
      } else {
        assert Matching(entries, field) == Matching(front, field) + [last];
      }
    }
  }

  lemma SameMultisetOfOne<T>(a: seq<T>, b: seq<T>)
    requires multiset(a) == multiset(b) && |a| <= 1
    ensures a == b
  {
    assert |a| == |multiset(a)| == |multiset(b)| == |b|;
    if |a| == 1 {
      assert b[0] in multiset(b);
    }
  }

  lemma {:induction false} MatchingSameMultiset<T>(a: seq<Entry>, b: seq<Entry>, field: Entry -> Reading<T>)
    requires multiset(a) == multiset(b)
    ensures multiset(Matching(a, field)) == multiset(Matching(b, field))
  {
    forall e ensures multiset(Matching(a, field))[e] == multiset(Matching(b, field))[e] {
      MatchingMultiplicity(a, field, e);
      MatchingMultiplicity(b, field, e);
    }
  }

  // A field matched by at most one entry does not care about the order of the entries.
  lemma {:induction false} ScanIgnoresOrder<T>(a: seq<Entry>, b: seq<Entry>, field: Entry -> Reading<T>)
    requires multiset(a) == multiset(b) && |Matching(a, field)| <= 1
    ensures Scan(a, field) == Scan(b, field)
  {
    MatchingSameMultiset(a, b, field);
    SameMultisetOfOne(Matching(a, field), Matching(b, field));
    ScanOfMatching(a, field);
    ScanOfMatching(b, field);
  }

  lemma {:induction false} MatchingOfStrangers<T>(strangers: seq<Entry>, field: Entry -> Reading<T>)
    requires forall e :: e in strangers ==> field(e).Skip?
    ensures Matching(strangers, field) == []
  {
    if strangers != [] {
      assert strangers[|strangers| - 1] in strangers;
      MatchingOfStrangers(strangers[..|strangers| - 1], field);
    }
  }

  // Entries that match no test of a field may be inserted anywhere.
  lemma {:induction false} ScanIgnoresStrangers<T>(a: seq<Entry>, strangers: seq<Entry>, b: seq<Entry>, field: Entry -> Reading<T>)
    requires forall e :: e in strangers ==> field(e).Skip?
    ensures Scan(a + strangers + b, field) == Scan(a + b, field)
  {
    MatchingAppend(a + strangers, b, field);
    MatchingAppend(a, strangers, field);
    MatchingAppend(a, b, field);
    MatchingOfStrangers(strangers, field);
    assert Matching(a, field) + [] == Matching(a, field);
    ScanOfMatching(a + strangers + b, field);
    ScanOfMatching(a + b, field);
  }

  // Replacing an entry by one with the same reading changes nothing.
  lemma {:induction false} ScanReplace<T>(entries: seq<Entry>, i: nat, e: Entry, field: Entry -> Reading<T>)
    requires i < |entries| && field(e) == field(entries[i])
    ensures Scan(entries[i := e], field) == Scan(entries, field)
  {
    var n := |entries| - 1;
    if i == n {
      assert entries[i := e][..n] == entries[..n];
    } else {
      assert entries[i := e][..n] == entries[..n][i := e];
      ScanReplace(entries[..n], i, e, field);
    }
  }

  lemma {:induction false} ScanOfSkips<T>(entries: seq<Entry>, field: Entry -> Reading<T>)
    requires forall i :: 0 <= i < |entries| ==> field(entries[i]).Skip?
    ensures Scan(entries, field) == Missing
  {
    if entries != [] {
      ScanOfSkips(entries[..|entries| - 1], field);
    }
  }

  // A field matched by exactly one entry has that entry's value.
  lemma {:induction false} ScanOfOne<T>(entries: seq<Entry>, i: nat, field: Entry -> Reading<T>)
    requires i < |entries| && field(entries[i]).Value?
    requires forall j :: 0 <= j < |entries| && j != i ==> field(entries[j]).Skip?
    ensures Scan(entries, field) == Found(field(entries[i]).value)
  {
    var n := |entries| - 1;
    if i == n {
      ScanOfSkips(entries[..n], field);
    } else {
      ScanOfOne(entries[..n], i, field);
    }
  }

  lemma {:induction false} FailedStays<T>(entries: seq<Entry>, i: nat, field: Entry -> Reading<T>)
    requires i <= |entries| && Scan(entries[..i], field).Failed?
    ensures Scan(entries, field).Failed?
  {
    if i == |entries| {
      assert entries[..i] == entries;
    } else {
      assert entries[..|entries| - 1][..i] == entries[..i];
      FailedStays(entries[..|entries| - 1], i, field);
    }
  }

  predicate NoneBad<T>(entries: seq<Entry>, field: Entry -> Reading<T>) {
    forall i :: 0 <= i < |entries| ==> !field(entries[i]).Bad?
  }

  // Entry i is the last one that says something about the field, and it says v.
  predicate LastSays<T(==)>(entries: seq<Entry>, field: Entry -> Reading<T>, v: T, i: int) {
    && 0 <= i < |entries|
    && field(entries[i]) == Value(v)
    && forall j :: i < j < |entries| ==> field(entries[j]).Skip?
  }

  lemma {:induction false} ScanNotFailed<T>(entries: seq<Entry>, field: Entry -> Reading<T>)
    ensures !Scan(entries, field).Failed? <==> NoneBad(entries, field)
  {
    if entries != [] {
      var n := |entries| - 1;
      ScanNotFailed(entries[..n], field);
      NoneBadSnoc(entries, field);
    }
  }

  lemma NoneBadSnoc<T>(entries: seq<Entry>, field: Entry -> Reading<T>)
    requires entries != []
    ensures NoneBad(entries, field) <==> NoneBad(entries[..|entries| - 1], field) && !field(entries[|entries| - 1]).Bad?
  {
    var n := |entries| - 1;
    var front := entries[..n];
    if NoneBad(front, field) && !field(entries[n]).Bad? {
      forall i | 0 <= i < |entries| ensures !field(entries[i]).Bad? {
        assert i < n ==> entries[i] == front[i];
      }
    }
  }

  lemma LastSaysSnoc<T>(entries: seq<Entry>, field: Entry -> Reading<T>, v: T, i: int)
    requires entries != [] && i < |entries| - 1
    ensures LastSays(entries, field, v, i) <==> LastSays(entries[..|entries| - 1], field, v, i) && field(entries[|entries| - 1]).Skip?
  {
    var n := |entries| - 1;
    var front := entries[..n];
    if LastSays(front, field, v, i) && field(entries[n]).Skip? {
      forall j | i < j < |entries| ensures field(entries[j]).Skip? {
        assert j < n ==> entries[j] == front[j];
      }
    }
  }

  lemma {:induction false} FoundHasLastMatch<T>(entries: seq<Entry>, field: Entry -> Reading<T>, v: T) returns (i: int)
    requires Scan(entries, field) == Found(v)
    ensures NoneBad(entries, field) && LastSays(entries, field, v, i)
  {
    ScanNotFailed(entries, field);
    i := |entries| - 1;
    if field(entries[i]).Skip? {
      i := FoundHasLastMatch(entries[..|entries| - 1], field, v);
      LastSaysSnoc(entries, field, v, i);
    }
  }

  lemma {:induction false} LastMatchIsFound<T>(entries: seq<Entry>, field: Entry -> Reading<T>, v: T, i: int)
    requires NoneBad(entries, field) && LastSays(entries, field, v, i)
    ensures Scan(entries, field) == Found(v)
  {
    NoneBadSnoc(entries, field);
    if i == |entries| - 1 {
      ScanNotFailed(entries[..i], field);
    } else {
      LastSaysSnoc(entries, field, v, i);
      LastMatchIsFound(entries[..|entries| - 1], field, v, i);
    }
  }

  // The independent reading of a scan: the field is found with value v exactly when no
  // matching entry is malformed and the last matching entry holds v.
  lemma {:induction false} ScanMeansLastMatch<T(!new)>(entries: seq<Entry>, field: Entry -> Reading<T>, v: T)
    ensures Scan(entries, field) == Found(v) <==>
      NoneBad(entries, field) && exists i :: LastSays(entries, field, v, i)
  {
    if Scan(entries, field) == Found(v) {
      var i := FoundHasLastMatch(entries, field, v);
    }
    if NoneBad(entries, field) && exists i :: LastSays(entries, field, v, i) {
      var i :| LastSays(entries, field, v, i);
      LastMatchIsFound(entries, field, v, i);
    }
  }
}
