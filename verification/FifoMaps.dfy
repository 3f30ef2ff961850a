/**
 The insertion-ordered map: an ordered map whose comparator looks its keys up in a side table of
 timestamps, and puts a zero there for every key it does not know.
 */
module FifoMaps {
  import opened Bytes

  /** `entries` is what the ordered map holds, in its own order. */
  datatype Fifo<V> = Fifo(keys: map<Str, nat>, timestamp: nat, entries: seq<(Str, V)>)

  function Stamp(keys: map<Str, nat>, k: Str): nat {
    if k in keys then keys[k] else 0
  }

  /** The comparator's answer. */
  predicate Before(keys: map<Str, nat>, lhs: Str, rhs: Str) {
    var (l, r) := (Stamp(keys, lhs), Stamp(keys, rhs));
    if l == 0 then false else if r == 0 then true else l < r
  }

  /** What asking the comparator about `k` leaves in the side table. */
  function Asked(keys: map<Str, nat>, k: Str): map<Str, nat> {
    if k in keys then keys else keys[k := 0]
  }

  /** The ordered map's search: the first place whose key is not before `k`. */
  function LowerBound<V>(keys: map<Str, nat>, entries: seq<(Str, V)>, k: Str): (i: nat)
    ensures i <= |entries| && (i < |entries| ==> !Before(keys, entries[i].0, k))
    ensures forall j :: 0 <= j < i ==> Before(keys, entries[j].0, k)
  {
    if entries == [] || !Before(keys, entries[0].0, k) then 0
    else
      var i := LowerBound(keys, entries[1..], k);
      assert forall j :: 1 <= j < i + 1 ==> entries[j] == entries[1..][j - 1];
      1 + i
  }

  /** Neither key is before the other: for the ordered map they are the same. */
  predicate Holds<V>(keys: map<Str, nat>, entries: seq<(Str, V)>, k: Str) {
    var i := LowerBound(keys, entries, k);
    i < |entries| && !Before(keys, k, entries[i].0)
  }

  /** A search in an empty map compares nothing. */
  function Searched<V>(f: Fifo<V>, k: Str): Fifo<V> {
    if f.entries == [] then f else f.(keys := Asked(f.keys, k))
  }

  /** add_key: unordered_map::insert does not overwrite, and the timestamp is used up in any case. */
  function WithKey<V>(f: Fifo<V>, k: Str): Fifo<V> {
    f.(keys := if k in f.keys then f.keys else f.keys[k := f.timestamp], timestamp := f.timestamp + 1)
  }

  function Inserted<V>(f: Fifo<V>, k: Str, v: V): Fifo<V> {
    var g := WithKey(f, k);
    var i := LowerBound(g.keys, g.entries, k);
    if Holds(g.keys, g.entries, k) then g else g.(entries := g.entries[..i] + [(k, v)] + g.entries[i..])
  }

  /** m[k] = v */
  function Assigned<V>(f: Fifo<V>, k: Str, v: V): Fifo<V> {
    var g := WithKey(f, k);
    var i := LowerBound(g.keys, g.entries, k);
    if Holds(g.keys, g.entries, k) then g.(entries := g.entries[i := (g.entries[i].0, v)])
    else g.(entries := g.entries[..i] + [(k, v)] + g.entries[i..])
  }

  /** find, count, at: all of them leave the key in the side table. */
  function Lookup<V>(f: Fifo<V>, k: Str): Option<V> {
    var i := LowerBound(f.keys, f.entries, k);
    if Holds(f.keys, f.entries, k) then Some(f.entries[i].1) else None
  }

  /** erase by key; a key that was not there stays in the side table. */
  function WithoutKey<V>(f: Fifo<V>, k: Str): Fifo<V> {
    var g := Searched(f, k);
    var i := LowerBound(g.keys, g.entries, k);
    if Holds(g.keys, g.entries, k) then g.(keys := g.keys - {k}, entries := g.entries[..i] + g.entries[i + 1..]) else g
  }

  function Cleared<V>(f: Fifo<V>): Fifo<V> {
    f.(keys := map[], entries := [])
  }

  // ---------------------------------------------------------------- the class

  class FifoMap<V> {
    var keys: map<Str, nat>
    var timestamp: nat
    var entries: seq<(Str, V)>

    ghost function State(): Fifo<V>
      reads this
    {
      Fifo(keys, timestamp, entries)
    }

    constructor ()
      ensures State() == Fifo(map[], 1, [])
    {
      keys := map[];
      timestamp := 1;
      entries := [];
    }

    /** fifo_map_compare::operator(), whose look-ups insert missing keys with timestamp 0. */
    method Compare(lhs: Str, rhs: Str) returns (less: bool)
      modifies this`keys
      ensures keys == Asked(Asked(old(keys), lhs), rhs)
      ensures less == Before(old(keys), lhs, rhs)
    {
      if lhs !in keys {
        keys := keys[lhs := 0];
      }
      var timestampLhs := keys[lhs];
      if rhs !in keys {
        keys := keys[rhs := 0];
      }
      var timestampRhs := keys[rhs];
      if timestampLhs == 0 {
        return false;
      }
      if timestampRhs == 0 {
        return true;
      }
      return timestampLhs < timestampRhs;
    }

    method AddKey(k: Str)
      modifies this`keys, this`timestamp
      ensures State() == WithKey(old(State()), k)
    {
      if k !in keys {
        keys := keys[k := timestamp];
      }
      timestamp := timestamp + 1;
    }

    /** The search, by comparisons. */
    method Search(k: Str) returns (i: nat, found: bool)
      requires forall j :: 0 <= j < |entries| ==> entries[j].0 in keys
      modifies this`keys
      ensures State() == Searched(old(State()), k)
      ensures i == LowerBound(old(keys), entries, k) && found == Holds(old(keys), entries, k)
    {
      i := 0;
      ghost var before := keys;
      while i < |entries|
        invariant i <= |entries| && forall j :: 0 <= j < i ==> Before(before, entries[j].0, k)
        invariant keys == if i == 0 then before else Asked(before, k)
      {
        var less := Compare(entries[i].0, k);
        AskingChangesNoAnswer(before, k);
        if !less {
          FirstNotBefore(before, entries, k, i);
          var greater := Compare(k, entries[i].0);
          return i, !greater;
        }
        i := i + 1;
      }
      FirstNotBefore(before, entries, k, i);
      return i, false;
    }

    method Insert(k: Str, v: V) returns (inserted: bool)
      requires forall j :: 0 <= j < |entries| ==> entries[j].0 in keys
      modifies this
      ensures State() == Inserted(old(State()), k, v)
      ensures inserted == (|entries| > |old(entries)|)
    {
      AddKey(k);
      var i, found := Search(k);
      if !found {
        entries := entries[..i] + [(k, v)] + entries[i..];
      }
      return !found;
    }

    method Assign(k: Str, v: V)
      requires forall j :: 0 <= j < |entries| ==> entries[j].0 in keys
      modifies this
      ensures State() == Assigned(old(State()), k, v)
    {
      AddKey(k);
      var i, found := Search(k);
      if !found {
        entries := entries[..i] + [(k, v)] + entries[i..];
      } else {
        entries := entries[i := (entries[i].0, v)];
      }
    }

    method Find(k: Str) returns (v: Option<V>)
      requires forall j :: 0 <= j < |entries| ==> entries[j].0 in keys
      modifies this`keys
      ensures State() == Searched(old(State()), k) && v == Lookup(old(State()), k)
    {
      var i, found := Search(k);
      return if found then Some(entries[i].1) else None;
    }

    method Erase(k: Str) returns (n: nat)
      requires forall j :: 0 <= j < |entries| ==> entries[j].0 in keys
      modifies this
      ensures State() == WithoutKey(old(State()), k) && n == |old(entries)| - |entries|
    {
      var i, found := Search(k);
      SearchedAnswersAlike(old(State()), k);
      if !found {
        return 0;
      }
      entries := entries[..i] + entries[i + 1..];
      keys := keys - {k};
      return 1;
    }

    method Clear()
      modifies this
      ensures State() == Cleared(old(State()))
    {
      entries := [];
      keys := map[];
    }
  }

  /** A zero in the side table answers like no entry at all. */
  lemma AskingChangesNoAnswer(keys: map<Str, nat>, k: Str)
    ensures forall a, b :: Before(Asked(keys, k), a, b) == Before(keys, a, b)
  {
  }

  lemma {:induction false} FirstNotBefore<V>(keys: map<Str, nat>, entries: seq<(Str, V)>, k: Str, i: nat)
    requires i <= |entries| && (i < |entries| ==> !Before(keys, entries[i].0, k))
    requires forall j :: 0 <= j < i ==> Before(keys, entries[j].0, k)
    ensures LowerBound(keys, entries, k) == i
  {
    var l := LowerBound(keys, entries, k);
  }

  lemma SearchedAnswersAlike<V>(f: Fifo<V>, k: Str)
    ensures var g := Searched(f, k);
            LowerBound(g.keys, g.entries, k) == LowerBound(f.keys, f.entries, k) &&
            Holds(g.keys, g.entries, k) == Holds(f.keys, f.entries, k)
  {
    AskingChangesNoAnswer(f.keys, k);
    FirstNotBefore(Searched(f, k).keys, f.entries, k, LowerBound(f.keys, f.entries, k));
  }

  // ---------------------------------------------------------------- the reference: an association list

  function PlaceOf<V>(a: seq<(Str, V)>, k: Str): (i: nat)
    ensures i <= |a| && (i < |a| ==> a[i].0 == k) && forall j :: 0 <= j < i ==> a[j].0 != k
  {
    if a == [] || a[0].0 == k then 0
    else
      var i := PlaceOf(a[1..], k);
      assert forall j :: 1 <= j < i + 1 ==> a[j] == a[1..][j - 1];
      1 + i
  }

  predicate Has<V>(a: seq<(Str, V)>, k: Str) {
    PlaceOf(a, k) < |a|
  }

  datatype Op<V> = Insert(k: Str, v: V) | Assign(k: Str, v: V) | Erase(k: Str) | Find(k: Str) | Clear

  /** New keys go to the end, known keys keep their place. */
  function OnList<V>(a: seq<(Str, V)>, op: Op<V>): seq<(Str, V)> {
    match op
    case Insert(k, v) => if Has(a, k) then a else a + [(k, v)]
    case Assign(k, v) => if Has(a, k) then a[PlaceOf(a, k) := (k, v)] else a + [(k, v)]
    case Erase(k) => if Has(a, k) then a[..PlaceOf(a, k)] + a[PlaceOf(a, k) + 1..] else a
    case Find(_) => a
    case Clear => []
  }

  function InList<V>(a: seq<(Str, V)>, k: Str): Option<V> {
    if Has(a, k) then Some(a[PlaceOf(a, k)].1) else None
  }

  function OnMap<V>(f: Fifo<V>, op: Op<V>): Fifo<V> {
    match op
    case Insert(k, v) => Inserted(f, k, v)
    case Assign(k, v) => Assigned(f, k, v)
    case Erase(k) => WithoutKey(f, k)
    case Find(k) => Searched(f, k)
    case Clear => Cleared(f)
  }

  // ---------------------------------------------------------------- the invariant over the side table

  predicate Stamped<V>(f: Fifo<V>) {
    && f.timestamp > 0
    && (forall i :: 0 <= i < |f.entries| ==> 0 < Stamp(f.keys, f.entries[i].0) < f.timestamp)
    && (forall i, j :: 0 <= i < j < |f.entries| ==> Stamp(f.keys, f.entries[i].0) < Stamp(f.keys, f.entries[j].0))
  }

  /** The entries stand in the order of their timestamps, and no other key has one. */
  ghost predicate Clean<V>(f: Fifo<V>) {
    Stamped(f) && forall k: Str :: Stamp(f.keys, k) > 0 <==> Has(f.entries, k)
  }

  lemma StampedIsDistinct<V>(f: Fifo<V>)
    requires Stamped(f)
    ensures forall j, l :: 0 <= j < l < |f.entries| ==> f.entries[j].0 != f.entries[l].0
  {
    forall j, l | 0 <= j < l < |f.entries| ensures f.entries[j].0 != f.entries[l].0 {
      assert Stamp(f.keys, f.entries[j].0) < Stamp(f.keys, f.entries[l].0);
    }
  }

  /** In a clean map the search by timestamps is the search by keys. */
  lemma CleanSearch<V>(f: Fifo<V>, k: Str)
    requires Clean(f)
    ensures LowerBound(f.keys, f.entries, k) == PlaceOf(f.entries, k)
      && Holds(f.keys, f.entries, k) == Has(f.entries, k)
  {
    var p := PlaceOf(f.entries, k);
    assert Stamp(f.keys, k) > 0 <==> Has(f.entries, k);
    forall j | 0 <= j < p ensures Before(f.keys, f.entries[j].0, k) {
      assert p < |f.entries| ==> Stamp(f.keys, f.entries[j].0) < Stamp(f.keys, f.entries[p].0);
    }
    FirstNotBefore(f.keys, f.entries, k, p);
  }

  lemma LookupIsListLookup<V>(f: Fifo<V>, k: Str)
    requires Clean(f)
    ensures Lookup(f, k) == InList(f.entries, k)
  {
    CleanSearch(f, k);
  }

  /** A key with timestamp 0: looked up, but not there. */
  predicate Polluted<V>(f: Fifo<V>, k: Str) {
    k in f.keys && f.keys[k] == 0
  }

  lemma HasSnoc<V>(a: seq<(Str, V)>, k: Str, v: V, x: Str)
    ensures Has(a + [(k, v)], x) <==> Has(a, x) || x == k
  {
    var b := a + [(k, v)];
    if Has(a, x) {
      assert b[PlaceOf(a, x)].0 == x;
    } else {
      assert forall j | 0 <= j < |a| :: b[j] == a[j] && a[j].0 != x;
      assert b[|a|].0 == k;
    }
  }

  function Appended<V>(f: Fifo<V>, k: Str, v: V): Fifo<V> {
    WithKey(f, k).(entries := f.entries + [(k, v)])
  }

  lemma OtherStamps<V>(f: Fifo<V>, k: Str)
    requires Clean(f) && k !in f.keys
    ensures forall x: Str :: Stamp(WithKey(f, k).keys, x) == if x == k then f.timestamp else Stamp(f.keys, x)
    ensures forall i :: 0 <= i < |f.entries| ==> f.entries[i].0 != k
  {
  }

  lemma AppendedIsStamped<V>(f: Fifo<V>, k: Str, v: V)
    requires Clean(f) && k !in f.keys
    ensures Stamped(Appended(f, k, v))
  {
    OtherStamps(f, k);
    hide Stamp, PlaceOf;
  }

  lemma NewKeyIsClean<V>(f: Fifo<V>, k: Str, v: V)
    requires Clean(f) && k !in f.keys
    ensures Clean(Appended(f, k, v)) && LowerBound(WithKey(f, k).keys, f.entries, k) == |f.entries|
  {
    var g := Appended(f, k, v);
    OtherStamps(f, k);
    AppendedIsStamped(f, k, v);
    forall i | 0 <= i < |f.entries| ensures Before(g.keys, f.entries[i].0, k) {
    }
    FirstNotBefore(g.keys, f.entries, k, |f.entries|);
    hide Stamp, Stamped, LowerBound;
    forall x: Str ensures Stamp(g.keys, x) > 0 <==> Has(g.entries, x) {
      HasSnoc(f.entries, k, v, x);
      assert Stamp(f.keys, x) > 0 <==> Has(f.entries, x);
    }
  }

  lemma KnownKeyIsClean<V>(f: Fifo<V>, k: Str)
    requires Clean(f) && Has(f.entries, k)
    ensures k in f.keys && f.keys[k] > 0 && Clean(WithKey(f, k)) && WithKey(f, k).keys == f.keys
  {
    assert Stamp(f.keys, k) > 0;
  }

  /** A value changes in place: neither the order nor the keys do. */
  lemma ValueIsNoKey<V>(f: Fifo<V>, i: nat, v: V)
    requires Clean(f) && i < |f.entries|
    ensures Clean(f.(entries := f.entries[i := (f.entries[i].0, v)]))
  {
    hide PlaceOf, Stamp;
    var g := f.(entries := f.entries[i := (f.entries[i].0, v)]);
    assert forall j | 0 <= j < |f.entries| :: g.entries[j].0 == f.entries[j].0;
    forall x: Str ensures Has(g.entries, x) <==> Has(f.entries, x) {
      SameKeysSameHas(f.entries, g.entries, x);
      SameKeysSameHas(g.entries, f.entries, x);
    }
    assert forall x: Str :: Stamp(f.keys, x) > 0 <==> Has(f.entries, x);
  }

  lemma SameKeysSameHas<V>(a: seq<(Str, V)>, b: seq<(Str, V)>, k: Str)
    requires |a| == |b| && forall j | 0 <= j < |a| :: a[j].0 == b[j].0
    ensures Has(a, k) ==> Has(b, k)
  {
    if Has(a, k) {
      assert b[PlaceOf(a, k)].0 == k;
    }
  }

  function Removed<V>(f: Fifo<V>, i: nat): Fifo<V>
    requires i < |f.entries|
  {
    f.(keys := f.keys - {f.entries[i].0}, entries := f.entries[..i] + f.entries[i + 1..])
  }

  lemma HasWithout<V>(a: seq<(Str, V)>, i: nat, x: Str)
    requires i < |a| && forall j, l :: 0 <= j < l < |a| ==> a[j].0 != a[l].0
    ensures Has(a[..i] + a[i + 1..], x) <==> Has(a, x) && x != a[i].0
  {
    var b := a[..i] + a[i + 1..];
    assert forall j | 0 <= j < |b| :: b[j] == a[if j < i then j else j + 1];
    if Has(b, x) {
      var p := PlaceOf(b, x);
      assert a[if p < i then p else p + 1].0 == x;
    }
    if Has(a, x) && x != a[i].0 {
      var p := PlaceOf(a, x);
      assert b[if p < i then p else p - 1].0 == x;
    }
  }

  lemma RemovedEntries<V>(f: Fifo<V>, i: nat)
    requires Clean(f) && i < |f.entries|
    ensures var g, k := Removed(f, i), f.entries[i].0;
            && g.timestamp == f.timestamp && |g.entries| == |f.entries| - 1
            && (forall j | 0 <= j < |g.entries| :: g.entries[j] == f.entries[if j < i then j else j + 1])
            && (forall x: Str :: Stamp(g.keys, x) == if x == k then 0 else Stamp(f.keys, x))
            && (forall j | 0 <= j < |f.entries| && j != i :: f.entries[j].0 != k)
  {
    StampedIsDistinct(f);
    hide Stamped;
  }

  lemma RemovedIsStamped<V>(f: Fifo<V>, i: nat)
    requires Clean(f) && i < |f.entries|
    ensures Stamped(Removed(f, i))
  {
    RemovedEntries(f, i);
    hide Removed, Stamp, PlaceOf;
  }

  lemma RemovedIsClean<V>(f: Fifo<V>, i: nat)
    requires Clean(f) && i < |f.entries|
    ensures Clean(Removed(f, i))
  {
    var g := Removed(f, i);
    RemovedEntries(f, i);
    RemovedIsStamped(f, i);
    StampedIsDistinct(f);
    hide Stamp, Stamped;
    forall x: Str ensures Stamp(g.keys, x) > 0 <==> Has(g.entries, x) {
      HasWithout(f.entries, i, x);
      assert Stamp(f.keys, x) > 0 <==> Has(f.entries, x);
    }
  }

  lemma SearchedIsClean<V>(f: Fifo<V>, k: Str)
    requires Clean(f)
    ensures Clean(Searched(f, k))
  {
    assert forall x: Str :: Stamp(Searched(f, k).keys, x) == Stamp(f.keys, x);
    assert forall x: Str :: Stamp(f.keys, x) > 0 <==> Has(f.entries, x);
  }

  // ---------------------------------------------------------------- one call

  /** The call does not insert a key of `polluted`. */
  predicate Avoids<V>(op: Op<V>, polluted: set<Str>) {
    (op.Insert? || op.Assign?) ==> op.k !in polluted
  }

  lemma InsertedAtEnd<V>(f: Fifo<V>, k: Str, v: V)
    requires LowerBound(WithKey(f, k).keys, f.entries, k) == |f.entries|
    ensures Inserted(f, k, v) == Assigned(f, k, v) == Appended(f, k, v)
  {
    hide WithKey, LowerBound;
    assert f.entries[..|f.entries|] + [(k, v)] + f.entries[|f.entries|..] == f.entries + [(k, v)];
    assert WithKey(f, k).entries == f.entries by { KeyAddsNoEntry(f, k); }
  }

  lemma KeyAddsNoEntry<V>(f: Fifo<V>, k: Str)
    ensures WithKey(f, k).entries == f.entries
  {
  }

  lemma InsertedInPlace<V>(f: Fifo<V>, k: Str, v: V)
    requires Clean(f) && Has(f.entries, k)
    ensures Clean(WithKey(f, k)) && WithKey(f, k).entries == f.entries && Inserted(f, k, v) == WithKey(f, k)
    ensures Assigned(f, k, v) == WithKey(f, k).(entries := f.entries[PlaceOf(f.entries, k) := (k, v)])
  {
    KnownKeyIsClean(f, k);
    KeyAddsNoEntry(f, k);
    CleanSearch(WithKey(f, k), k);
    hide Clean, Holds, LowerBound, WithKey;
  }

  lemma InsertOnClean<V>(f: Fifo<V>, k: Str, v: V)
    requires Clean(f) && !Polluted(f, k)
    ensures var g := Inserted(f, k, v);
            Clean(g) && g.entries == OnList(f.entries, Op.Insert(k, v))
  {
    hide Clean, Polluted, Inserted, WithKey;
    if Has(f.entries, k) {
      InsertedInPlace(f, k, v);
    } else {
      Unknown(f, k);
      NewKeyIsClean(f, k, v);
      InsertedAtEnd(f, k, v);
    }
  }

  lemma Unknown<V>(f: Fifo<V>, k: Str)
    requires Clean(f) && !Polluted(f, k) && !Has(f.entries, k)
    ensures k !in f.keys
  {
    assert !(Stamp(f.keys, k) > 0);
  }

  lemma AssignOnClean<V>(f: Fifo<V>, k: Str, v: V)
    requires Clean(f) && !Polluted(f, k)
    ensures var g := Assigned(f, k, v);
            Clean(g) && g.entries == OnList(f.entries, Op.Assign(k, v))
  {
    hide Clean, Polluted, Assigned, WithKey;
    if Has(f.entries, k) {
      InsertedInPlace(f, k, v);
      ValueIsNoKey(WithKey(f, k), PlaceOf(f.entries, k), v);
    } else {
      Unknown(f, k);
      NewKeyIsClean(f, k, v);
      InsertedAtEnd(f, k, v);
    }
  }

  lemma EraseOnClean<V>(f: Fifo<V>, k: Str)
    requires Clean(f)
    ensures var g := WithoutKey(f, k);
            Clean(g) && g.entries == OnList(f.entries, Op.Erase(k))
  {
    hide Clean, LowerBound, Holds, PlaceOf, Asked;
    SearchedIsClean(f, k);
    CleanSearch(Searched(f, k), k);
    assert Searched(f, k).entries == f.entries;
    if Has(f.entries, k) {
      RemovedIsClean(Searched(f, k), PlaceOf(f.entries, k));
    }
  }

  /** What one call does to the keys with timestamp 0, as the association list sees it. */
  function Pollution<V>(a: seq<(Str, V)>, polluted: set<Str>, op: Op<V>): set<Str> {
    match op
    case Clear => {}
    case Find(k) => if a == [] || Has(a, k) then polluted else polluted + {k}
    case Erase(k) => if a == [] || Has(a, k) then polluted else polluted + {k}
    case _ => polluted
  }

  ghost predicate PollutedAre<V>(f: Fifo<V>, polluted: set<Str>) {
    forall k: Str :: Polluted(f, k) <==> k in polluted
  }

  lemma CallOnClean<V>(f: Fifo<V>, polluted: set<Str>, op: Op<V>)
    requires Clean(f) && PollutedAre(f, polluted)
    requires Avoids(op, polluted)
    ensures Clean(OnMap(f, op)) && OnMap(f, op).entries == OnList(f.entries, op)
    ensures PollutedAre(OnMap(f, op), Pollution(f.entries, polluted, op))
  {
    match op {
      case Insert(k, v) =>
        assert !Polluted(f, k);
        InsertOnClean(f, k, v);
        InsertPollutesNothing(f, k, v);
      case Assign(k, v) =>
        assert !Polluted(f, k);
        AssignOnClean(f, k, v);
        InsertPollutesNothing(f, k, v);
      case Erase(k) =>
        EraseOnClean(f, k);
        ErasePollutes(f, polluted, k);
      case Find(k) =>
        SearchedIsClean(f, k);
        FindPollutes(f, polluted, k);
      case Clear =>
    }
  }

  lemma InsertPollutesNothing<V>(f: Fifo<V>, k: Str, v: V)
    requires Clean(f) && !Polluted(f, k)
    ensures forall x: Str :: Polluted(WithKey(f, k), x) <==> Polluted(f, x)
    ensures Inserted(f, k, v).keys == Assigned(f, k, v).keys == WithKey(f, k).keys
  {
  }

  lemma FindPollutes<V>(f: Fifo<V>, polluted: set<Str>, k: Str)
    requires Clean(f) && PollutedAre(f, polluted)
    ensures PollutedAre(Searched(f, k), Pollution(f.entries, polluted, Op<V>.Find(k)))
  {
    assert Stamp(f.keys, k) > 0 <==> Has(f.entries, k);
    forall x: Str ensures Polluted(Searched(f, k), x) <==> x in Pollution(f.entries, polluted, Op<V>.Find(k)) {
      assert Polluted(f, x) <==> x in polluted;
    }
  }

  lemma ErasePollutes<V>(f: Fifo<V>, polluted: set<Str>, k: Str)
    requires Clean(f) && PollutedAre(f, polluted)
    ensures PollutedAre(WithoutKey(f, k), Pollution(f.entries, polluted, Op<V>.Erase(k)))
  {
    SearchedAnswersAlike(f, k);
    CleanSearch(f, k);
    assert Stamp(f.keys, k) > 0 <==> Has(f.entries, k);
    forall x: Str ensures Polluted(WithoutKey(f, k), x) <==> x in Pollution(f.entries, polluted, Op<V>.Erase(k)) {
      assert Polluted(f, x) <==> x in polluted;
    }
  }

  // ---------------------------------------------------------------- whole histories

  function MapAfter<V>(ops: seq<Op<V>>): Fifo<V> {
    if ops == [] then Fifo(map[], 1, []) else OnMap(MapAfter(ops[..|ops| - 1]), ops[|ops| - 1])
  }

  function ListAfter<V>(ops: seq<Op<V>>): seq<(Str, V)> {
    if ops == [] then [] else OnList(ListAfter(ops[..|ops| - 1]), ops[|ops| - 1])
  }

  /** The keys looked up in vain since the last clear: a client can tell from its own calls. */
  function LookedUpInVain<V>(ops: seq<Op<V>>): set<Str> {
    if ops == [] then {}
    else Pollution(ListAfter(ops[..|ops| - 1]), LookedUpInVain(ops[..|ops| - 1]), ops[|ops| - 1])
  }

  /** No call inserts a key that was looked up in vain before. */
  predicate NoLateInsert<V>(ops: seq<Op<V>>) {
    ops == [] || (NoLateInsert(ops[..|ops| - 1]) && Avoids(ops[|ops| - 1], LookedUpInVain(ops[..|ops| - 1])))
  }

  /** Then the map is the association list: same order, same values, same answers. */
  lemma {:induction false} MapIsList<V>(ops: seq<Op<V>>, k: Str)
    requires NoLateInsert(ops)
    ensures Clean(MapAfter(ops)) && PollutedAre(MapAfter(ops), LookedUpInVain(ops))
    ensures MapAfter(ops).entries == ListAfter(ops) && Lookup(MapAfter(ops), k) == InList(ListAfter(ops), k)
  {
    hide OnMap, OnList, Lookup, InList, Pollution, Avoids;
    if ops == [] {
      StartsClean<V>();
    } else {
      var before := ops[..|ops| - 1];
      MapIsList(before, k);
      hide Clean, PollutedAre;
      CallOnClean(MapAfter(before), LookedUpInVain(before), ops[|ops| - 1]);
    }
    LookupIsListLookup(MapAfter(ops), k);
  }

  lemma StartsClean<V>()
    ensures Clean(Fifo<V>.Fifo(map[], 1, [])) && PollutedAre(Fifo<V>.Fifo(map[], 1, []), {})
  {
  }

  /** A late insert itself still goes to the end, but without a timestamp. */
  lemma LateInsert<V>(f: Fifo<V>, k: Str, v: V)
    requires Clean(f) && Polluted(f, k)
    ensures Inserted(f, k, v) == Appended(f, k, v) && Appended(f, k, v).keys == f.keys
  {
    forall j | 0 <= j < |f.entries| ensures Before(f.keys, f.entries[j].0, k) {
    }
    FirstNotBefore(f.keys, f.entries, k, |f.entries|);
    InsertedAtEnd(f, k, v);
  }

  /** The condition is needed: after a late insert of `k`, the next new key comes in front of it. */
  lemma LateInsertBreaksOrder<V>(f: Fifo<V>, k: Str, v: V, x: Str, w: V)
    requires Clean(f) && Polluted(f, k) && x !in f.keys
    ensures Inserted(Inserted(f, k, v), x, w).entries == f.entries + [(x, w), (k, v)]
  {
    var g, n := Inserted(f, k, v), |f.entries|;
    LateInsert(f, k, v);
    var h := WithKey(g, x);
    assert h.entries[n] == (k, v) && Stamp(h.keys, k) == 0 && Stamp(h.keys, x) == g.timestamp > 0;
    forall j | 0 <= j < n ensures Before(h.keys, h.entries[j].0, x) {
      assert h.entries[j] == f.entries[j] && Stamp(h.keys, f.entries[j].0) == Stamp(f.keys, f.entries[j].0);
    }
    FirstNotBefore(h.keys, h.entries, x, n);
    assert h.entries[..n] == f.entries && h.entries[n..] == [(k, v)];
  }

  /** And of two late inserts the second is lost: without timestamps the two keys count as one. */
  lemma SecondLateInsertIsLost<V>(f: Fifo<V>, k: Str, v: V, x: Str, w: V)
    requires Clean(f) && Polluted(f, k) && Polluted(f, x) && k != x
    ensures Inserted(Inserted(f, k, v), x, w).entries == f.entries + [(k, v)]
  {
    var g, n := Inserted(f, k, v), |f.entries|;
    LateInsert(f, k, v);
    var h := WithKey(g, x);
    assert h.entries[n] == (k, v) && h.keys == f.keys;
    forall j | 0 <= j < n ensures Before(h.keys, h.entries[j].0, x) {
      assert h.entries[j] == f.entries[j];
    }
    FirstNotBefore(h.keys, h.entries, x, n);
  }

  // ---------------------------------------------------------------- exactly when map and list agree

  /** An insert keeps the invariant exactly if its key was not looked up in vain. */
  lemma InsertKeepsCleanIff<V>(f: Fifo<V>, k: Str, v: V)
    requires Clean(f)
    ensures Clean(Inserted(f, k, v)) <==> !Polluted(f, k)
  {
    if Polluted(f, k) {
      LateInsert(f, k, v);
      assert Inserted(f, k, v).entries[|f.entries|] == (k, v);
    } else {
      InsertOnClean(f, k, v);
    }
  }

  predicate SameAfter<V(==)>(ops: seq<Op<V>>) {
    MapAfter(ops).entries == ListAfter(ops)
  }

  /** After the first `n` calls the map is the list, and it still is if one more key is inserted then. */
  predicate AgreesAt<V(==)>(ops: seq<Op<V>>, n: nat, x: Str, w: V)
    requires n <= |ops|
  {
    SameAfter(ops[..n]) && SameAfter(ops[..n] + [Op.Insert(x, w)])
  }

  /** A client that may insert one more key at any point of the history cannot tell the map from the list. */
  ghost predicate AlwaysAgrees<V(!new)>(ops: seq<Op<V>>) {
    forall n: nat, x: Str, w: V :: n <= |ops| ==> AgreesAt(ops, n, x, w)
  }

  lemma LastCall<V>(ops: seq<Op<V>>, op: Op<V>)
    ensures MapAfter(ops + [op]) == OnMap(MapAfter(ops), op) && ListAfter(ops + [op]) == OnList(ListAfter(ops), op)
    ensures NoLateInsert(ops + [op]) <==> NoLateInsert(ops) && Avoids(op, LookedUpInVain(ops))
  {
    assert (ops + [op])[..|ops|] == ops;
  }

  /** How many calls of a history insert or assign. */
  function Stores<V>(ops: seq<Op<V>>): nat {
    if ops == [] then 0
    else Stores(ops[..|ops| - 1]) + (if ops[|ops| - 1].Insert? || ops[|ops| - 1].Assign? then 1 else 0)
  }

  /** Every insert and every assignment uses up a timestamp, also for a known key; nothing gives one back. */
  lemma {:induction false} TimestampCounts<V>(ops: seq<Op<V>>)
    ensures MapAfter(ops).timestamp == 1 + Stores(ops)
  {
    hide LowerBound, Holds, Asked;
    if ops != [] {
      TimestampCounts(ops[..|ops| - 1]);
    }
  }

  lemma {:induction false} PrefixHasNoLateInsert<V>(ops: seq<Op<V>>, n: nat)
    requires NoLateInsert(ops) && n <= |ops|
    ensures NoLateInsert(ops[..n])
  {
    if n < |ops| {
      PrefixHasNoLateInsert(ops[..|ops| - 1], n);
      assert ops[..|ops| - 1][..n] == ops[..n];
    } else {
      assert ops[..n] == ops;
    }
  }

  /** One insert agrees in every clean map, even a late one. */
  lemma OneInsertAgrees<V>(f: Fifo<V>, x: Str, w: V)
    requires Clean(f)
    ensures Inserted(f, x, w).entries == OnList(f.entries, Op.Insert(x, w))
  {
    if Polluted(f, x) {
      LateInsert(f, x, w);
      assert Stamp(f.keys, x) == 0;
    } else {
      InsertOnClean(f, x, w);
    }
  }

  lemma {:induction false} LongerThanAll(keys: set<Str>) returns (n: nat)
    ensures forall k | k in keys :: |k| < n
  {
    n := 0;
    if keys != {} {
      var key :| key in keys;
      n := LongerThanAll(keys - {key});
      n := if |key| < n then n else |key| + 1;
      forall k | k in keys ensures |k| < n {
        assert k == key || k in keys - {key};
      }
    }
  }

  lemma KeyOutside(keys: set<Str>) returns (x: Str)
    ensures x !in keys
  {
    var n := LongerThanAll(keys);
    x := seq(n, _ => ZERO);
  }

  lemma NoLateInsertAgrees<V>(ops: seq<Op<V>>, n: nat, x: Str, w: V)
    requires NoLateInsert(ops) && n <= |ops|
    ensures AgreesAt(ops, n, x, w)
  {
    PrefixHasNoLateInsert(ops, n);
    MapIsList(ops[..n], x);
    LastCall(ops[..n], Op.Insert(x, w));
    OneInsertAgrees(MapAfter(ops[..n]), x, w);
  }

  /** A late insert or assignment, and then a key never used before: the map has them the wrong way round. */
  lemma LateInsertShows<V>(ops: seq<Op<V>>, op: Op<V>, x: Str, w: V)
    requires NoLateInsert(ops) && !Avoids(op, LookedUpInVain(ops)) && x !in MapAfter(ops).keys
    ensures !SameAfter(ops + [op] + [Op.Insert(x, w)])
    ensures MapAfter(ops + [op] + [Op.Insert(x, w)]).entries == ListAfter(ops) + [(x, w), (op.k, op.v)]
    ensures ListAfter(ops + [op] + [Op.Insert(x, w)]) == ListAfter(ops) + [(op.k, op.v), (x, w)]
  {
    var f := MapAfter(ops);
    MapIsList(ops, x);
    assert Polluted(f, op.k);
    LateInsert(f, op.k, op.v);
    AssignedLate(f, op.k, op.v);
    LateInsertBreaksOrder(f, op.k, op.v, x, w);
    LastCall(ops, op);
    LastCall(ops + [op], Op.Insert(x, w));
    ListTakesBoth(f, op, x, w);
    assert ListAfter(ops + [op] + [Op.Insert(x, w)])[|f.entries|].0 == op.k != x;
  }

  lemma ListTakesBoth<V>(f: Fifo<V>, op: Op<V>, x: Str, w: V)
    requires Clean(f) && (op.Insert? || op.Assign?) && Polluted(f, op.k) && x !in f.keys
    ensures OnList(OnList(f.entries, op), Op.Insert(x, w)) == f.entries + [(op.k, op.v), (x, w)]
  {
    assert Stamp(f.keys, op.k) == 0 && Stamp(f.keys, x) == 0;
    assert !Has(f.entries, op.k) && !Has(f.entries, x);
    HasSnoc(f.entries, op.k, op.v, x);
  }

  lemma AssignedLate<V>(f: Fifo<V>, k: Str, v: V)
    requires Clean(f) && Polluted(f, k)
    ensures Assigned(f, k, v) == Inserted(f, k, v)
  {
    forall j | 0 <= j < |f.entries| ensures Before(f.keys, f.entries[j].0, k) {
    }
    FirstNotBefore(f.keys, f.entries, k, |f.entries|);
    InsertedAtEnd(f, k, v);
  }

  lemma {:induction false} SomeLateInsertShows<V(!new)>(ops: seq<Op<V>>)
    requires !NoLateInsert(ops)
    ensures !AlwaysAgrees(ops)
  {
    var m := |ops| - 1;
    var before, op := ops[..m], ops[m];
    assert ops == before + [op];
    LastCall(before, op);
    if NoLateInsert(before) {
      var x := KeyOutside(MapAfter(before).keys.Keys);
      LateInsertShows(before, op, x, op.v);
      assert ops[..m + 1] == before + [op];
      assert !AgreesAt(ops, m + 1, x, op.v);
    } else {
      SomeLateInsertShows(before);
      var n: nat, x: Str, w: V :| n <= |before| && !AgreesAt(before, n, x, w);
      assert before[..n] == ops[..n];
      assert !AgreesAt(ops, n, x, w);
    }
  }

  /** Over a history the map is the list, at every point and under one more insert, if and only if no insert is late. */
  lemma MapIsListIff<V(!new)>(ops: seq<Op<V>>)
    ensures AlwaysAgrees(ops) <==> NoLateInsert(ops)
  {
    if NoLateInsert(ops) {
      forall n: nat, x: Str, w: V | n <= |ops| ensures AgreesAt(ops, n, x, w) {
        NoLateInsertAgrees(ops, n, x, w);
      }
    } else {
      SomeLateInsertShows(ops);
    }
  }

  lemma OneInsert<V>(a: Str, u: V)
    ensures var ops := [Op.Insert(a, u)];
            && MapAfter(ops) == Fifo(map[a := 1], 2, [(a, u)]) && ListAfter(ops) == [(a, u)]
            && LookedUpInVain(ops) == {} && NoLateInsert(ops)
  {
    var none: seq<Op<V>>, insert := [], Op.Insert(a, u);
    LastCall(none, insert);
    assert none + [insert] == [insert] && [insert][..0] == none;
    assert MapAfter(none) == Fifo(map[], 1, []) && ListAfter(none) == [] && LookedUpInVain(none) == {};
  }

  lemma FoundInVain<V>(a: Str, u: V, b: Str)
    requires a != b
    ensures var ops := [Op.Insert(a, u), Op.Find(b)];
            && MapAfter(ops) == Fifo(map[a := 1, b := 0], 2, [(a, u)])
            && ListAfter(ops) == [(a, u)] && LookedUpInVain(ops) == {b} && NoLateInsert(ops)
  {
    var ops, find := [Op.Insert(a, u)], Op.Find(b);
    OneInsert(a, u);
    LastCall(ops, find);
    LookedUpSnoc(ops, find);
    hide MapAfter, ListAfter, LookedUpInVain, NoLateInsert;
    assert ops + [find] == [Op.Insert(a, u), Op.Find(b)];
    assert !Has([(a, u)], b);
  }

  lemma LookedUpSnoc<V>(ops: seq<Op<V>>, op: Op<V>)
    ensures LookedUpInVain(ops + [op]) == Pollution(ListAfter(ops), LookedUpInVain(ops), op)
  {
    assert (ops + [op])[..|ops|] == ops;
  }

  lemma LateThen<V>(a: Str, u: V, b: Str, v: V, c: Str)
    requires a != b && b != c && a != c
    ensures var ops := [Op.Insert(a, u), Op.Find(b)];
            && NoLateInsert(ops) && !Avoids(Op.Insert(b, v), LookedUpInVain(ops))
            && c !in MapAfter(ops).keys && ListAfter(ops) == [(a, u)]
  {
    FoundInVain(a, u, b);
    hide MapAfter, ListAfter, LookedUpInVain, NoLateInsert;
  }

  /** Insert a, find b, insert b, insert c: the map then has the keys in the order a, c, b. */
  lemma OutOfOrder<V>(a: Str, b: Str, c: Str, u: V, v: V, w: V)
    requires a != b && b != c && a != c
    ensures var ops := [Op.Insert(a, u), Op.Find(b), Op.Insert(b, v), Op.Insert(c, w)];
            MapAfter(ops).entries == [(a, u), (c, w), (b, v)] && ListAfter(ops) == [(a, u), (b, v), (c, w)]
  {
    hide *;
    var ops, late, next := [Op.Insert(a, u), Op.Find(b)], Op.Insert(b, v), Op.Insert(c, w);
    LateThen(a, u, b, v, c);
    LateInsertShows(ops, late, c, w);
    assert ops + [late] + [next] == [Op.Insert(a, u), Op.Find(b), Op.Insert(b, v), Op.Insert(c, w)];
  }
}
