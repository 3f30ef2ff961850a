/**
 flatten: the object that holds every leaf of a value under the pointer to it.
 */
module JsonFlatten {
  import opened Bytes
  import opened JsonValues
  import opened JsonPointers

  // ---------------------------------------------------------------- ordered maps

  function Lookup(ms: seq<Member>, key: Str): Option<Json> {
    if ms == [] then None
    else if ms[0].key == key then Some(ms[0].value)
    else Lookup(ms[1..], key)
  }

  lemma {:induction false} LookupKey(ms: seq<Member>, key: Str)
    ensures Lookup(ms, key).Some? <==> exists i :: 0 <= i < |ms| && ms[i].key == key
  {
    if ms != [] {
      LookupKey(ms[1..], key);
      if i :| 0 <= i < |ms| && ms[i].key == key {
        if i > 0 {
          assert ms[1..][i - 1].key == key;
        }
      }
      if i :| 0 <= i < |ms[1..]| && ms[1..][i].key == key {
        assert ms[i + 1].key == key;
      }
    }
  }

  lemma {:induction false} LookupAt(ms: seq<Member>, i: nat)
    requires Sorted(ms) && i < |ms|
    ensures Lookup(ms, ms[i].key) == Some(ms[i].value)
  {
    if i > 0 {
      LessTotal(ms[0].key, ms[i].key);
      LookupAt(ms[1..], i - 1);
    }
  }

  lemma {:induction false} PutKeys(ms: seq<Member>, key: Str, value: Json)
    ensures forall i :: 0 <= i < |Put(ms, key, value)| ==>
      Put(ms, key, value)[i].key == key || exists j :: 0 <= j < |ms| && ms[j].key == Put(ms, key, value)[i].key
  {
    if ms != [] {
      var r := Put(ms, key, value);
      PutKeys(ms[1..], key, value);
      forall i | 0 <= i < |r| && r[i].key != key ensures exists j :: 0 <= j < |ms| && ms[j].key == r[i].key {
        if ms[0].key == key {
          assert r[i] == ms[i];
        } else if Less(key, ms[0].key) {
          assert r[i] == ms[i - 1];
        } else if i > 0 {
          assert r[i] == Put(ms[1..], key, value)[i - 1];
          var j :| 0 <= j < |ms[1..]| && ms[1..][j].key == r[i].key;
          assert ms[j + 1].key == r[i].key;
        }
      }
    }
  }

  lemma {:induction false} PutSorted(ms: seq<Member>, key: Str, value: Json)
    requires Sorted(ms)
    ensures Sorted(Put(ms, key, value))
  {
    if ms != [] {
      LessTotal(key, ms[0].key);
      if ms[0].key != key && Less(key, ms[0].key) {
        var r := [Member(key, value)] + ms;
        forall i, j | 0 <= i < j < |r| ensures Less(r[i].key, r[j].key) {
          if i == 0 && j > 1 {
            assert Less(ms[0].key, ms[j - 1].key);
            LessTransitive(key, ms[0].key, ms[j - 1].key);
          }
        }
      } else if ms[0].key != key {
        var rest := Put(ms[1..], key, value);
        PutSorted(ms[1..], key, value);
        PutKeys(ms[1..], key, value);
        forall j | 0 <= j < |rest| ensures Less(ms[0].key, rest[j].key) {
          if rest[j].key != key {
            var m :| 0 <= m < |ms[1..]| && ms[1..][m].key == rest[j].key;
            assert ms[m + 1].key == rest[j].key;
          }
        }
        var r := [ms[0]] + rest;
        forall i, j | 0 <= i < j < |r| ensures Less(r[i].key, r[j].key) {
          assert r[j] == rest[j - 1];
          if i > 0 {
            assert r[i] == rest[i - 1];
          }
        }
      }
    }
  }

  /** std::map: a key maps to what was last put under it. */
  lemma {:induction false} LookupPut(ms: seq<Member>, key: Str, value: Json, x: Str)
    requires Sorted(ms)
    ensures Lookup(Put(ms, key, value), x) == if x == key then Some(value) else Lookup(ms, x)
  {
    if ms != [] {
      if ms[0].key == key {
      } else if Less(key, ms[0].key) {
        assert ([Member(key, value)] + ms)[1..] == ms;
      } else {
        LookupPut(ms[1..], key, value, x);
        assert ([ms[0]] + Put(ms[1..], key, value))[1..] == Put(ms[1..], key, value);
      }
    }
  }

  /** Two ordered maps with the same associations are the same. */
  lemma {:induction false} SameAssociations(a: seq<Member>, c: seq<Member>)
    requires Sorted(a) && Sorted(c) && forall x :: Lookup(a, x) == Lookup(c, x)
    ensures a == c
  {
    if a != [] {
      BothNonempty(a, c);
    }
    if c != [] {
      BothNonempty(c, a);
    }
    if a != [] {
      FirstKeys(a, c);
      FirstKeys(c, a);
      LessTotal(a[0].key, c[0].key);
      var k := a[0].key;
      assert Lookup(a, k) == Lookup(c, k);
      forall x ensures Lookup(a[1..], x) == Lookup(c[1..], x) {
        if x == k {
          NotLater(a, k);
          NotLater(c, k);
        } else {
          assert Lookup(a, x) == Lookup(c, x);
        }
      }
      SameAssociations(a[1..], c[1..]);
      assert a == [a[0]] + a[1..] && c == [c[0]] + c[1..];
    }
  }

  lemma BothNonempty(a: seq<Member>, c: seq<Member>)
    requires a != [] && forall x :: Lookup(a, x) == Lookup(c, x)
    ensures c != []
  {
    assert Lookup(a, a[0].key) == Lookup(c, a[0].key);
  }

  lemma FirstKeys(a: seq<Member>, c: seq<Member>)
    requires a != [] && c != [] && Sorted(c) && forall x :: Lookup(a, x) == Lookup(c, x)
    ensures !Less(a[0].key, c[0].key)
  {
    assert Lookup(c, a[0].key) == Lookup(a, a[0].key);
    LookupKey(c, a[0].key);
    var i :| 0 <= i < |c| && c[i].key == a[0].key;
    LessTotal(c[0].key, c[i].key);
  }

  lemma NotLater(a: seq<Member>, k: Str)
    requires a != [] && Sorted(a) && k == a[0].key
    ensures Lookup(a[1..], k).None?
  {
    LookupKey(a[1..], k);
    if i :| 0 <= i < |a[1..]| && a[1..][i].key == k {
      assert Less(a[0].key, a[i + 1].key);
      LessTotal(k, k);
    }
  }

  // ---------------------------------------------------------------- leaves and flatten

  /** What flatten writes as one entry: primitives, and empty containers as null. */
  predicate IsLeaf(v: Json) {
    match v
    case Array(a) => a == []
    case Object(ms) => ms == []
    case _ => true
  }

  function LeafValue(v: Json): Json {
    if v.Array? || v.Object? then Null else v
  }

  /** The children of a container under their reference tokens, in order. */
  function Kids(v: Json): (r: seq<Member>)
    ensures forall i :: 0 <= i < |r| ==> r[i].value < v
    ensures |r| == 0 <==> IsLeaf(v)
  {
    match v
    case Array(a) => seq(|a|, i requires 0 <= i < |a| => Member(Decimal(i), a[i]))
    case Object(ms) => ms
    case _ => []
  }

  function Child(v: Json, token: Str): Option<Json> {
    Lookup(Kids(v), token)
  }

  /** The leaf a list of reference tokens leads to. */
  function LeafAt(v: Json, path: seq<Str>): Option<Json>
    decreases path
  {
    if path == [] then if IsLeaf(v) then Some(LeafValue(v)) else None
    else match Child(v, path[0])
    case None => None
    case Some(child) => LeafAt(child, path[1..])
  }

  /** Every object inside is an ordered map. */
  predicate Ordered(v: Json) {
    match v
    case Array(a) => forall k :: 0 <= k < |a| ==> Ordered(a[k])
    case Object(ms) => Sorted(ms) && forall k :: 0 <= k < |ms| ==> Ordered(ms[k].value)
    case _ => true
  }

  /** json_pointer::flatten: the result object after the value at `ref` was added to it. */
  function Flatten(ref: Str, v: Json, result: seq<Member>): seq<Member>
    decreases v, 1, 0
  {
    if IsLeaf(v) then Put(result, ref, LeafValue(v))
    else FlattenKids(ref, v, 0, result)
  }

  function FlattenKids(ref: Str, v: Json, i: nat, result: seq<Member>): seq<Member>
    requires i <= |Kids(v)|
    decreases v, 0, |Kids(v)| - i
  {
    if i == |Kids(v)| then result
    else
      var kid := Kids(v)[i];
      FlattenKids(ref, v, i + 1, Flatten(ref + [SLASH] + EscapeToken(kid.key), kid.value, result))
  }

  class FlatObject {
    var members: seq<Member>

    constructor ()
      ensures members == []
    {
      members := [];
    }

    method Store(key: Str, value: Json)
      modifies this
      ensures members == Put(old(members), key, value)
    {
      members := Put(members, key, value);
    }
  }

  lemma {:induction false} DigitsStay(s: Str)
    requires forall k :: 0 <= k < |s| ==> IsDigit(s[k])
    ensures EscapeToken(s) == s
  {
    if s != [] {
      DigitsStay(s[1..]);
      assert IsDigit(s[0]) && s == [s[0]] + s[1..];
    }
  }

  method FlattenTo(ref: Str, v: Json, result: FlatObject)
    modifies result
    ensures result.members == Flatten(ref, v, old(result.members))
    decreases v
  {
    match v {
      case Array(a) =>
        if a == [] {
          result.Store(ref, Null);
        } else {
          ghost var was := result.members;
          for i := 0 to |a|
            invariant FlattenKids(ref, v, i, result.members) == FlattenKids(ref, v, 0, was)
          {
            DigitsStay(Decimal(i));
            FlattenTo(ref + [SLASH] + Decimal(i), a[i], result);
          }
        }
      case Object(ms) =>
        if ms == [] {
          result.Store(ref, Null);
        } else {
          ghost var was := result.members;
          for i := 0 to |ms|
            invariant FlattenKids(ref, v, i, result.members) == FlattenKids(ref, v, 0, was)
          {
            var key := ReplaceSubstring(ms[i].key, [TILDE], TILDE_ZERO);
            key := ReplaceSubstring(key, [SLASH], TILDE_ONE);
            ReplacementsEscape(ms[i].key);
            FlattenTo(ref + [SLASH] + key, ms[i].value, result);
          }
        }
      case _ =>
        result.Store(ref, v);
    }
  }

  /** Some leaf of the i-th or a later child has this pointer. */
  ghost predicate Covered(ref: Str, v: Json, i: nat, x: Str)
    requires i <= |Kids(v)|
  {
    exists j, rest :: i <= j < |Kids(v)| && KidLeaf(v, j, rest) && x == ref + Join([Kids(v)[j].key] + rest)
  }

  predicate KidLeaf(v: Json, j: nat, rest: seq<Str>)
    requires j < |Kids(v)|
  {
    LeafAt(Kids(v)[j].value, rest).Some?
  }

  lemma {:induction false} KidKeys(v: Json, i: nat)
    requires Ordered(v) && i < |Kids(v)|
    ensures Ordered(Kids(v)[i].value) && Child(v, Kids(v)[i].key) == Some(Kids(v)[i].value)
    ensures forall j :: 0 <= j < |Kids(v)| && j != i ==> Kids(v)[j].key != Kids(v)[i].key
  {
    var kids := Kids(v);
    forall j | 0 <= j < |kids| && j != i ensures kids[j].key != kids[i].key {
      if v.Object? {
        LessTotal(kids[i].key, kids[j].key);
        assert Less(kids[i].key, kids[j].key) || Less(kids[j].key, kids[i].key);
      } else {
        assert DigitsValue(kids[i].key) == i && DigitsValue(kids[j].key) == j;
      }
    }
    FirstWithKey(kids, i);
  }

  lemma {:induction false} FirstWithKey(ms: seq<Member>, i: nat)
    requires i < |ms| && forall j :: 0 <= j < i ==> ms[j].key != ms[i].key
    ensures Lookup(ms, ms[i].key) == Some(ms[i].value)
  {
    if i > 0 {
      FirstWithKey(ms[1..], i - 1);
    }
  }

  /** The pointer of a path through a child is the child's pointer extended. */
  lemma JoinThrough(ref: Str, token: Str, rest: seq<Str>)
    ensures ref + Join([token] + rest) == ref + [SLASH] + EscapeToken(token) + Join(rest)
  {
    assert ([token] + rest)[1..] == rest;
  }

  /** Pointers of different paths differ. */
  lemma JoinInjective(ref: Str, a: seq<Str>, c: seq<Str>)
    requires ref + Join(a) == ref + Join(c)
    ensures a == c
  {
    assert Join(a) == (ref + Join(a))[|ref|..] == (ref + Join(c))[|ref|..] == Join(c);
    SplitJoin(a);
    SplitJoin(c);
  }

  /** Some leaf of `v` has this pointer. */
  ghost predicate LeafPointer(ref: Str, v: Json, x: Str) {
    exists path :: LeafAt(v, path).Some? && x == ref + Join(path)
  }

  /** `r` is `result` with every leaf of `v` under its pointer, and otherwise unchanged. */
  ghost predicate Stores(ref: Str, v: Json, result: seq<Member>, r: seq<Member>) {
    && Sorted(r)
    && (forall path | LeafAt(v, path).Some? :: Lookup(r, ref + Join(path)) == LeafAt(v, path))
    && (forall x | !LeafPointer(ref, v, x) :: Lookup(r, x) == Lookup(result, x))
  }

  /** The same for the leaves of the children from the i-th on. */
  ghost predicate KidsStore(ref: Str, v: Json, i: nat, result: seq<Member>, r: seq<Member>)
    requires i <= |Kids(v)|
  {
    && Sorted(r)
    && (forall j, rest | i <= j < |Kids(v)| && KidLeaf(v, j, rest) ::
          Lookup(r, ref + Join([Kids(v)[j].key] + rest)) == LeafAt(Kids(v)[j].value, rest))
    && (forall x | !Covered(ref, v, i, x) :: Lookup(r, x) == Lookup(result, x))
  }

  /** flatten stores every leaf under its pointer and changes nothing else. */
  lemma {:induction false} FlattenStores(ref: Str, v: Json, result: seq<Member>)
    requires Ordered(v) && Sorted(result)
    ensures Stores(ref, v, result, Flatten(ref, v, result))
    decreases v, 1, 0
  {
    if IsLeaf(v) {
      LeafStores(ref, v, result);
    } else {
      FlattenKidsStores(ref, v, 0, result);
      KidsAreAll(ref, v, result, Flatten(ref, v, result));
    }
  }

  lemma LeafStores(ref: Str, v: Json, result: seq<Member>)
    requires IsLeaf(v) && Sorted(result)
    ensures Stores(ref, v, result, Put(result, ref, LeafValue(v)))
  {
    var r := Put(result, ref, LeafValue(v));
    PutSorted(result, ref, LeafValue(v));
    hide Put;
    assert ref + Join([]) == ref && LeafAt(v, []).Some?;
    LookupPut(result, ref, LeafValue(v), ref);
    forall x | !LeafPointer(ref, v, x) ensures Lookup(r, x) == Lookup(result, x) {
      LookupPut(result, ref, LeafValue(v), x);
    }
  }

  lemma PathThrough(v: Json, path: seq<Str>) returns (j: nat)
    requires Ordered(v) && !IsLeaf(v) && LeafAt(v, path).Some?
    ensures path != [] && j < |Kids(v)| && Kids(v)[j].key == path[0] && path == [Kids(v)[j].key] + path[1..]
    ensures KidLeaf(v, j, path[1..]) && LeafAt(v, path) == LeafAt(Kids(v)[j].value, path[1..])
  {
    LookupKey(Kids(v), path[0]);
    j :| 0 <= j < |Kids(v)| && Kids(v)[j].key == path[0];
    KidKeys(v, j);
  }

  lemma LeafThrough(v: Json, j: nat, rest: seq<Str>)
    requires Ordered(v) && j < |Kids(v)| && KidLeaf(v, j, rest)
    ensures LeafAt(v, [Kids(v)[j].key] + rest) == LeafAt(Kids(v)[j].value, rest)
  {
    KidKeys(v, j);
    assert ([Kids(v)[j].key] + rest)[1..] == rest;
  }

  /** Storing the leaves of all children stores the leaves of the container. */
  lemma KidsAreAll(ref: Str, v: Json, result: seq<Member>, r: seq<Member>)
    requires Ordered(v) && !IsLeaf(v) && KidsStore(ref, v, 0, result, r)
    ensures Stores(ref, v, result, r)
  {
    hide Join, LeafAt, KidLeaf, Lookup;
    forall path | LeafAt(v, path).Some? ensures Lookup(r, ref + Join(path)) == LeafAt(v, path) {
      var j := PathThrough(v, path);
    }
    forall x | !LeafPointer(ref, v, x) ensures Lookup(r, x) == Lookup(result, x) {
      if Covered(ref, v, 0, x) {
        CoveredIsLeaf(ref, v, x);
      }
    }
  }

  lemma CoveredIsLeaf(ref: Str, v: Json, x: Str)
    requires Ordered(v) && Covered(ref, v, 0, x)
    ensures LeafPointer(ref, v, x)
  {
    var j, rest :| 0 <= j < |Kids(v)| && KidLeaf(v, j, rest) && x == ref + Join([Kids(v)[j].key] + rest);
    LeafThrough(v, j, rest);
  }

  lemma {:induction false} FlattenKidsStores(ref: Str, v: Json, i: nat, result: seq<Member>)
    requires Ordered(v) && Sorted(result) && i <= |Kids(v)|
    ensures KidsStore(ref, v, i, result, FlattenKids(ref, v, i, result))
    decreases v, 0, |Kids(v)| - i
  {
    if i < |Kids(v)| {
      var kid := Kids(v)[i];
      var inner := ref + [SLASH] + EscapeToken(kid.key);
      var next := Flatten(inner, kid.value, result);
      KidKeys(v, i);
      FlattenStores(inner, kid.value, result);
      FlattenKidsStores(ref, v, i + 1, next);
      OneMoreKid(ref, v, i, result, next, FlattenKids(ref, v, i, result));
    }
  }

  lemma CoveredEarlier(ref: Str, v: Json, i: nat, x: Str)
    requires i < |Kids(v)| && Covered(ref, v, i + 1, x)
    ensures Covered(ref, v, i, x)
  {
    var j, rest :| i + 1 <= j < |Kids(v)| && KidLeaf(v, j, rest) && x == ref + Join([Kids(v)[j].key] + rest);
  }

  lemma LeafCovered(ref: Str, v: Json, i: nat, x: Str)
    requires i < |Kids(v)| && LeafPointer(ref + [SLASH] + EscapeToken(Kids(v)[i].key), Kids(v)[i].value, x)
    ensures Covered(ref, v, i, x)
  {
    var inner := ref + [SLASH] + EscapeToken(Kids(v)[i].key);
    var rest :| LeafAt(Kids(v)[i].value, rest).Some? && x == inner + Join(rest);
    JoinThrough(ref, Kids(v)[i].key, rest);
    assert KidLeaf(v, i, rest);
  }

  lemma NotCoveredLater(ref: Str, v: Json, i: nat, rest: seq<Str>)
    requires Ordered(v) && i < |Kids(v)|
    ensures !Covered(ref, v, i + 1, ref + Join([Kids(v)[i].key] + rest))
  {
    hide Join;
    var token := Kids(v)[i].key;
    var x := ref + Join([token] + rest);
    if Covered(ref, v, i + 1, x) {
      var k, other :| i + 1 <= k < |Kids(v)| && KidLeaf(v, k, other) && x == ref + Join([Kids(v)[k].key] + other);
      JoinInjective(ref, [token] + rest, [Kids(v)[k].key] + other);
      SameHead(token, rest, Kids(v)[k].key, other);
      KidKeys(v, i);
    }
  }

  lemma SameHead(a: Str, x: seq<Str>, c: Str, y: seq<Str>)
    ensures [a] + x == [c] + y ==> a == c
  {
    assert ([a] + x)[0] == a && ([c] + y)[0] == c;
  }

  lemma OneMoreKid(ref: Str, v: Json, i: nat, result: seq<Member>, next: seq<Member>, r: seq<Member>)
    requires Ordered(v) && i < |Kids(v)|
    requires Stores(ref + [SLASH] + EscapeToken(Kids(v)[i].key), Kids(v)[i].value, result, next)
    requires KidsStore(ref, v, i + 1, next, r)
    ensures KidsStore(ref, v, i, result, r)
  {
    hide Join, LeafAt, Lookup, EscapeToken;
    var kid := Kids(v)[i];
    var inner := ref + [SLASH] + EscapeToken(kid.key);
    forall j, rest | i <= j < |Kids(v)| && KidLeaf(v, j, rest)
      ensures Lookup(r, ref + Join([Kids(v)[j].key] + rest)) == LeafAt(Kids(v)[j].value, rest)
    {
      if j == i {
        JoinThrough(ref, kid.key, rest);
        NotCoveredLater(ref, v, i, rest);
      }
    }
    forall x | !Covered(ref, v, i, x) ensures Lookup(r, x) == Lookup(result, x) {
      if LeafPointer(inner, kid.value, x) {
        LeafCovered(ref, v, i, x);
      }
      if Covered(ref, v, i + 1, x) {
        CoveredEarlier(ref, v, i, x);
      }
    }
  }

  /** The value, leaf or not, that a list of reference tokens leads to. */
  function ValueAt(v: Json, path: seq<Str>): Option<Json>
    decreases path
  {
    if path == [] then Some(v)
    else match Child(v, path[0])
    case None => None
    case Some(child) => ValueAt(child, path[1..])
  }

  lemma {:induction false} LeafIsValue(v: Json, path: seq<Str>)
    requires ValueAt(v, path).Some? && IsLeaf(ValueAt(v, path).value)
    ensures LeafAt(v, path) == Some(LeafValue(ValueAt(v, path).value))
    decreases path
  {
    if path != [] {
      LeafIsValue(Child(v, path[0]).value, path[1..]);
    }
  }

  /** Whatever is inside the value stands under its pointer: an empty container as null, a primitive as it is. */
  lemma EmptyBecomesNull(ref: Str, v: Json, path: seq<Str>, result: seq<Member>)
    requires Ordered(v) && Sorted(result) && ValueAt(v, path).Some?
    ensures var (w, entry) := (ValueAt(v, path).value, Lookup(Flatten(ref, v, result), ref + Join(path)));
            && (w == Array([]) || w == Object([]) ==> entry == Some(Null))
            && (!w.Array? && !w.Object? ==> entry == Some(w))
  {
    FlattenStores(ref, v, result);
    if IsLeaf(ValueAt(v, path).value) {
      LeafIsValue(v, path);
    }
    hide Flatten, Join, Lookup, ValueAt, LeafAt;
  }
}
