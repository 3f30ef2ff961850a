/**
 unflatten: creating a value pointer by pointer, what a run of it builds, and the exact condition
 under which it undoes flatten.
 */
module JsonUnflatten {
  import opened Bytes
  import opened JsonValues
  import opened JsonPointers
  import opened JsonFlatten

  // ---------------------------------------------------------------- std::stoi

  /** isspace in the C locale, as strtol skips it. */
  predicate IsCSpace(b: byte) {
    b == SPACE || 0x09 <= b <= 0x0D
  }

  function SkipSpaces(s: Str): Str {
    if s != [] && IsCSpace(s[0]) then SkipSpaces(s[1..]) else s
  }

  function DigitCount(s: Str): (n: nat)
    ensures n <= |s| && forall k :: 0 <= k < n ==> IsDigit(s[k])
    ensures n < |s| ==> !IsDigit(s[n])
  {
    if s != [] && IsDigit(s[0]) then
      var m := DigitCount(s[1..]);
      assert forall k :: 1 <= k < m + 1 ==> s[k] == s[1..][k - 1];
      m + 1
    else 0
  }

  function Stoi(s: Str): Result<int, PointerError> {
    var t := SkipSpaces(s);
    var signed := t != [] && (t[0] == MINUS || t[0] == PLUS);
    var u := if signed then t[1..] else t;
    var n := DigitCount(u);
    if n == 0 then Err(InvalidArgument)
    else
      var value := DigitsValue(u[..n]);
      var i := if signed && t[0] == MINUS then 0 - value else value;
      if -0x8000_0000 <= i < 0x8000_0000 then Ok(i) else Err(OutOfRange)
  }

  lemma StoiDecimal(n: nat)
    ensures Stoi(Decimal(n)) == if n < TWO_TO_31 then Ok(n) else Err(OutOfRange)
  {
    var s := Decimal(n);
    assert IsDigit(s[0]) && SkipSpaces(s) == s;
    AllCounted(s);
    assert s[..|s|] == s;
  }

  lemma {:induction false} AllCounted(s: Str)
    requires forall k :: 0 <= k < |s| ==> IsDigit(s[k])
    ensures DigitCount(s) == |s|
  {
    if s != [] {
      assert IsDigit(s[0]);
      AllCounted(s[1..]);
    }
  }

  /**
   A numeral at the front of `s`: `n` bytes of white space of the C locale, `k` of a sign, `m` digits, and
   then something that does not go on with digits.
   */
  predicate IsNumeral(s: Str, n: nat, k: nat, m: nat) {
    && n + k + m <= |s| && k <= 1 && m > 0
    && (forall i :: 0 <= i < n ==> s[i] == 0x20 || 0x09 <= s[i] <= 0x0D)
    && (k == 1 ==> s[n] == 0x2B || s[n] == 0x2D)
    && (forall i :: n + k <= i < n + k + m ==> 0x30 <= s[i] <= 0x39)
    && (n + k + m < |s| ==> !(0x30 <= s[n + k + m] <= 0x39))
  }

  lemma {:induction false} SpacesSkipped(s: Str, n: nat)
    requires n < |s| && forall i :: 0 <= i < n ==> IsCSpace(s[i])
    requires !IsCSpace(s[n])
    ensures SkipSpaces(s) == s[n..]
  {
    if n > 0 {
      SpacesSkipped(s[1..], n - 1);
      assert s[1..][n - 1..] == s[n..];
    }
  }

  lemma {:induction false} DigitsCounted(u: Str, m: nat)
    requires m <= |u| && (forall i :: 0 <= i < m ==> IsDigit(u[i])) && (m < |u| ==> !IsDigit(u[m]))
    ensures DigitCount(u) == m
  {
    if m > 0 {
      DigitsCounted(u[1..], m - 1);
    }
  }

  /** stoi behind the white space and the sign. */
  lemma StoiOfTail(s: Str, t: Str, u: Str)
    requires SkipSpaces(s) == t && u == if t != [] && (t[0] == MINUS || t[0] == PLUS) then t[1..] else t
    ensures var n := DigitCount(u);
            if n == 0 then Stoi(s) == Err(InvalidArgument)
            else
              var value := if t[0] == MINUS then 0 - DigitsValue(u[..n]) else DigitsValue(u[..n]);
              Stoi(s) == if -0x8000_0000 <= value <= 0x7FFF_FFFF then Ok(value) else Err(OutOfRange)
  {
    hide SkipSpaces, DigitCount, DigitsValue;
  }

  predicate AreDigits(s: Str) {
    forall i :: 0 <= i < |s| ==> IsDigit(s[i])
  }

  lemma TailDigits(s: Str, n: nat, k: nat, m: nat, u: Str)
    requires IsNumeral(s, n, k, m) && u == if k == 1 then s[n..][1..] else s[n..]
    ensures m <= |u| && u[..m] == s[n + k..n + k + m] && AreDigits(u[..m]) && (m < |u| ==> !IsDigit(u[m]))
    ensures forall i :: 0 <= i < m ==> IsDigit(u[i])
  {
    assert u == s[n + k..];
  }

  /** A numeral denotes its number, if it is within int; whatever follows it is ignored. */
  lemma StoiReads(s: Str, n: nat, k: nat, m: nat)
    requires IsNumeral(s, n, k, m)
    ensures AreDigits(s[n + k..n + k + m])
    ensures var number := DigitsValue(s[n + k..n + k + m]);
            var value := if k == 1 && s[n] == 0x2D then 0 - number else number;
            Stoi(s) == if -0x8000_0000 <= value <= 0x7FFF_FFFF then Ok(value) else Err(OutOfRange)
  {
    hide SkipSpaces, DigitCount, DigitsValue, Stoi;
    assert !IsCSpace(s[n]) && (k == 0 ==> IsDigit(s[n]));
    SpacesSkipped(s, n);
    var t := s[n..];
    var u := if k == 1 then t[1..] else t;
    TailDigits(s, n, k, m, u);
    DigitsCounted(u, m);
    StoiOfTail(s, t, u);
  }

  lemma {:induction false} SpaceSplits(s: Str) returns (n: nat)
    ensures n <= |s| && SkipSpaces(s) == s[n..] && forall i :: 0 <= i < n ==> IsCSpace(s[i])
  {
    n := 0;
    if s != [] && IsCSpace(s[0]) {
      var m := SpaceSplits(s[1..]);
      n := m + 1;
      assert s[1..][m..] == s[n..];
      forall i | 0 <= i < n ensures IsCSpace(s[i]) {
        assert i > 0 ==> s[i] == s[1..][i - 1];
      }
    }
  }

  /** Any other text is no number. */
  lemma StoiFails(s: Str)
    requires Stoi(s) != Err(InvalidArgument)
    ensures exists n, k, m :: IsNumeral(s, n, k, m)
  {
    hide SkipSpaces, DigitCount, DigitsValue, Stoi;
    var n := SpaceSplits(s);
    var t := s[n..];
    var k := if t != [] && (t[0] == MINUS || t[0] == PLUS) then 1 else 0;
    var u := if k == 1 then t[1..] else t;
    StoiOfTail(s, t, u);
    var m := DigitCount(u);
    forall i | n + k <= i < n + k + m ensures IsDigit(s[i]) {
      assert s[i] == u[i - n - k];
    }
    assert n + k + m < |s| ==> s[n + k + m] == u[m];
    assert IsNumeral(s, n, k, m);
  }

  // ---------------------------------------------------------------- get_and_create

  function OrNull(v: Option<Json>): Json {
    match v
    case Some(j) => j
    case None => Null
  }

  /** operator[] on an array: null elements are added until `n` is an index. */
  function Grow(a: seq<Json>, n: nat): (r: seq<Json>)
    ensures n < |r| && |r| >= |a|
    ensures forall k :: 0 <= k < |r| ==> r[k] == if k < |a| then a[k] else Null
  {
    if n < |a| then a else a + seq(n + 1 - |a|, _ => Null)
  }

  /** get_and_create(j) = value: the value after the assignment. A negative index exhausts memory. */
  function SetAt(j: Json, path: seq<Str>, value: Json): Result<Json, PointerError>
    decreases path
  {
    if path == [] then Ok(value)
    else match j
    case Null =>
      if path[0] == [ZERO] then
        match SetAt(Null, path[1..], value) {
          case Ok(w) => Ok(Array([w]))
          case Err(error) => Err(error)
        }
      else PutChild([], path[0], SetAt(Null, path[1..], value))
    case Object(ms) => PutChild(ms, path[0], SetAt(OrNull(Lookup(ms, path[0])), path[1..], value))
    case Array(a) =>
      (match Stoi(path[0])
       case Err(error) => Err(error)
       case Ok(n) =>
         if n < 0 then Err(LengthError)
         else
           match SetAt(Grow(a, n)[n], path[1..], value)
           case Ok(w) => Ok(Array(Grow(a, n)[n := w]))
           case Err(error) => Err(error))
    case _ => Err(DomainError)
  }

  function PutChild(ms: seq<Member>, key: Str, child: Result<Json, PointerError>): Result<Json, PointerError> {
    match child
    case Ok(w) => Ok(Object(Put(ms, key, w)))
    case Err(error) => Err(error)
  }

  /** What is found under reference tokens, where an array's are read as numbers. */
  function FoundAt(j: Json, path: seq<Str>): Option<Json>
    decreases path
  {
    if path == [] then Some(j)
    else match j
    case Object(ms) =>
      (match Lookup(ms, path[0])
       case None => None
       case Some(child) => FoundAt(child, path[1..]))
    case Array(a) =>
      (match Stoi(path[0])
       case Err(_) => None
       case Ok(n) => if 0 <= n < |a| then FoundAt(a[n], path[1..]) else None)
    case _ => None
  }

  lemma {:induction false} PutIsFound(ms: seq<Member>, key: Str, value: Json)
    ensures Lookup(Put(ms, key, value), key) == Some(value)
  {
    if ms != [] && ms[0].key != key && !Less(key, ms[0].key) {
      PutIsFound(ms[1..], key, value);
      assert ([ms[0]] + Put(ms[1..], key, value))[1..] == Put(ms[1..], key, value);
    }
  }

  /** What was assigned under reference tokens is found under them. */
  lemma {:induction false} AssignedIsFound(j: Json, path: seq<Str>, value: Json)
    requires SetAt(j, path, value).Ok?
    ensures FoundAt(SetAt(j, path, value).value, path) == Some(value)
    decreases path
  {
    hide Stoi, Put, Lookup;
    if path != [] {
      match j {
        case Null =>
          AssignedIsFound(Null, path[1..], value);
          if path[0] == [ZERO] {
            StoiDecimal(0);
            assert Decimal(0) == [ZERO];
          } else {
            PutIsFound([], path[0], SetAt(Null, path[1..], value).value);
          }
        case Object(ms) =>
          AssignedIsFound(OrNull(Lookup(ms, path[0])), path[1..], value);
          PutIsFound(ms, path[0], SetAt(OrNull(Lookup(ms, path[0])), path[1..], value).value);
        case Array(a) => AssignedIsFound(Grow(a, Stoi(path[0]).value)[Stoi(path[0]).value], path[1..], value);
      }
    }
  }

  predicate IsPrimitive(v: Json) {
    !v.Array? && !v.Object?
  }

  /** json_pointer::unflatten over the members of an object, in their order. */
  function UnflattenMembers(ms: seq<Member>): Result<Json, PointerError> {
    if ms == [] then Ok(Null)
    else match UnflattenMembers(ms[..|ms| - 1])
    case Err(error) => Err(error)
    case Ok(j) =>
      var last := ms[|ms| - 1];
      if !IsPrimitive(last.value) then Err(DomainError)
      else match Tokens(last.key)
      case Err(error) => Err(error)
      case Ok(path) => SetAt(j, path, last.value)
  }

  lemma {:induction false} FirstError(ms: seq<Member>, i: nat)
    requires i <= |ms| && UnflattenMembers(ms[..i]).Err?
    ensures UnflattenMembers(ms) == UnflattenMembers(ms[..i])
    decreases |ms| - i
  {
    if i == |ms| {
      assert ms[..i] == ms;
    } else {
      assert ms[..i + 1][..i] == ms[..i];
      FirstError(ms, i + 1);
    }
  }

  method Unflatten(value: Json) returns (r: Result<Json, PointerError>)
    ensures !value.Object? ==> r == Err(DomainError)
    ensures value.Object? ==> r == UnflattenMembers(value.members)
  {
    if !value.Object? {
      return Err(DomainError);
    }
    var ms := value.members;
    var result := Null;
    for i := 0 to |ms|
      invariant UnflattenMembers(ms[..i]) == Ok(result)
    {
      assert ms[..i + 1][..i] == ms[..i];
      if !IsPrimitive(ms[i].value) {
        FirstError(ms, i + 1);
        return Err(DomainError);
      }
      var path := Split(ms[i].key);
      if path.Err? {
        FirstError(ms, i + 1);
        return Err(path.error);
      }
      var next := SetAt(result, path.value, ms[i].value);
      if next.Err? {
        FirstError(ms, i + 1);
        return next;
      }
      result := next.value;
    }
    assert ms[..|ms|] == ms;
    return Ok(result);
  }

  // ---------------------------------------------------------------- what a run builds

  datatype Entry = Entry(path: seq<Str>, value: Json)

  function Build(es: seq<Entry>): Result<Json, PointerError> {
    if es == [] then Ok(Null)
    else match Build(es[..|es| - 1])
    case Err(error) => Err(error)
    case Ok(j) => SetAt(j, es[|es| - 1].path, es[|es| - 1].value)
  }

  /** The entries whose first token is `t`, without that token. */
  function Sub(es: seq<Entry>, t: Str): seq<Entry> {
    if es == [] then []
    else
      var init, last := es[..|es| - 1], es[|es| - 1];
      if last.path != [] && last.path[0] == t then Sub(init, t) + [Entry(last.path[1..], last.value)] else Sub(init, t)
  }

  predicate Deep(es: seq<Entry>) {
    forall i :: 0 <= i < |es| ==> es[i].path != []
  }

  /** The sub-builds of a longer run. */
  lemma SubSnoc(init: seq<Entry>, last: Entry, t: Str)
    requires last.path != []
    ensures (init + [last])[..|init|] == init
    ensures t != last.path[0] ==> Sub(init + [last], t) == Sub(init, t)
    ensures t == last.path[0] ==> Sub(init + [last], t) == Sub(init, t) + [Entry(last.path[1..], last.value)]
  {
    var es := init + [last];
    assert es[..|es| - 1] == init;
  }

  lemma BuildSnoc(init: seq<Entry>, last: Entry)
    ensures Build(init + [last]) ==
            if Build(init).Ok? then SetAt(Build(init).value, last.path, last.value) else Err(Build(init).error)
  {
    var es := init + [last];
    assert es[..|es| - 1] == init;
  }

  /** `w` is what the entries under token `t` build. */
  predicate Built(es: seq<Entry>, t: Str, w: Json) {
    Build(Sub(es, t)) == Ok(w)
  }

  /** An object whose members are exactly what the entries under each key build. */
  ghost predicate ObjectOf(es: seq<Entry>, ms: seq<Member>) {
    Sorted(ms) && forall t :: Built(es, t, OrNull(Lookup(ms, t))) && (Lookup(ms, t).Some? <==> Sub(es, t) != [])
  }

  /**
   A run whose first token is not 0 builds an object: child by child, what the entries under each
   key build on their own, whatever the interleaving; and it fails only if one of those fails.
   */
  lemma {:induction false} BuildsObject(es: seq<Entry>)
    requires es != [] && Deep(es) && es[0].path[0] != [ZERO]
    ensures Build(es).Ok? ==> Build(es).value.Object? && ObjectOf(es, Build(es).value.members)
    ensures (forall t :: Build(Sub(es, t)).Ok?) ==> Build(es).Ok?
  {
    var init, last := es[..|es| - 1], es[|es| - 1];
    var t0 := last.path[0];
    assert es == init + [last];
    BuildSnoc(init, last);
    SubSnoc(init, last, t0);
    BuildSnoc(Sub(init, t0), Entry(last.path[1..], last.value));
    var ms: seq<Member> := [];
    if init == [] {
      assert Built(init, t0, Null);
      assert ObjectOf(init, []);
    } else {
      BuildsObject(init);
      if forall t :: Build(Sub(es, t)).Ok? {
        forall t ensures Build(Sub(init, t)).Ok? {
          SubSnoc(init, last, t);
          assert Build(Sub(es, t)).Ok?;
        }
      }
      if Build(init).Err? {
        return;
      }
      ms := Build(init).value.members;
    }
    assert Built(init, t0, OrNull(Lookup(ms, t0)));
    var child := SetAt(OrNull(Lookup(ms, t0)), last.path[1..], last.value);
    assert Build(es) == PutChild(ms, t0, child) && Build(Sub(es, t0)) == child;
    if child.Ok? {
      PutSorted(ms, t0, child.value);
      forall t ensures var r := Put(ms, t0, child.value);
        Built(es, t, OrNull(Lookup(r, t))) && (Lookup(r, t).Some? <==> Sub(es, t) != [])
      {
        SubSnoc(init, last, t);
        LookupPut(ms, t0, child.value, t);
        assert Built(init, t, OrNull(Lookup(ms, t)));
      }
    }
  }

  /** A run whose first token is 0 never builds an object. */
  lemma {:induction false} BuildsNoObject(es: seq<Entry>)
    requires es != [] && Deep(es) && es[0].path[0] == [ZERO]
    ensures Build(es).Ok? ==> Build(es).value.Array?
  {
    var init, last := es[..|es| - 1], es[|es| - 1];
    assert es == init + [last];
    BuildSnoc(init, last);
    if init != [] {
      BuildsNoObject(init);
    }
  }

  /** The first token of every entry is a decimal index. */
  ghost predicate Indexed(es: seq<Entry>) {
    forall i :: 0 <= i < |es| ==> es[i].path != [] && exists n: nat :: IsIndex(es[i].path[0], n)
  }

  predicate IsIndex(t: Str, n: nat) {
    t == Decimal(n)
  }

  /** An array whose elements are exactly what the entries under each index build. */
  ghost predicate ArrayOf(es: seq<Entry>, xs: seq<Json>) {
    && (forall k | 0 <= k < |xs| :: Built(es, Decimal(k), xs[k]))
    && (forall k: nat | k >= |xs| || k >= TWO_TO_31 :: Sub(es, Decimal(k)) == [])
    && (xs != [] ==> Sub(es, Decimal(|xs| - 1)) != [])
  }

  /** One assignment into an array, or into null under token 0. */
  lemma SetIndex(j: Json, xs: seq<Json>, path: seq<Str>, n: nat, value: Json)
    requires path != [] && path[0] == Decimal(n)
    requires j == Array(xs) || (j == Null && xs == [] && n == 0)
    ensures n >= TWO_TO_31 ==> SetAt(j, path, value).Err?
    ensures n < TWO_TO_31 ==> var child := SetAt(Grow(xs, n)[n], path[1..], value);
      SetAt(j, path, value) == if child.Ok? then Ok(Array(Grow(xs, n)[n := child.value])) else Err(child.error)
  {
    StoiDecimal(n);
    if j == Null {
      assert Decimal(0) == [ZERO];
      assert Grow(xs, 0) == [Null];
      var child := SetAt(Null, path[1..], value);
      if child.Ok? {
        assert [Null][0 := child.value] == [child.value];
      }
    }
  }

  /** Every index builds on its own, and lies within int. */
  ghost predicate IndicesBuild(es: seq<Entry>) {
    forall k: nat :: IndexBuilds(es, k)
  }

  predicate IndexBuilds(es: seq<Entry>, k: nat) {
    Build(Sub(es, Decimal(k))).Ok? && (k >= TWO_TO_31 ==> Sub(es, Decimal(k)) == [])
  }

  lemma NothingIndexed(n: nat)
    ensures ArrayOf([], []) && (Decimal(n) == [ZERO] ==> n == 0)
  {
    assert DigitsValue(Decimal(n)) == n && DigitsValue([ZERO]) == 0;
  }

  /** One entry more, for an array or, under index 0, for nothing yet. */
  lemma ArrayGrows(init: seq<Entry>, last: Entry, n: nat, xs: seq<Json>)
    requires last.path != [] && IsIndex(last.path[0], n) && ArrayOf(init, xs)
    requires Build(init) == Ok(Array(xs)) || (init == [] && xs == [] && n == 0)
    ensures var r := Build(init + [last]);
            && (r.Ok? ==> r.value.Array? && ArrayOf(init + [last], r.value.elements))
            && (IndexBuilds(init + [last], n) ==> r.Ok?)
  {
    hide SetAt, Stoi, Grow, ArrayOf, Decimal, Sub, Build;
    EmptyBuilds();
    BuildSnoc(init, last);
    var j := if init == [] && xs == [] && n == 0 && Build(init) == Ok(Null) then Null else Array(xs);
    SetIndex(j, xs, last.path, n, last.value);
    if n < TWO_TO_31 {
      ArrayStep(init, last, n, xs);
    } else {
      SubSnoc(init, last, Decimal(n));
    }
  }

  /**
   A run over decimal indices that starts with 0 builds an array, index by index, in whatever order
   the indices come; and it fails only on an index beyond int or if an index fails on its own.
   */
  lemma {:induction false} BuildsArray(es: seq<Entry>)
    requires es != [] && Indexed(es) && es[0].path[0] == [ZERO]
    ensures Build(es).Ok? ==> Build(es).value.Array? && ArrayOf(es, Build(es).value.elements)
    ensures IndicesBuild(es) ==> Build(es).Ok?
  {
    hide SetAt, Stoi, Grow, ArrayOf, Built, Decimal, Sub, Build, IndexBuilds;
    var init, last := es[..|es| - 1], es[|es| - 1];
    assert es == init + [last];
    assert es[|es| - 1].path != [];
    var n: nat :| IsIndex(last.path[0], n);
    BuildSnoc(init, last);
    assert IndicesBuild(es) ==> IndexBuilds(es, n);
    if init == [] {
      NothingIndexed(n);
      ArrayGrows(init, last, n, []);
    } else {
      assert forall i :: 0 <= i < |init| ==> init[i] == es[i];
      BuildsArray(init);
      if IndicesBuild(es) {
        IndicesBuiltBefore(init, last);
      }
      if Build(init).Ok? {
        ArrayGrows(init, last, n, Build(init).value.elements);
      }
    }
  }

  lemma IndicesBuiltBefore(init: seq<Entry>, last: Entry)
    requires last.path != [] && IndicesBuild(init + [last])
    ensures IndicesBuild(init)
  {
    forall k: nat ensures IndexBuilds(init, k) {
      SubSnoc(init, last, Decimal(k));
      assert IndexBuilds(init + [last], k);
      BuildSnoc(Sub(init, Decimal(k)), Entry(last.path[1..], last.value));
    }
  }

  lemma EmptyBuilds()
    ensures Build([]) == Ok(Null)
  {
  }

  lemma ArrayStep(init: seq<Entry>, last: Entry, n: nat, xs: seq<Json>)
    requires last.path != [] && last.path[0] == Decimal(n) && n < TWO_TO_31 && ArrayOf(init, xs)
    ensures var child := SetAt(Grow(xs, n)[n], last.path[1..], last.value);
      && Build(Sub(init + [last], Decimal(n))) == child
      && (child.Ok? ==> ArrayOf(init + [last], Grow(xs, n)[n := child.value]))
  {
    hide Decimal, SetAt, Sub, Build;
    var es, t0, grown := init + [last], Decimal(n), Grow(xs, n);
    SubSnoc(init, last, t0);
    BuildSnoc(Sub(init, t0), Entry(last.path[1..], last.value));
    assert Build(Sub(init, t0)) == Ok(grown[n]) by {
      EmptyBuilds();
      if n < |xs| {
        assert Built(init, t0, xs[n]);
      }
    }
    EmptyBuilds();
    var child := SetAt(grown[n], last.path[1..], last.value);
    if child.Ok? {
      var r := grown[n := child.value];
      forall k: nat
        ensures k < |r| ==> Built(es, Decimal(k), r[k])
        ensures k >= |r| || k >= TWO_TO_31 ==> Sub(es, Decimal(k)) == []
      {
        SubSnoc(init, last, Decimal(k));
        assert Decimal(k) == t0 ==> k == n by {
          assert DigitsValue(Decimal(k)) == k && DigitsValue(t0) == n;
        }
        if k < |xs| {
          assert Built(init, Decimal(k), xs[k]);
        }
      }
      SubSnoc(init, last, Decimal(|r| - 1));
    }
  }

  // ---------------------------------------------------------------- flatten, then unflatten

  lemma {:induction false} LessPrefix(p: Str, x: Str, y: Str)
    ensures Less(p + x, p + y) <==> Less(x, y)
  {
    if p == [] {
      assert p + x == x && p + y == y;
    } else {
      LessPrefix(p[1..], x, y);
      assert (p + x)[1..] == p[1..] + x && (p + y)[1..] == p[1..] + y;
    }
  }

  /** The entries are the leaves of `v`, each once, in the order of their pointers. */
  ghost predicate Lists(es: seq<Entry>, v: Json) {
    && (forall i :: 0 <= i < |es| ==> LeafAt(v, es[i].path) == Some(es[i].value))
    && (forall path | LeafAt(v, path).Some? :: exists i :: 0 <= i < |es| && es[i].path == path)
    && InOrder(es)
  }

  predicate InOrder(es: seq<Entry>) {
    forall i, j :: 0 <= i < j < |es| ==> Less(Join(es[i].path), Join(es[j].path))
  }

  lemma {:induction false} SubFrom(es: seq<Entry>, t: Str, i: nat) returns (j: nat)
    requires i < |Sub(es, t)|
    ensures j < |es| && es[j] == Entry([t] + Sub(es, t)[i].path, Sub(es, t)[i].value)
  {
    var init, last := es[..|es| - 1], es[|es| - 1];
    if i < |Sub(init, t)| {
      j := SubFrom(init, t, i);
    } else {
      j := |es| - 1;
      assert last.path == [t] + last.path[1..];
    }
  }

  lemma {:induction false} SubHas(es: seq<Entry>, t: Str, j: nat) returns (i: nat)
    requires j < |es| && es[j].path != [] && es[j].path[0] == t
    ensures i < |Sub(es, t)| && Sub(es, t)[i] == Entry(es[j].path[1..], es[j].value)
  {
    var init := es[..|es| - 1];
    if j < |init| {
      i := SubHas(init, t, j);
    } else {
      i := |Sub(es, t)| - 1;
    }
  }

  lemma JoinOne(t: Str, rest: seq<Str>)
    ensures Join([t] + rest) == [SLASH] + (EscapeToken(t) + Join(rest))
  {
    hide EscapeToken;
    assert ([t] + rest)[1..] == rest;
    assert [SLASH] + EscapeToken(t) + Join(rest) == [SLASH] + (EscapeToken(t) + Join(rest));
  }

  lemma JoinOrder(t: Str, a: seq<Str>, c: seq<Str>)
    ensures Less(Join([t] + a), Join([t] + c)) <==> Less(Join(a), Join(c))
  {
    hide EscapeToken, Join, Less;
    JoinOne(t, a);
    JoinOne(t, c);
    LessPrefix([SLASH], EscapeToken(t) + Join(a), EscapeToken(t) + Join(c));
    LessPrefix(EscapeToken(t), Join(a), Join(c));
  }

  lemma {:induction false} SubInOrder(es: seq<Entry>, t: Str)
    requires InOrder(es)
    ensures InOrder(Sub(es, t))
  {
    if es != [] {
      var init, last := es[..|es| - 1], es[|es| - 1];
      SubInOrder(init, t);
      var s, n := Sub(es, t), |Sub(init, t)|;
      forall i, j | 0 <= i < j < |s| ensures Less(Join(s[i].path), Join(s[j].path)) {
        if j == n {
          var k := SubFrom(init, t, i);
          assert last.path == [t] + last.path[1..];
          assert Less(Join(es[k].path), Join(es[|es| - 1].path));
          JoinOrder(t, s[i].path, last.path[1..]);
        }
      }
    }
  }

  /** The entries under a child's token list the child. */
  lemma LeafBelow(v: Json, t: Str, path: seq<Str>)
    requires Child(v, t).Some?
    ensures LeafAt(v, [t] + path) == LeafAt(Child(v, t).value, path)
  {
    assert ([t] + path)[1..] == path;
  }

  lemma SubLists(es: seq<Entry>, v: Json, t: Str)
    requires Ordered(v) && !IsLeaf(v) && Lists(es, v) && Child(v, t).Some?
    ensures Lists(Sub(es, t), Child(v, t).value)
  {
    hide Join, LeafAt, Child, Sub, Ordered, IsLeaf, InOrder;
    var s, child := Sub(es, t), Child(v, t).value;
    SubInOrder(es, t);
    forall i | 0 <= i < |s| ensures LeafAt(child, s[i].path) == Some(s[i].value) {
      var j := SubFrom(es, t, i);
      LeafBelow(v, t, s[i].path);
      assert es[j].path == [t] + s[i].path;
    }
    forall path | LeafAt(child, path).Some? ensures exists i :: 0 <= i < |s| && s[i].path == path {
      LeafBelow(v, t, path);
      var j :| 0 <= j < |es| && es[j].path == [t] + path;
      assert ([t] + path)[1..] == path;
      var i := SubHas(es, t, j);
    }
  }

  /** No entries under a token that is no child's; some under every child's. */
  lemma SubNonempty(es: seq<Entry>, v: Json, t: Str)
    requires Ordered(v) && !IsLeaf(v) && Lists(es, v)
    ensures Sub(es, t) != [] <==> Child(v, t).Some?
  {
    if Sub(es, t) != [] {
      var j := SubFrom(es, t, 0);
      assert LeafAt(v, es[j].path).Some?;
    }
    if Child(v, t).Some? {
      var path := SomeLeaf(Child(v, t).value);
      assert ([t] + path)[1..] == path;
      assert LeafAt(v, [t] + path).Some?;
      var j :| 0 <= j < |es| && es[j].path == [t] + path;
      var i := SubHas(es, t, j);
    }
  }

  lemma {:induction false} SomeLeaf(v: Json) returns (path: seq<Str>)
    ensures LeafAt(v, path).Some?
    decreases v
  {
    if IsLeaf(v) {
      path := [];
    } else {
      var kid := Kids(v)[0];
      var rest := SomeLeaf(kid.value);
      path := [kid.key] + rest;
      assert path[1..] == rest;
    }
  }

  // ---------------------------------------------------------------- which token comes first

  /** The escaped key `e` of another member sorts after a member named 0 (a leaf, or not). */
  predicate AfterZero(e: Str, zeroIsLeaf: bool) {
    e != [] && (e[0] > ZERO || (e[0] == ZERO && |e| > 1 && (zeroIsLeaf || e[1] > SLASH)))
  }

  /** A member named 0 is the first that unflatten meets. */
  predicate ZeroFirst(ms: seq<Member>) {
    exists i :: 0 <= i < |ms| && ZeroFirstAt(ms, i)
  }

  predicate ZeroFirstAt(ms: seq<Member>, i: nat)
    requires i < |ms|
  {
    ms[i].key == [ZERO]
    && forall j :: 0 <= j < |ms| && j != i ==> AfterZero(EscapeToken(ms[j].key), IsLeaf(ms[i].value))
  }

  predicate IsTail(tail: Str) {
    tail == [] || tail[0] == SLASH
  }

  /** Where a pointer under token 0 stands against a pointer under another token. */
  lemma ZeroOrder(e: Str, tail0: Str, tail: Str)
    requires SLASH !in e && e != [ZERO] && IsTail(tail0) && IsTail(tail)
    ensures Less([ZERO] + tail0, e + tail) <==> AfterZero(e, tail0 == [])
  {
    var x, y := [ZERO] + tail0, e + tail;
    assert x[1..] == tail0;
    if e == [] {
      assert y == tail;
    } else {
      assert y[0] == e[0] && y[1..] == e[1..] + tail;
      if |e| > 1 {
        assert e[1] != SLASH && y[1..][0] == e[1];
      }
    }
  }

  lemma JoinIsTail(path: seq<Str>)
    ensures IsTail(Join(path)) && (Join(path) == [] <==> path == [])
  {
  }

  lemma OtherToken(t: Str)
    requires t != [ZERO]
    ensures EscapeToken(t) != [ZERO] && SLASH !in EscapeToken(t) && EscapeToken([ZERO]) == [ZERO]
  {
    EscapedToken(t);
    DigitsStay([ZERO]);
    UnescapeEscapedToken(t);
    UnescapeEscapedToken([ZERO]);
  }

  lemma TokenOrder(t: Str, rest0: seq<Str>, rest: seq<Str>)
    requires t != [ZERO]
    ensures Less(Join([[ZERO]] + rest0), Join([t] + rest)) <==> AfterZero(EscapeToken(t), rest0 == [])
  {
    OtherToken(t);
    JoinIsTail(rest0);
    JoinIsTail(rest);
    JoinOne([ZERO], rest0);
    JoinOne(t, rest);
    hide EscapeToken, Join, Less;
    LessPrefix([SLASH], [ZERO] + Join(rest0), EscapeToken(t) + Join(rest));
    ZeroOrder(EscapeToken(t), Join(rest0), Join(rest));
  }

  /** The run over an object's leaves starts with token 0 exactly when a member named 0 comes first. */
  lemma FirstIsZero(es: seq<Entry>, ms: seq<Member>)
    requires Ordered(Object(ms)) && ms != [] && Lists(es, Object(ms)) && es != [] && Deep(es)
    ensures es[0].path[0] == [ZERO] <==> ZeroFirst(ms)
  {
    var v := Object(ms);
    if es[0].path[0] == [ZERO] {
      FirstIsZeroForward(es, ms);
    } else if ZeroFirst(ms) {
      var i :| 0 <= i < |ms| && ZeroFirstAt(ms, i);
      ZeroWouldPrecede(es, ms, i);
    }
  }

  lemma FirstIsZeroForward(es: seq<Entry>, ms: seq<Member>)
    requires Ordered(Object(ms)) && ms != [] && Lists(es, Object(ms)) && es != [] && Deep(es)
    requires es[0].path[0] == [ZERO]
    ensures ZeroFirst(ms)
  {
    var v := Object(ms);
    assert LeafAt(v, es[0].path).Some?;
    var i := PathThrough(v, es[0].path);
    var zero := ms[i];
    var rest0 := es[0].path[1..];
    assert rest0 == [] <==> IsLeaf(zero.value);
    forall j | 0 <= j < |ms| && j != i ensures AfterZero(EscapeToken(ms[j].key), IsLeaf(zero.value)) {
      KidKeys(v, i);
      var rest := SomeLeaf(ms[j].value);
      assert KidLeaf(v, j, rest);
      LeafThrough(v, j, rest);
      var k :| 0 <= k < |es| && es[k].path == [ms[j].key] + rest;
      assert es[k].path[0] == ms[j].key;
      assert Less(Join(es[0].path), Join(es[k].path));
      TokenOrder(ms[j].key, rest0, rest);
    }
    assert ZeroFirstAt(ms, i);
  }

  lemma ZeroWouldPrecede(es: seq<Entry>, ms: seq<Member>, i: nat)
    requires Ordered(Object(ms)) && Lists(es, Object(ms)) && es != [] && Deep(es)
    requires i < |ms| && ZeroFirstAt(ms, i)
    ensures es[0].path[0] == [ZERO]
  {
    var v := Object(ms);
    assert LeafAt(v, es[0].path).Some?;
    var j := PathThrough(v, es[0].path);
    var rest0 := SomeLeaf(ms[i].value);
    assert KidLeaf(v, i, rest0);
    LeafThrough(v, i, rest0);
    assert rest0 == [] <==> IsLeaf(ms[i].value);
    var k :| 0 <= k < |es| && es[k].path == [[ZERO]] + rest0;
    if j != i {
      KidKeys(v, i);
      TokenOrder(ms[j].key, rest0, es[0].path[1..]);
      assert Less(Join(es[k].path), Join(es[0].path));
      LessTotal(Join(es[k].path), Join(es[0].path));
    }
  }

  // ---------------------------------------------------------------- the exact condition

  /**
   No empty container anywhere, no array longer than int can index, and no object in which a member
   named 0 is the first that unflatten meets.
   */
  predicate Restorable(v: Json) {
    match v
    case Array(a) => 0 < |a| <= TWO_TO_31 && forall k :: 0 <= k < |a| ==> Restorable(a[k])
    case Object(ms) => ms != [] && !ZeroFirst(ms) && forall k :: 0 <= k < |ms| ==> Restorable(ms[k].value)
    case _ => true
  }

  lemma DeepLists(es: seq<Entry>, v: Json)
    requires Lists(es, v) && !IsLeaf(v)
    ensures Deep(es) && es != []
  {
    forall i | 0 <= i < |es| ensures es[i].path != [] {
      assert LeafAt(v, es[i].path) == Some(es[i].value);
    }
    var path := SomeLeaf(v);
    var i :| 0 <= i < |es| && es[i].path == path;
  }

  lemma RepeatedPath(es: seq<Entry>)
    requires |es| > 1 && es[0].path == es[1].path
    ensures !InOrder(es)
  {
    LessTotal(Join(es[0].path), Join(es[1].path));
  }

  lemma LeafBuilds(es: seq<Entry>, v: Json)
    requires Lists(es, v) && IsLeaf(v)
    ensures Build(es) == Ok(LeafValue(v))
  {
    assert LeafAt(v, []).Some?;
    var i :| 0 <= i < |es| && es[i].path == [];
    forall j | 0 <= j < |es| ensures es[j] == Entry([], LeafValue(v)) {
      assert LeafAt(v, es[j].path) == Some(es[j].value);
    }
    if |es| > 1 {
      RepeatedPath(es);
    }
    assert es == [Entry([], LeafValue(v))];
    assert es[..0] == [];
  }

  /** The run over an array's leaves starts under index 0. */
  lemma ArrayStartsAtZero(es: seq<Entry>, a: seq<Json>)
    requires Ordered(Array(a)) && Lists(es, Array(a)) && es != [] && Deep(es) && a != []
    ensures es[0].path[0] == [ZERO]
  {
    hide LeafAt, Join, Less, DigitsValue, EscapeToken;
    var v := Array(a);
    assert LeafAt(v, es[0].path).Some?;
    var j := PathThrough(v, es[0].path);
    var rest0 := SomeLeaf(a[0]);
    assert KidLeaf(v, 0, rest0) && Kids(v)[0].key == Decimal(0) == [ZERO];
    LeafThrough(v, 0, rest0);
    var k :| 0 <= k < |es| && es[k].path == [[ZERO]] + rest0;
    if j != 0 {
      var t := Decimal(j);
      DigitsStay(t);
      assert t[0] != ZERO && IsDigit(t[0]);
      TokenOrder(t, rest0, es[0].path[1..]);
      LessTotal(Join(es[k].path), Join(es[0].path));
    }
  }

  lemma ArrayIsIndexed(es: seq<Entry>, a: seq<Json>)
    requires Ordered(Array(a)) && Lists(es, Array(a)) && Deep(es) && a != []
    ensures Indexed(es)
  {
    forall i | 0 <= i < |es| ensures exists n: nat :: IsIndex(es[i].path[0], n) {
      assert LeafAt(Array(a), es[i].path).Some?;
      var j := PathThrough(Array(a), es[i].path);
      assert IsIndex(es[i].path[0], j);
    }
  }

  lemma IndexChild(a: seq<Json>, k: nat)
    requires Ordered(Array(a))
    ensures Child(Array(a), Decimal(k)) == if k < |a| then Some(a[k]) else None
  {
    if k < |a| {
      KidKeys(Array(a), k);
    } else {
      LookupKey(Kids(Array(a)), Decimal(k));
      forall i | 0 <= i < |a| ensures Kids(Array(a))[i].key != Decimal(k) {
        assert DigitsValue(Decimal(i)) == i && DigitsValue(Decimal(k)) == k;
      }
    }
  }

  /** What the run over the leaves of `v` builds is `v` if and only if `v` is restorable. */
  lemma {:induction false} BuildRestores(es: seq<Entry>, v: Json)
    requires Ordered(v) && Lists(es, v)
    ensures Restorable(v) ==> Build(es) == Ok(v)
    ensures Build(es).Ok? && Equal(Build(es).value, v) ==> Restorable(v)
    decreases v, 1
  {
    if IsLeaf(v) {
      LeafBuilds(es, v);
    } else if v.Object? {
      DeepLists(es, v);
      FirstIsZero(es, v.members);
      if es[0].path[0] == [ZERO] {
        BuildsNoObject(es);
      } else {
        ObjectRestores(es, v.members);
      }
    } else {
      DeepLists(es, v);
      ArrayStartsAtZero(es, v.elements);
      ArrayIsIndexed(es, v.elements);
      ArrayRestores(es, v.elements);
    }
  }

  lemma {:induction false} ObjectRestores(es: seq<Entry>, ms: seq<Member>)
    requires Ordered(Object(ms)) && Lists(es, Object(ms)) && ms != []
    requires es != [] && Deep(es) && es[0].path[0] != [ZERO] && !ZeroFirst(ms)
    ensures Restorable(Object(ms)) ==> Build(es) == Ok(Object(ms))
    ensures Build(es).Ok? && Equal(Build(es).value, Object(ms)) ==> Restorable(Object(ms))
    decreases ms, 0
  {
    hide Build, Sub, Lists, LeafAt, Join, Lookup;
    var v := Object(ms);
    BuildsObject(es);
    forall i | 0 <= i < |ms|
      ensures Child(v, ms[i].key) == Some(ms[i].value)
      ensures Restorable(ms[i].value) ==> Built(es, ms[i].key, ms[i].value)
      ensures forall w :: Built(es, ms[i].key, w) && Equal(w, ms[i].value) ==> Restorable(ms[i].value)
    {
      KidKeys(v, i);
      SubLists(es, v, ms[i].key);
      BuildRestores(Sub(es, ms[i].key), ms[i].value);
    }
    if Restorable(v) {
      forall t ensures Build(Sub(es, t)).Ok? && (Child(v, t).Some? ==> Built(es, t, Child(v, t).value)) {
        MemberBuilds(es, ms, t);
      }
      var r := Build(es).value.members;
      forall t ensures Lookup(r, t) == Lookup(ms, t) {
        SubNonempty(es, v, t);
        assert Built(es, t, OrNull(Lookup(r, t)));
      }
      SameAssociations(r, ms);
    }
    if Build(es).Ok? && Equal(Build(es).value, v) {
      var r := Build(es).value.members;
      forall i | 0 <= i < |ms| ensures Restorable(ms[i].value) {
        LookupAt(r, i);
        assert Built(es, ms[i].key, OrNull(Lookup(r, ms[i].key)));
      }
    }
  }

  lemma MemberBuilds(es: seq<Entry>, ms: seq<Member>, t: Str)
    requires Ordered(Object(ms)) && Lists(es, Object(ms)) && ms != []
    requires forall i :: 0 <= i < |ms| ==> Built(es, ms[i].key, ms[i].value)
    ensures Build(Sub(es, t)).Ok? && (Child(Object(ms), t).Some? ==> Built(es, t, Child(Object(ms), t).value))
  {
    SubNonempty(es, Object(ms), t);
    if Child(Object(ms), t).Some? {
      LookupKey(ms, t);
      var i :| 0 <= i < |ms| && ms[i].key == t;
      KidKeys(Object(ms), i);
    }
  }

  /** What the entries under index `k` build, against the k-th element. */
  ghost predicate IndexRestores(es: seq<Entry>, a: seq<Json>, k: nat) {
    if k >= |a| then Sub(es, Decimal(k)) == []
    else
      && Sub(es, Decimal(k)) != []
      && (Restorable(a[k]) ==> Built(es, Decimal(k), a[k]))
      && (forall w :: Built(es, Decimal(k), w) && Equal(w, a[k]) ==> Restorable(a[k]))
  }

  lemma {:induction false} IndexByIndex(es: seq<Entry>, a: seq<Json>, k: nat)
    requires Ordered(Array(a)) && Lists(es, Array(a)) && a != []
    ensures IndexRestores(es, a, k)
    decreases a, 0
  {
    IndexChild(a, k);
    SubNonempty(es, Array(a), Decimal(k));
    if k < |a| {
      SubLists(es, Array(a), Decimal(k));
      BuildRestores(Sub(es, Decimal(k)), a[k]);
    }
  }

  lemma {:induction false} ArrayRestores(es: seq<Entry>, a: seq<Json>)
    requires Ordered(Array(a)) && Lists(es, Array(a)) && a != []
    requires es != [] && Indexed(es) && es[0].path[0] == [ZERO]
    ensures Restorable(Array(a)) ==> Build(es) == Ok(Array(a))
    ensures Build(es).Ok? && Equal(Build(es).value, Array(a)) ==> Restorable(Array(a))
    decreases a, 1
  {
    hide Build, Sub, Decimal, Lists, Indexed;
    BuildsArray(es);
    forall k: nat ensures IndexRestores(es, a, k) {
      IndexByIndex(es, a, k);
    }
    if Restorable(Array(a)) {
      EmptyBuilds();
      forall k: nat ensures IndexBuilds(es, k) {
        assert IndexRestores(es, a, k);
      }
      var r := Build(es).value.elements;
      ArrayLength(es, a, r);
      forall k | 0 <= k < |a| ensures r[k] == a[k] {
        assert IndexRestores(es, a, k) && Built(es, Decimal(k), r[k]);
      }
      assert r == a;
    }
    if Build(es).Ok? && Equal(Build(es).value, Array(a)) {
      var r := Build(es).value.elements;
      ArrayLength(es, a, r);
      forall k | 0 <= k < |a| ensures Restorable(a[k]) {
        assert IndexRestores(es, a, k) && Built(es, Decimal(k), r[k]);
      }
    }
  }

  lemma ArrayLength(es: seq<Entry>, a: seq<Json>, r: seq<Json>)
    requires a != [] && ArrayOf(es, r) && forall k: nat :: IndexRestores(es, a, k)
    ensures |r| == |a| <= TWO_TO_31
  {
    hide Build, Sub, Decimal;
    assert IndexRestores(es, a, |a| - 1);
    assert Sub(es, Decimal(0)) != [] by {
      assert IndexRestores(es, a, 0);
    }
    assert IndexRestores(es, a, |r| - 1);
    assert Sub(es, Decimal(|a| - 1)) != [];
    assert Sub(es, Decimal(|r| - 1)) != [];
  }

  // ---------------------------------------------------------------- from the flattened object

  function EntriesOf(ms: seq<Member>): (es: seq<Entry>)
    requires forall i :: 0 <= i < |ms| ==> Tokens(ms[i].key).Ok?
    ensures |es| == |ms| && forall i :: 0 <= i < |ms| ==> es[i] == Entry(Tokens(ms[i].key).value, ms[i].value)
  {
    if ms == [] then []
    else
      var last := ms[|ms| - 1];
      EntriesOf(ms[..|ms| - 1]) + [Entry(Tokens(last.key).value, last.value)]
  }

  lemma {:induction false} UnflattenBuilds(ms: seq<Member>)
    requires forall i :: 0 <= i < |ms| ==> Tokens(ms[i].key).Ok? && IsPrimitive(ms[i].value)
    ensures UnflattenMembers(ms) == Build(EntriesOf(ms))
  {
    if ms != [] {
      var init, last := ms[..|ms| - 1], ms[|ms| - 1];
      UnflattenBuilds(init);
      BuildSnoc(EntriesOf(init), Entry(Tokens(last.key).value, last.value));
    }
  }

  lemma {:induction false} LeavesArePrimitive(v: Json, path: seq<Str>)
    ensures LeafAt(v, path).Some? ==> IsPrimitive(LeafAt(v, path).value)
    decreases path
  {
    if path != [] && Child(v, path[0]).Some? {
      LeavesArePrimitive(Child(v, path[0]).value, path[1..]);
    }
  }

  /** Every member of the flattened object is a leaf under its pointer. */
  lemma FlatMember(v: Json, i: nat) returns (path: seq<Str>)
    requires Ordered(v) && i < |Flatten([], v, [])|
    ensures var m := Flatten([], v, [])[i];
      m.key == Join(path) && Tokens(m.key) == Ok(path) && LeafAt(v, path) == Some(m.value) && IsPrimitive(m.value)
  {
    hide Join, LeafAt, Flatten;
    FlattenStores([], v, []);
    var ms := Flatten([], v, []);
    LookupAt(ms, i);
    assert Lookup([], ms[i].key).None?;
    assert LeafPointer([], v, ms[i].key);
    path :| LeafAt(v, path).Some? && ms[i].key == [] + Join(path);
    SplitJoin(path);
    LeavesArePrimitive(v, path);
    assert [] + Join(path) == Join(path);
  }

  lemma FlatMembers(v: Json)
    requires Ordered(v)
    ensures var ms := Flatten([], v, []);
      && Sorted(ms)
      && forall i | 0 <= i < |ms| ::
           Tokens(ms[i].key).Ok? && IsPrimitive(ms[i].value)
           && ms[i].key == Join(Tokens(ms[i].key).value) && LeafAt(v, Tokens(ms[i].key).value) == Some(ms[i].value)
  {
    hide Join, LeafAt, Flatten, Tokens;
    var ms := Flatten([], v, []);
    FlattenStores([], v, []);
    forall i | 0 <= i < |ms|
      ensures Tokens(ms[i].key).Ok? && IsPrimitive(ms[i].value) && ms[i].key == Join(Tokens(ms[i].key).value)
      ensures LeafAt(v, Tokens(ms[i].key).value) == Some(ms[i].value)
    {
      var path := FlatMember(v, i);
    }
  }

  /** Every leaf is a member of the flattened object. */
  lemma FlatHas(v: Json, path: seq<Str>) returns (i: nat)
    requires Ordered(v) && LeafAt(v, path).Some?
    ensures i < |Flatten([], v, [])| && Tokens(Flatten([], v, [])[i].key) == Ok(path)
  {
    hide Join, LeafAt, Flatten, Tokens;
    var ms := Flatten([], v, []);
    FlattenStores([], v, []);
    assert [] + Join(path) == Join(path);
    assert Lookup(ms, [] + Join(path)) == LeafAt(v, path);
    LookupKey(ms, Join(path));
    i :| 0 <= i < |ms| && ms[i].key == Join(path);
    SplitJoin(path);
  }

  lemma FlatLists(v: Json)
    requires Ordered(v)
    ensures var ms := Flatten([], v, []);
      && (forall i :: 0 <= i < |ms| ==> Tokens(ms[i].key).Ok? && IsPrimitive(ms[i].value))
      && Lists(EntriesOf(ms), v)
  {
    FlatMembers(v);
    hide Join, LeafAt, Flatten, Tokens, EntriesOf;
    var ms := Flatten([], v, []);
    var es := EntriesOf(ms);
    forall path | LeafAt(v, path).Some? ensures exists i :: 0 <= i < |es| && es[i].path == path {
      var i := FlatHas(v, path);
    }
    EntriesInOrder(ms);
  }

  lemma EntriesInOrder(ms: seq<Member>)
    requires Sorted(ms)
    requires forall i | 0 <= i < |ms| :: Tokens(ms[i].key).Ok? && ms[i].key == Join(Tokens(ms[i].key).value)
    ensures InOrder(EntriesOf(ms))
  {
    hide Join, Tokens, EntriesOf;
    var es := EntriesOf(ms);
    forall i, j | 0 <= i < j < |es| ensures Less(Join(es[i].path), Join(es[j].path)) {
      assert Less(ms[i].key, ms[j].key);
    }
  }

  lemma {:induction false} EqualReflexive(v: Json)
    ensures Equal(v, v)
    decreases v
  {
    match v {
      case Array(a) =>
        forall k | 0 <= k < |a| ensures Equal(a[k], a[k]) {
          EqualReflexive(a[k]);
        }
      case Object(ms) =>
        forall k | 0 <= k < |ms| ensures Equal(ms[k].value, ms[k].value) {
          EqualReflexive(ms[k].value);
        }
      case _ =>
    }
  }

  /**
   `j == j.flatten().unflatten()` holds exactly for the restorable values, although the map visits
   index 10 before index 2 and array slots are first filled with null.
   */
  lemma FlattenThenUnflatten(v: Json)
    requires Ordered(v)
    ensures var r := UnflattenMembers(Flatten([], v, []));
      && ((r.Ok? && Equal(r.value, v)) <==> Restorable(v))
      && (Restorable(v) ==> r == Ok(v))
  {
    hide *;
    FlatLists(v);
    var ms := Flatten([], v, []);
    UnflattenBuilds(ms);
    BuildRestores(EntriesOf(ms), v);
    EqualReflexive(v);
  }

  /** The trip through the imperative code. */
  method FlattenAndUnflatten(v: Json) returns (r: Result<Json, PointerError>)
    requires Ordered(v)
    ensures r.Ok? && Equal(r.value, v) <==> Restorable(v)
  {
    var flat := new FlatObject();
    FlattenTo([], v, flat);
    r := Unflatten(Object(flat.members));
    FlattenThenUnflatten(v);
  }

  /** The documented "always true" is not: {"0": 1} comes back as [1]. */
  lemma ZeroMemberIsLost()
    ensures var v := Object([Member([ZERO], UnsignedNumber(1))]);
      Ordered(v) && !Restorable(v) && UnflattenMembers(Flatten([], v, [])) == Ok(Array([UnsignedNumber(1)]))
  {
    var v := Object([Member([ZERO], UnsignedNumber(1))]);
    assert ZeroFirstAt(v.members, 0);
    DigitsStay([ZERO]);
    var key := [] + [SLASH] + EscapeToken([ZERO]);
    assert Flatten([], v, []) == FlattenKids([], v, 1, Flatten(key, UnsignedNumber(1), []));
    var ms := [Member(key, UnsignedNumber(1))];
    assert Flatten([], v, []) == ms;
    JoinOne([ZERO], []);
    assert key == Join([[ZERO]] + []) && [[ZERO]] + [] == [[ZERO]];
    SplitJoin([[ZERO]]);
    assert ms[..0] == [];
    assert SetAt(Null, [[ZERO]], UnsignedNumber(1)) == Ok(Array([UnsignedNumber(1)]));
  }
}
