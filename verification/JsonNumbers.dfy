/**
 Number tokens: the 64-bit accumulation with its wrap test, exactly when it is right, and printing
 integers and reading them back.
 */
module JsonNumbers {
  import opened Bytes
  import opened JsonScanner

  /** A parsed number; a float is left as its token's text, since strtod is foreign. */
  datatype Number = Unsigned(u: nat) | Integer(i: int) | Float(text: Str)

  function MaxOf(negative: bool): nat {
    if negative then TWO_TO_63 else TWO_TO_64 - 1
  }

  /** static_cast to int64_t and back: two's complement. */
  function ToInt64(v: int): int {
    var m := v % TWO_TO_64;
    if m < TWO_TO_63 then m else m - TWO_TO_64
  }

  /** One digit more, in uint64_t arithmetic; None when the wrap test fires. */
  function Step(value: nat, c: byte, max: nat): Option<nat> {
    var temp := (value * 10 + c - 0x30) % TWO_TO_64;
    if temp < value || temp > max then None else Some(temp)
  }

  function Accumulate(b: Str, i: nat, e: nat, value: nat, max: nat): Option<nat>
    requires i <= e <= |b|
    decreases e - i
  {
    if i == e then Some(value)
    else match Step(value, b[i], max)
    case None => None
    case Some(next) => Accumulate(b, i + 1, e, next, max)
  }

  /** The value of `value` followed by the digits b[i..e], with no bound. */
  function Exact(b: Str, i: nat, e: nat, value: nat): nat
    requires i <= e <= |b| && AllDigits(b, i, e)
    decreases e - i
  {
    if i == e then value
    else assert IsDigit(b[i]); Exact(b, i + 1, e, value * 10 + (b[i] as int - 0x30))
  }

  function FirstDigit(b: Str, s: nat): (i: nat)
    requires s < |b|
    ensures s <= i <= s + 1
  {
    if b[s] == MINUS then s + 1 else s
  }

  /** What get_number stores for the number token b[s..e]. */
  function NumberOf(b: Str, s: nat, e: nat): Number
    requires Terminated(b) && s < |b| && NumberEnd(b, s) == Some(e)
  {
    NumberIsNonempty(b, s);
    var i := FirstDigit(b, s);
    if !AllDigits(b, i, e) then Float(b[s..e])
    else match Accumulate(b, i, e, 0, MaxOf(b[s] == MINUS))
    case None => Float(b[s..e])
    case Some(v) => if b[s] == MINUS then Integer(ToInt64(-ToInt64(v))) else Unsigned(v)
  }

  lemma NumberIsNonempty(b: Str, s: nat)
    requires Terminated(b) && s < |b| && NumberEnd(b, s).Some?
    ensures FirstDigit(b, s) < NumberEnd(b, s).value < |b| && IsDigit(b[FirstDigit(b, s)])
  {
  }

  /** lexer::get_number on the token content[start..cursor]. */
  method GetNumber(content: Str, start: nat, cursor: nat) returns (r: Number)
    requires Terminated(content) && start < |content| && NumberEnd(content, start) == Some(cursor)
    ensures r == NumberOf(content, start, cursor)
  {
    NumberIsNonempty(content, start);
    var curptr := start;
    var value: nat := 0;
    var negative := content[curptr] == MINUS;
    var isFloat := false;
    var max := MaxOf(negative);
    if negative || content[curptr] == PLUS {
      curptr := curptr + 1;
    }
    ghost var first := FirstDigit(content, start);
    assert curptr == first;
    while curptr < cursor
      invariant first <= curptr <= cursor
      invariant !isFloat ==> AllDigits(content, first, curptr)
      invariant !isFloat ==> Accumulate(content, first, cursor, 0, max) == Accumulate(content, curptr, cursor,
        value, max)
      invariant isFloat ==> !AllDigits(content, first, cursor) || Accumulate(content, first, cursor, 0, max).None?
    {
      var c := content[curptr];
      if !IsDigit(c) {
        isFloat := true;
        if c != DOT {
          break;
        }
      } else if !isFloat {
        var temp := (value * 10 + c - 0x30) % TWO_TO_64;
        if temp < value || temp > max {
          isFloat := true;
        } else {
          value := temp;
        }
      }
      curptr := curptr + 1;
    }
    if isFloat {
      r := Float(content[start..cursor]);
    } else if negative {
      r := Integer(ToInt64(-ToInt64(value)));
    } else {
      r := Unsigned(value);
    }
  }

  // ---------------------------------------------------------------- when the accumulation is right

  lemma {:induction false} ExactSnoc(b: Str, i: nat, e: nat, value: nat)
    requires i <= e < |b| && AllDigits(b, i, e + 1)
    ensures IsDigit(b[e]) && Exact(b, i, e + 1, value) == Exact(b, i, e, value) * 10 + (b[e] as int - 0x30)
    decreases e - i
  {
    assert IsDigit(b[e]);
    if i < e {
      assert IsDigit(b[i]);
      ExactSnoc(b, i + 1, e, value * 10 + (b[i] as int - 0x30));
    }
  }

  lemma {:induction false} ExactIsValue(b: Str, i: nat, e: nat)
    requires i <= e <= |b| && AllDigits(b, i, e)
    ensures forall k :: 0 <= k < e - i ==> IsDigit(b[i..e][k])
    ensures Exact(b, i, e, 0) == DigitsValue(b[i..e])
    decreases e - i
  {
    if i < e {
      ExactIsValue(b, i, e - 1);
      ExactSnoc(b, i, e - 1, 0);
      assert b[i..e][..e - i - 1] == b[i..e - 1];
    }
  }

  lemma {:induction false} ExactGrows(b: Str, i: nat, e: nat, value: nat)
    requires i <= e <= |b| && AllDigits(b, i, e)
    ensures Exact(b, i, e, value) >= value
    decreases e - i
  {
    if i < e {
      assert IsDigit(b[i]);
      ExactGrows(b, i + 1, e, value * 10 + (b[i] as int - 0x30));
    }
  }

  lemma {:induction false} AccumulateFits(b: Str, i: nat, e: nat, value: nat, max: nat)
    requires i <= e <= |b| && AllDigits(b, i, e) && max < TWO_TO_64
    requires Exact(b, i, e, value) <= max
    ensures Accumulate(b, i, e, value, max) == Some(Exact(b, i, e, value))
    decreases e - i
  {
    if i < e {
      assert IsDigit(b[i]);
      var next := value * 10 + (b[i] as int - 0x30);
      ExactGrows(b, i + 1, e, next);
      StepFits(value, b[i], max);
      AccumulateFits(b, i + 1, e, next, max);
    }
    hide Step;
  }

  lemma StepFits(value: nat, c: byte, max: nat)
    requires IsDigit(c) && value * 10 + (c as int - 0x30) <= max < TWO_TO_64
    ensures Step(value, c, max) == Some(value * 10 + (c as int - 0x30))
  {
  }

  /** Some prefix of the digits, reduced to 64 bits, drops below its predecessor or above `max`. */
  predicate WrapShows(b: Str, i: nat, e: nat, max: nat)
    requires i <= e <= |b| && AllDigits(b, i, e)
  {
    exists j :: i <= j < e && PrefixWraps(b, i, j, max)
  }

  predicate PrefixWraps(b: Str, i: nat, j: nat, max: nat)
    requires i <= j < |b| && AllDigits(b, i, j + 1)
  {
    var shorter, longer := Exact(b, i, j, 0) % TWO_TO_64, Exact(b, i, j + 1, 0) % TWO_TO_64;
    longer < shorter || longer > max
  }

  lemma ReducedStep(x: nat, c: byte)
    requires IsDigit(c)
    ensures (x % TWO_TO_64 * 10 + c - 0x30) % TWO_TO_64 == (x * 10 + c - 0x30) % TWO_TO_64
  {
    var q, r := x / TWO_TO_64, x % TWO_TO_64;
    var y := r * 10 + c - 0x30;
    assert x * 10 + c - 0x30 == y + TWO_TO_64 * (q * 10);
    ModPlus(y, q * 10);
  }

  lemma {:induction false} ModPlus(y: nat, k: nat)
    ensures (y + TWO_TO_64 * k) % TWO_TO_64 == y % TWO_TO_64
  {
    if k > 0 {
      ModPlus(y, k - 1);
      var z := y + TWO_TO_64 * (k - 1);
      assert y + TWO_TO_64 * k == z + TWO_TO_64;
    }
  }

  lemma {:induction false} AccumulateMeans(b: Str, i: nat, j: nat, e: nat, max: nat)
    requires i <= j <= e <= |b| && AllDigits(b, i, e)
    ensures var r := Accumulate(b, j, e, Exact(b, i, j, 0) % TWO_TO_64, max);
      && (r.None? <==> exists k :: j <= k < e && PrefixWraps(b, i, k, max))
      && (r.Some? ==> r.value == Exact(b, i, e, 0) % TWO_TO_64)
    decreases e - j
  {
    if j < e {
      assert IsDigit(b[j]);
      ExactSnoc(b, i, j, 0);
      ReducedStep(Exact(b, i, j, 0), b[j]);
      AccumulateMeans(b, i, j + 1, e, max);
      assert Step(Exact(b, i, j, 0) % TWO_TO_64, b[j], max).None? <==> PrefixWraps(b, i, j, max);
    }
  }

  lemma AccumulateFromZero(b: Str, i: nat, e: nat, max: nat)
    requires i <= e <= |b| && AllDigits(b, i, e)
    ensures var r := Accumulate(b, i, e, 0, max);
      && (r.None? <==> WrapShows(b, i, e, max))
      && (r.Some? ==> r.value == Exact(b, i, e, 0) % TWO_TO_64)
  {
    AccumulateMeans(b, i, i, e, max);
  }

  /** An integer token was understood: exactly if it fits, and as a float if it does not. */
  predicate Right(r: Number, negative: bool, n: nat) {
    if n > MaxOf(negative) then r.Float?
    else r == if negative then Integer(0 - n) else Unsigned(n)
  }

  /**
   get_number treats an integer token as documented if and only if the token fits or some prefix
   shows the wrap; and what it gives otherwise is the value reduced to 64 bits.
   */
  lemma GetNumberRightIff(b: Str, s: nat, e: nat)
    requires Terminated(b) && s < |b| && NumberEnd(b, s) == Some(e)
    requires FirstDigit(b, s) < e && AllDigits(b, FirstDigit(b, s), e)
    ensures var i, negative := FirstDigit(b, s), b[s] == MINUS;
      var n := Exact(b, i, e, 0);
      && (Right(NumberOf(b, s, e), negative, n) <==> n <= MaxOf(negative) || WrapShows(b, i, e, MaxOf(negative)))
      && (NumberOf(b, s, e).Unsigned? ==> NumberOf(b, s, e).u == n % TWO_TO_64)
  {
    hide Accumulate, NumberEnd, WrapShows, Exact, ToInt64;
    var i, negative := FirstDigit(b, s), b[s] == MINUS;
    var n, max := Exact(b, i, e, 0), MaxOf(negative);
    AccumulateFromZero(b, i, e, max);
    if n <= max {
      AccumulateFits(b, i, e, 0, max);
      Negated(n, negative);
    }
  }

  lemma Reduced(v: int, m: nat)
    requires m < TWO_TO_64 && (v == m || v == m - TWO_TO_64)
    ensures v % TWO_TO_64 == m && ToInt64(v) == if m < TWO_TO_63 then m else m - TWO_TO_64
  {
  }

  lemma Negated(n: nat, negative: bool)
    requires n <= MaxOf(negative)
    ensures n < TWO_TO_64 && n % TWO_TO_64 == n
    ensures negative ==> ToInt64(-ToInt64(n)) == 0 - n
  {
    hide ToInt64;
    Reduced(n, n);
    if n == TWO_TO_63 {
      Reduced(TWO_TO_63, TWO_TO_63);
    } else if 0 < n < TWO_TO_63 {
      Reduced(0 - n, TWO_TO_64 - n);
    } else if n == 0 {
      Reduced(0, 0);
    }
  }

  /** The wrap test misses 30000000000000000000: it comes back as 11553255926290448384. */
  lemma WrapTestMisses()
    ensures var b: Str := [0x33] + seq(19, _ => ZERO) + [0];
      Terminated(b) && NumberEnd(b, 0) == Some(20) && NumberOf(b, 0, 20) == Unsigned(11553255926290448384)
      && AllDigits(b, 0, 20) && Exact(b, 0, 20, 0) == 30000000000000000000
  {
    var b: Str := [0x33] + seq(19, _ => ZERO) + [0];
    assert AllDigits(b, 0, 20);
    DigitsEndMax(b, 0, 20);
    assert NumberEnd(b, 0) == Some(20);
    hide NumberEnd, DigitsEnd;
    assert Exact(b, 0, 20, 0) == Exact(b, 1, 20, 3);
    assert Accumulate(b, 0, 20, 0, TWO_TO_64 - 1) == Accumulate(b, 1, 20, 3, TWO_TO_64 - 1);
    assert forall k :: 1 <= k < 20 ==> b[k] == ZERO;
    NineteenZeros(b, 3);
  }

  lemma NineteenZeros(b: Str, v: nat)
    requires |b| == 21 && v == 3 && forall k :: 1 <= k < 20 ==> b[k] == ZERO
    ensures AllDigits(b, 1, 20) && Exact(b, 1, 20, v) == 30000000000000000000
    ensures Accumulate(b, 1, 20, v, TWO_TO_64 - 1) == Some(11553255926290448384)
  {
    hide Exact, Accumulate;
    Zeros(b, 1, 19, v);
    AccumulateFits(b, 1, 19, v, TWO_TO_64 - 1);
    ExactSnoc(b, 1, 19, v);
    AccumulateSnoc(b, 1, 19, v, TWO_TO_64 - 1);
  }

  lemma Zeros(b: Str, i: nat, e: nat, v: nat)
    requires e == i + 18 && e <= |b| && forall k :: i <= k < e ==> b[k] == ZERO
    ensures AllDigits(b, i, e) && Exact(b, i, e, v) == v * 1000000000000000000
  {
    TenMore(b, i, i + 6, e, v);
    TenMore(b, i + 6, i + 12, e, v * 1000000);
    TenMore(b, i + 12, i + 18, e, v * 1000000000000);
  }

  lemma TenMore(b: Str, i: nat, m: nat, e: nat, v: nat)
    requires m == i + 6 && m <= e <= |b| && forall k :: i <= k < e ==> b[k] == ZERO
    ensures AllDigits(b, i, e) && Exact(b, i, e, v) == Exact(b, m, e, v * 1000000)
  {
    assert AllDigits(b, i, e);
    assert Exact(b, i, e, v) == Exact(b, i + 1, e, v * 10);
    assert Exact(b, i + 1, e, v * 10) == Exact(b, i + 2, e, v * 100);
    assert Exact(b, i + 2, e, v * 100) == Exact(b, i + 3, e, v * 1000);
    assert Exact(b, i + 3, e, v * 1000) == Exact(b, i + 4, e, v * 10000);
    assert Exact(b, i + 4, e, v * 10000) == Exact(b, i + 5, e, v * 100000);
  }

  lemma {:induction false} AccumulateSnoc(b: Str, i: nat, e: nat, value: nat, max: nat)
    requires i <= e < |b|
    ensures var r := Accumulate(b, i, e, value, max);
      Accumulate(b, i, e + 1, value, max) == if r.None? then None else Step(r.value, b[e], max)
    decreases e - i
  {
    if i < e {
      var r := Step(value, b[i], max);
      if r.Some? {
        AccumulateSnoc(b, i + 1, e, r.value, max);
      }
    }
  }

  // ---------------------------------------------------------------- printing and reading back

  /** operator<< on an integer. */
  function PrintInt(n: int): (s: Str)
    ensures |s| > 0
  {
    if n < 0 then [MINUS] + Decimal(-n) else Decimal(n)
  }

  /** A byte that cannot continue an integer token. */
  predicate EndsNumber(c: byte) {
    !IsDigit(c) && c != DOT && !IsE(c)
  }

  /** An integer of int64_t or uint64_t. */
  predicate Is64Bit(n: int) {
    0 - TWO_TO_63 <= n < TWO_TO_64
  }

  /** Where the text of `n` stands, its digits are an integer token with value |n|. */
  lemma PrintedDigits(b: Str, p: nat, n: int)
    requires Terminated(b) && At(b, p, PrintInt(n)) && p + |PrintInt(n)| < |b| && EndsNumber(b[p + |PrintInt(n)|])
    ensures var i, e := FirstDigit(b, p), p + |PrintInt(n)|;
      && (b[p] == MINUS <==> n < 0) && i < e && IsInt(b, i, e)
      && Exact(b, i, e, 0) == if n < 0 then -n else n
  {
    hide Decimal;
    var text := Decimal(if n < 0 then -n else n);
    var e := p + |PrintInt(n)|;
    var i := e - |text|;
    if n < 0 {
      AtSplit(b, p, [MINUS], text);
      AtByte(b, p, [MINUS], 0);
    }
    assert b[i..e] == text;
    assert IsDigit(text[0]) && b[i] == text[0];
    DigitsFrom(b, i, e, text);
    ExactIsValue(b, i, e);
  }

  lemma DigitsFrom(b: Str, i: nat, e: nat, text: Str)
    requires i < e <= |b| && b[i..e] == text && forall k :: 0 <= k < |text| ==> IsDigit(text[k])
    ensures AllDigits(b, i, e)
  {
    forall k | i <= k < e ensures IsDigit(b[k]) {
      assert b[k] == text[k - i];
    }
  }

  /** An integer token followed by a byte that cannot continue it is scanned to that byte. */
  lemma ScanInt(b: Str, p: nat, e: nat)
    requires Terminated(b) && p < e < |b| && EndsNumber(b[e])
    requires FirstDigit(b, p) < e && IsInt(b, FirstDigit(b, p), e)
    ensures NumberEnd(b, p) == Some(e) && NextToken(b, p) == Lexeme(ValueNumber, p, e)
  {
    var i := FirstDigit(b, p);
    DigitsEndMax(b, i, e);
    assert IsDigit(b[i]) && IntEnd(b, i) == e;
    assert NumberEnd(b, p) == Some(e) by {
      assert FracEnd(b, e) == e && ExpEnd(b, e) == e;
    }
    assert SkipEnd(b, p) == p;
  }

  /** A printed integer is scanned as one token and read back exactly; `n` >= 0 comes back unsigned. */
  lemma PrintedNumber(b: Str, p: nat, n: int)
    requires Terminated(b) && Is64Bit(n)
    requires At(b, p, PrintInt(n)) && p + |PrintInt(n)| < |b| && EndsNumber(b[p + |PrintInt(n)|])
    ensures NextToken(b, p) == Lexeme(ValueNumber, p, p + |PrintInt(n)|)
    ensures NumberEnd(b, p) == Some(p + |PrintInt(n)|)
    ensures NumberOf(b, p, p + |PrintInt(n)|) == if n < 0 then Integer(n) else Unsigned(n)
  {
    hide PrintInt, NextToken, NumberEnd, Accumulate;
    var e := p + |PrintInt(n)|;
    PrintedDigits(b, p, n);
    ScanInt(b, p, e);
    AccumulateFits(b, FirstDigit(b, p), e, 0, MaxOf(n < 0));
  }
}
