/** Byte strings, the byte values the components share, and results that may be errors. */
module Bytes {

  type byte = b: int | 0 <= b < 256

  /** std::string, as the bytes it holds. */
  type Str = seq<byte>

  datatype Option<+T> = None | Some(value: T)

  datatype Result<+T, +E> = Ok(value: T) | Err(error: E)

  const QUOTE: byte := 0x22
  const BACKSLASH: byte := 0x5C
  const SLASH: byte := 0x2F
  const TILDE: byte := 0x7E
  const SPACE: byte := 0x20
  const NEWLINE: byte := 0x0A
  const RETURN: byte := 0x0D
  const COMMA: byte := 0x2C
  const COLON: byte := 0x3A
  const MINUS: byte := 0x2D
  const PLUS: byte := 0x2B
  const DOT: byte := 0x2E
  const DOLLAR: byte := 0x24
  const STAR: byte := 0x2A
  const ZERO: byte := 0x30
  const ONE: byte := 0x31

  const TWO_TO_31: nat := 0x8000_0000
  const TWO_TO_32: nat := 0x1_0000_0000
  const TWO_TO_63: nat := 0x8000_0000_0000_0000
  const TWO_TO_64: nat := 0x1_0000_0000_0000_0000

  predicate IsDigit(b: byte) {
    0x30 <= b <= 0x39
  }

  /** The bytes of `text` stand in `buf` at position `p`. */
  predicate At(buf: Str, p: nat, text: Str) {
    p + |text| <= |buf| && buf[p..p + |text|] == text
  }

  lemma AtByte(buf: Str, p: nat, text: Str, k: nat)
    requires At(buf, p, text) && k < |text|
    ensures buf[p + k] == text[k]
  {
    assert buf[p..p + |text|][k] == text[k];
  }

  lemma AtSplit(buf: Str, p: nat, a: Str, b: Str)
    ensures At(buf, p, a + b) <==> At(buf, p, a) && At(buf, p + |a|, b)
  {
    if p + |a| + |b| <= |buf| {
      var s := buf[p..p + |a| + |b|];
      assert s == buf[p..p + |a|] + buf[p + |a|..p + |a| + |b|];
      if s == a + b {
        assert s[..|a|] == a && s[|a|..] == b;
      }
    }
  }

  lemma AtSnoc(buf: Str, p: nat, text: Str, k: nat)
    requires k < |text| && At(buf, p, text[..k]) && p + k < |buf| && buf[p + k] == text[k]
    ensures At(buf, p, text[..k + 1])
  {
    AtSplit(buf, p, text[..k], [text[k]]);
    assert text[..k + 1] == text[..k] + [text[k]];
  }

  lemma SliceParts(s: Str, i: nat, j: nat)
    requires i <= j <= |s|
    ensures s[..j] == s[..i] + s[i..j]
  {
  }

  /** std::string's ordering: lexicographic on unsigned bytes. */
  predicate Less(a: Str, b: Str) {
    if b == [] then false
    else if a == [] then true
    else if a[0] != b[0] then a[0] < b[0]
    else Less(a[1..], b[1..])
  }

  lemma {:induction false} LessTransitive(a: Str, b: Str, c: Str)
    requires Less(a, b) && Less(b, c)
    ensures Less(a, c)
  {
    if a != [] && a[0] == b[0] == c[0] {
      LessTransitive(a[1..], b[1..], c[1..]);
    }
  }

  lemma {:induction false} LessTotal(a: Str, b: Str)
    ensures !Less(a, a)
    ensures a == b || Less(a, b) || Less(b, a)
    ensures !(Less(a, b) && Less(b, a))
  {
    if a != [] {
      LessTotal(a[1..], a[1..]);
    }
    if a != [] && b != [] && a[0] == b[0] {
      LessTotal(a[1..], b[1..]);
      assert a == [a[0]] + a[1..] && b == [b[0]] + b[1..];
    }
  }

  /** Decimal representation without leading zeros, as operator<< and std::to_string write it. */
  function Decimal(n: nat): (s: Str)
    ensures |s| > 0
    ensures forall k :: 0 <= k < |s| ==> IsDigit(s[k])
    ensures s[0] == ZERO ==> s == [ZERO]
    ensures n > 0 ==> s[0] != ZERO
    ensures DigitsValue(s) == n
    decreases n
  {
    if n < 10 then
      assert DigitsValue([]) == 0;
      [ZERO + n]
    else
      var front := Decimal(n / 10);
      var s := front + [ZERO + n % 10];
      assert s[..|s| - 1] == front;
      s
  }

  /** The number a digit string denotes. */
  function DigitsValue(s: Str): nat
    requires forall k :: 0 <= k < |s| ==> IsDigit(s[k])
  {
    if s == [] then 0
    else
      assert IsDigit(s[|s| - 1]);
      10 * DigitsValue(s[..|s| - 1]) + (s[|s| - 1] - 0x30)
  }
}
