/**
 The string layer of the JSON code: escaping into a preallocated buffer, the units a string token
 is made of, and unescaping with surrogate pairs.
 */
module JsonStrings {
  import opened Bytes

  // ---------------------------------------------------------------- escaping

  function HexDigit(v: nat): byte
    requires v < 16
  {
    if v < 10 then ZERO + v else 0x61 + v - 10
  }

  /** The second byte of the two-byte escape of `c`, if it has one. */
  function ShortEscape(c: byte): Option<byte> {
    if c == QUOTE then Some(QUOTE)
    else if c == BACKSLASH then Some(BACKSLASH)
    else if c == 0x08 then Some(0x62)
    else if c == 0x0C then Some(0x66)
    else if c == 0x0A then Some(0x6E)
    else if c == 0x0D then Some(0x72)
    else if c == 0x09 then Some(0x74)
    else None
  }

  function EscapeByte(c: byte): (r: Str)
    ensures |r| > 0
  {
    match ShortEscape(c)
    case Some(short) => [BACKSLASH, short]
    case None =>
      if c <= 0x1F then [BACKSLASH, 0x75, ZERO, ZERO, HexDigit(c / 16), HexDigit(c % 16)] else [c]
  }

  /** What a JSON string shows for `s` between its quotes. */
  function Escape(s: Str): Str {
    if s == [] then [] else EscapeByte(s[0]) + Escape(s[1..])
  }

  lemma {:induction false} EscapeConcat(s: Str, t: Str)
    ensures Escape(s + t) == Escape(s) + Escape(t)
  {
    hide EscapeByte;
    if s == [] {
      assert s + t == t;
    } else {
      EscapeConcat(s[1..], t);
      assert (s + t)[1..] == s[1..] + t;
    }
  }

  lemma EscapeSnoc(s: Str, i: nat)
    requires i < |s|
    ensures Escape(s[..i + 1]) == Escape(s[..i]) + EscapeByte(s[i])
  {
    EscapeConcat(s[..i], [s[i]]);
    assert s[..i + 1] == s[..i] + [s[i]];
    assert Escape([s[i]]) == EscapeByte(s[i]);
  }

  lemma {:induction false} EscapeLength(s: Str)
    ensures |Escape(s)| >= |s|
    ensures |Escape(s)| == |s| ==> Escape(s) == s
  {
    if s != [] {
      EscapeLength(s[1..]);
      assert s == [s[0]] + s[1..];
    }
  }

  lemma EscapePrefixFits(s: Str, i: nat)
    requires i < |s|
    ensures |Escape(s[..i])| + |EscapeByte(s[i])| <= |Escape(s)|
  {
    EscapeSnoc(s, i);
    EscapeConcat(s[..i + 1], s[i + 1..]);
    assert s == s[..i + 1] + s[i + 1..];
  }

  /** How many bytes escaping adds. */
  method ExtraSpace(s: Str) returns (result: nat)
    ensures result == |Escape(s)| - |s|
  {
    result := 0;
    for i := 0 to |s|
      invariant result + i == |Escape(s[..i])|
    {
      EscapeSnoc(s, i);
      if s[i] in {QUOTE, BACKSLASH, 0x08, 0x0C, 0x0A, 0x0D, 0x09} {
        result := result + 1;
      } else if s[i] <= 0x1F {
        result := result + 5;
      }
    }
    assert s[..|s|] == s;
  }

  /** Escapes into a buffer of exactly the needed size, filled with reverse solidi beforehand. */
  method EscapeString(s: Str) returns (r: Str)
    ensures r == Escape(s)
  {
    var space := ExtraSpace(s);
    EscapeLength(s);
    if space == 0 {
      return s;
    }
    var result := new byte[|s| + space](_ => BACKSLASH);
    var pos := 0;
    for i := 0 to |s|
      invariant pos == |Escape(s[..i])| <= result.Length == |Escape(s)|
      invariant result[..pos] == Escape(s[..i])
      invariant forall k :: pos <= k < result.Length ==> result[k] == BACKSLASH
    {
      hide Escape, EscapeByte;
      EscapeSnoc(s, i);
      EscapePrefixFits(s, i);
      pos := WriteEscaped(result, pos, s[i]);
    }
    assert s[..|s|] == s && result[..] == result[..pos];
    return result[..];
  }

  /** Writes `text` after the reverse solidus that already stands at `pos0`. */
  method WriteLetters(result: array<byte>, pos0: nat, text: Str) returns (pos: nat)
    requires pos0 + 1 + |text| <= result.Length
    requires forall k :: pos0 <= k < result.Length ==> result[k] == BACKSLASH
    modifies result
    ensures pos == pos0 + 1 + |text|
    ensures result[..pos0] == old(result[..pos0])
    ensures result[pos0..pos] == [BACKSLASH] + text
    ensures forall k :: pos <= k < result.Length ==> result[k] == BACKSLASH
  {
    pos := pos0;
    for j := 0 to |text|
      invariant pos == pos0 + j
      invariant result[..pos0] == old(result[..pos0])
      invariant forall k :: pos0 < k <= pos ==> result[k] == text[k - pos0 - 1]
      invariant forall k :: pos < k < result.Length ==> result[k] == BACKSLASH
      invariant result[pos0] == BACKSLASH
    {
      pos := pos + 1;
      result[pos] := text[j];
    }
    pos := pos + 1;
  }

  /** The body of the loop of escape_string: one byte escaped at `pos`. */
  method WriteEscaped(result: array<byte>, pos0: nat, c: byte) returns (pos: nat)
    requires pos0 + |EscapeByte(c)| <= result.Length
    requires forall k :: pos0 <= k < result.Length ==> result[k] == BACKSLASH
    modifies result
    ensures pos == pos0 + |EscapeByte(c)|
    ensures result[..pos] == old(result[..pos0]) + EscapeByte(c)
    ensures forall k :: pos <= k < result.Length ==> result[k] == BACKSLASH
  {
    pos := pos0;
    if c == QUOTE {
      pos := WriteLetters(result, pos, [QUOTE]);
    } else if c == BACKSLASH {
      pos := pos + 2;
    } else if c == 0x08 {
      pos := WriteLetters(result, pos, [0x62]);
    } else if c == 0x0C {
      pos := WriteLetters(result, pos, [0x66]);
    } else if c == 0x0A {
      pos := WriteLetters(result, pos, [0x6E]);
    } else if c == 0x0D {
      pos := WriteLetters(result, pos, [0x72]);
    } else if c == 0x09 {
      pos := WriteLetters(result, pos, [0x74]);
    } else if c <= 0x1F {
      pos := WriteLetters(result, pos, [0x75, ZERO, ZERO, HexDigit(c / 16), HexDigit(c % 16)]);
    } else {
      result[pos] := c;
      pos := pos + 1;
    }
    assert result[..pos0] == old(result[..pos0]);
    assert result[pos0..pos] == EscapeByte(c);
    ghost var all := result[..];
    SliceParts(all, pos0, pos);
    assert all[..pos] == result[..pos] && all[..pos0] == result[..pos0] && all[pos0..pos] == result[pos0..pos];
  }

  // ---------------------------------------------------------------- units of a string token

  predicate IsHex(b: byte) {
    IsDigit(b) || 0x41 <= b <= 0x46 || 0x61 <= b <= 0x66
  }

  function HexValue(b: byte): nat
    requires IsHex(b)
  {
    if IsDigit(b) then b - 0x30 else if b <= 0x46 then b - 0x41 + 10 else b - 0x61 + 10
  }

  predicate IsHex4(b: Str, i: nat)
    requires i + 4 <= |b|
  {
    IsHex(b[i]) && IsHex(b[i + 1]) && IsHex(b[i + 2]) && IsHex(b[i + 3])
  }

  /** strtoul on the four bytes at `i`, base 16. */
  function Hex4(b: Str, i: nat): nat
    requires i + 4 <= |b| && IsHex4(b, i)
  {
    HexValue(b[i]) * 4096 + HexValue(b[i + 1]) * 256 + HexValue(b[i + 2]) * 16 + HexValue(b[i + 3])
  }

  /** The bytes the scanner lets stand for themselves (wider than RFC 7159: 0x10-0x1F pass). */
  predicate IsPlain(b: byte) {
    b >= 0x10 && b != QUOTE && b != BACKSLASH
  }

  /** `" \ / b f n r t` */
  predicate IsSimpleEscape(b: byte) {
    b in {QUOTE, BACKSLASH, SLASH, 0x62, 0x66, 0x6E, 0x72, 0x74}
  }

  /** The length of the string unit that starts at `i` and ends by `e`; 0 when there is none. */
  function UnitLen(b: Str, i: nat, e: nat): (n: nat)
    requires i < e <= |b|
    ensures i + n <= e
  {
    if b[i] != BACKSLASH then
      if IsPlain(b[i]) then 1 else 0
    else if i + 1 < e && IsSimpleEscape(b[i + 1]) then 2
    else if i + 5 < e && b[i + 1] == 0x75 && IsHex4(b, i + 2) then 6
    else 0
  }

  /** b[i..e] is a sequence of string units. */
  predicate IsBody(b: Str, i: nat, e: nat)
    requires i <= e <= |b|
    decreases e - i
  {
    i == e || (UnitLen(b, i, e) > 0 && IsBody(b, i + UnitLen(b, i, e), e))
  }

  /** b[i..e] is a string token: quoted units. */
  predicate IsStringToken(b: Str, i: nat, e: nat)
    requires i <= e <= |b|
  {
    i + 2 <= e && b[i] == QUOTE && b[e - 1] == QUOTE && IsBody(b, i + 1, e - 1)
  }

  // ---------------------------------------------------------------- unescaping

  datatype StringError = MissingLowSurrogate | OutOfRange

  predicate IsHigh(c: nat) {
    0xD800 <= c <= 0xDBFF
  }

  predicate IsLow(c: nat) {
    0xDC00 <= c <= 0xDFFF
  }

  /** lexer::to_unicode */
  function ToUnicode(codepoint1: nat, codepoint2: nat): Result<Str, StringError> {
    if IsHigh(codepoint1) && !IsLow(codepoint2) then Err(MissingLowSurrogate)
    else
      var codepoint := if IsHigh(codepoint1) then codepoint1 * 1024 + codepoint2 - 0x35FDC00 else codepoint1;
      if codepoint < 0x80 then Ok([codepoint])
      else if codepoint <= 0x7FF then Ok([0xC0 + codepoint / 64 % 32, 0x80 + codepoint % 64])
      else if codepoint <= 0xFFFF then
        Ok([0xE0 + codepoint / 4096 % 16, 0x80 + codepoint / 64 % 64, 0x80 + codepoint % 64])
      else if codepoint <= 0x10FFFF then
        Ok([0xF0 + codepoint / 262144 % 8, 0x80 + codepoint / 4096 % 64,
            0x80 + codepoint / 64 % 64, 0x80 + codepoint % 64])
      else Err(OutOfRange)
  }

  /** The code point of a UTF-8 sequence by the bit layout of RFC 3629, section 3. */
  function DecodeUtf8(s: Str): Option<nat> {
    if |s| == 1 && s[0] < 0x80 then Some(s[0])
    else if |s| == 2 && 0xC0 <= s[0] < 0xE0 && Trail(s[1]) then
      Some((s[0] as int - 0xC0) * 64 + (s[1] as int - 0x80))
    else if |s| == 3 && 0xE0 <= s[0] < 0xF0 && Trail(s[1]) && Trail(s[2]) then
      Some((s[0] as int - 0xE0) * 4096 + (s[1] as int - 0x80) * 64 + (s[2] as int - 0x80))
    else if |s| == 4 && 0xF0 <= s[0] < 0xF8 && Trail(s[1]) && Trail(s[2]) && Trail(s[3]) then
      Some((s[0] as int - 0xF0) * 262144 + (s[1] as int - 0x80) * 4096
           + (s[2] as int - 0x80) * 64 + (s[3] as int - 0x80))
    else None
  }

  /** Of the lengths the layout allows, RFC 3629 allows the shortest only. */
  function Utf8Length(c: nat): nat {
    if c < 0x80 then 1 else if c < 0x800 then 2 else if c < 0x1_0000 then 3 else 4
  }

  /** The encoding of a code point that is no surrogate (RFC 3629, section 3). */
  predicate IsUtf8Of(s: Str, c: nat) {
    DecodeUtf8(s) == Some(c) && |s| == Utf8Length(c) && !IsHigh(c) && !IsLow(c)
  }

  predicate Trail(b: byte) {
    0x80 <= b < 0xC0
  }

  /** The base-64 digits of a code point, as the shifts and masks of to_unicode pick them. */
  lemma Base64Digits(c: nat)
    requires c <= 0x10FFFF
    ensures c == c / 262144 * 262144 + c / 4096 % 64 * 4096 + c / 64 % 64 * 64 + c % 64
    ensures c < 0x1_0000 ==> c / 262144 == 0 && c / 4096 % 16 == c / 4096 % 64 < 16
    ensures c < 0x800 ==> c / 4096 == 0 && c / 64 % 32 == c / 64 % 64 < 32
    ensures c / 262144 % 8 == c / 262144 < 8
  {
    var d := c / 64;
    assert c == d * 64 + c % 64;
    assert c / 4096 == d / 64 && d == d / 64 * 64 + d % 64;
    var f := d / 64;
    assert c / 262144 == f / 64 && f == f / 64 * 64 + f % 64;
  }

  lemma DecodeUnits(d0: nat, d1: nat, d2: nat, d3: nat)
    requires d0 < 64 && d1 < 64 && d2 < 64 && d3 < 8
    ensures d1 < 32 ==> DecodeUtf8([0xC0 + d1, 0x80 + d0]) == Some(d1 * 64 + d0)
    ensures d2 < 16 ==> DecodeUtf8([0xE0 + d2, 0x80 + d1, 0x80 + d0]) == Some(d2 * 4096 + d1 * 64 + d0)
    ensures DecodeUtf8([0xF0 + d3, 0x80 + d2, 0x80 + d1, 0x80 + d0]) == Some(d3 * 262144 + d2 * 4096 + d1 * 64 + d0)
  {
  }

  /**
   The bytes for a code point, whichever way it was given, are those of its shortest form, and they are
   UTF-8 unless it is a low surrogate on its own, which the source encodes like any other code point.
   */
  lemma EncodingDecodes(codepoint1: nat, codepoint2: nat, c: nat)
    requires c == if IsHigh(codepoint1) then codepoint1 * 1024 + codepoint2 - 0x35FDC00 else codepoint1
    requires c <= 0x10FFFF && (IsHigh(codepoint1) ==> IsLow(codepoint2))
    ensures ToUnicode(codepoint1, codepoint2).Ok?
    ensures var bytes := ToUnicode(codepoint1, codepoint2).value;
            && DecodeUtf8(bytes) == Some(c) && |bytes| == Utf8Length(c)
            && (IsUtf8Of(bytes, c) <==> !IsLow(codepoint1))
  {
    Base64Digits(c);
    DecodeUnits(c % 64, c / 64 % 64, c / 4096 % 64, c / 262144);
    if c >= 0x80 {
      hide DecodeUtf8;
    }
  }

  lemma LoneLowSurrogate()
    ensures ToUnicode(0xDC00, 0) == Ok([0xED, 0xB0, 0x80]) && !IsUtf8Of([0xED, 0xB0, 0x80], 0xDC00)
  {
  }

  /** A lone code point decodes to itself. */
  lemma ToUnicodeSingle(c: nat)
    requires c <= 0x10FFFF && !IsHigh(c)
    ensures ToUnicode(c, 0).Ok? && DecodeUtf8(ToUnicode(c, 0).value) == Some(c)
  {
    EncodingDecodes(c, 0, c);
  }

  /** A surrogate pair decodes to the supplementary code point it stands for (RFC 7159, section 7). */
  lemma ToUnicodePair(hi: nat, lo: nat)
    requires IsHigh(hi)
    ensures ToUnicode(hi, lo).Ok? <==> IsLow(lo)
    ensures IsLow(lo) ==>
      DecodeUtf8(ToUnicode(hi, lo).value) == Some(0x10000 + (hi - 0xD800) * 1024 + (lo - 0xDC00))
  {
    if IsLow(lo) {
      EncodingDecodes(hi, lo, 0x10000 + (hi - 0xD800) * 1024 + (lo - 0xDC00));
    }
  }

  function SimpleUnescape(b: byte): byte {
    if b == 0x74 then 0x09
    else if b == 0x62 then 0x08
    else if b == 0x66 then 0x0C
    else if b == 0x6E then 0x0A
    else if b == 0x72 then 0x0D
    else b
  }

  /** b[i..e] starts with a \uXXXX escape whose code satisfies `p`. */
  predicate CodeAt(b: Str, i: nat, e: nat, p: nat -> bool)
    requires e <= |b|
  {
    i + 6 <= e && b[i] == BACKSLASH && b[i + 1] == 0x75 && IsHex4(b, i + 2) && p(Hex4(b, i + 2))
  }

  /** What follows a reverse solidus in a body. */
  lemma EscapeShape(b: Str, i: nat, e: nat)
    requires i < e <= |b| && IsBody(b, i, e) && b[i] == BACKSLASH
    ensures i + 2 <= e
    ensures IsSimpleEscape(b[i + 1]) ==> IsBody(b, i + 2, e)
    ensures !IsSimpleEscape(b[i + 1]) ==> i + 6 <= e && b[i + 1] == 0x75 && IsHex4(b, i + 2) && IsBody(b, i + 6, e)
  {
    assert UnitLen(b, i, e) > 0;
  }

  /** The bytes that the unit at `i` denotes (with its pair, for a surrogate) and its length. */
  function Piece(b: Str, i: nat, e: nat): (r: Result<(Str, nat), StringError>)
    requires i < e <= |b| && IsBody(b, i, e)
    ensures r.Ok? ==> 0 < r.value.1 <= e - i && IsBody(b, i + r.value.1, e)
  {
    if b[i] != BACKSLASH then
      assert UnitLen(b, i, e) == 1;
      Ok(([b[i]], 1))
    else
      EscapeShape(b, i, e);
      if IsSimpleEscape(b[i + 1]) then Ok(([SimpleUnescape(b[i + 1])], 2)) else Code(b, i, e)
  }

  /** The unit is a \uXXXX escape. */
  function Code(b: Str, i: nat, e: nat): (r: Result<(Str, nat), StringError>)
    requires i + 6 <= e <= |b| && IsHex4(b, i + 2) && IsBody(b, i + 6, e)
    ensures r.Ok? ==> 6 <= r.value.1 <= e - i && IsBody(b, i + r.value.1, e)
  {
    var high := Hex4(b, i + 2);
    if !IsHigh(high) then Sized(ToUnicode(high, 0), 6)
    else if CodeAt(b, i + 6, e, IsLow) then
      EscapeShape(b, i + 6, e);
      Sized(ToUnicode(high, Hex4(b, i + 8)), 12)
    else Err(MissingLowSurrogate)
  }

  function Sized(r: Result<Str, StringError>, n: nat): Result<(Str, nat), StringError> {
    match r
    case Ok(bytes) => Ok((bytes, n))
    case Err(error) => Err(error)
  }

  /** The string that the units of b[i..e] denote. */
  function Unescape(b: Str, i: nat, e: nat): Result<Str, StringError>
    requires i <= e <= |b| && IsBody(b, i, e)
    decreases e - i
  {
    if i == e then Ok([])
    else match Piece(b, i, e)
    case Ok((bytes, n)) => Prepend(bytes, Unescape(b, i + n, e))
    case Err(error) => Err(error)
  }

  function Prepend(bytes: Str, rest: Result<Str, StringError>): Result<Str, StringError> {
    match rest
    case Ok(s) => Ok(bytes + s)
    case Err(_) => rest
  }

  /** Some unit is a high-surrogate escape that no low-surrogate escape follows at once. */
  predicate HasLoneHigh(b: Str, i: nat, e: nat)
    requires i <= e <= |b| && IsBody(b, i, e)
    decreases e - i
  {
    i < e && ((CodeAt(b, i, e, IsHigh) && !CodeAt(b, i + 6, e, IsLow)) || HasLoneHigh(b, i + UnitLen(b, i, e), e))
  }

  lemma PieceFails(b: Str, i: nat, e: nat)
    requires i < e <= |b| && IsBody(b, i, e)
    ensures Piece(b, i, e).Err? <==> CodeAt(b, i, e, IsHigh) && !CodeAt(b, i + 6, e, IsLow)
    ensures Piece(b, i, e) != Err(OutOfRange)
    ensures Piece(b, i, e).Ok? ==>
      (Piece(b, i, e).value.1 == UnitLen(b, i, e)
       || (Piece(b, i, e).value.1 == 12 && CodeAt(b, i, e, IsHigh) && CodeAt(b, i + 6, e, IsLow)))
  {
    hide ToUnicode;
    if b[i] == BACKSLASH && !IsSimpleEscape(b[i + 1]) {
      EscapeShape(b, i, e);
      var code := Hex4(b, i + 2);
      if !IsHigh(code) {
        ToUnicodeSingle(code);
      } else if CodeAt(b, i + 6, e, IsLow) {
        ToUnicodePair(code, Hex4(b, i + 8));
      }
    }
  }

  /** Unescaping fails exactly on a lone high surrogate, and only with that error. */
  lemma {:induction false} UnescapeFails(b: Str, i: nat, e: nat)
    requires i <= e <= |b| && IsBody(b, i, e)
    ensures Unescape(b, i, e).Err? <==> HasLoneHigh(b, i, e)
    ensures Unescape(b, i, e) != Err(OutOfRange)
    decreases e - i
  {
    hide Piece;
    if i < e {
      PieceFails(b, i, e);
      if Piece(b, i, e).Ok? {
        UnescapeFails(b, i + Piece(b, i, e).value.1, e);
        if CodeAt(b, i, e, IsHigh) && CodeAt(b, i + 6, e, IsLow) {
          assert UnitLen(b, i, e) == 6 && UnitLen(b, i + 6, e) == 6;
          assert !CodeAt(b, i + 6, e, IsHigh);
        }
      }
    }
  }

  /** A read of the current token; its precondition is that the read is inside the token. */
  function TokenByte(content: Str, start: nat, cursor: nat, i: nat): byte
    requires start <= i < cursor <= |content|
  {
    content[i]
  }

  function TokenHex(content: Str, start: nat, cursor: nat, i: nat): nat
    requires start <= i && i + 4 <= cursor <= |content| && IsHex4(content, i)
  {
    Hex4(content, i)
  }

  /** The case 'u' of get_string: `i0` is at the letter; `i` is left on the last byte consumed. */
  method ReadCode(content: Str, start: nat, cursor: nat, limit: nat, i0: nat)
    returns (r: Result<Str, StringError>, i: nat)
    requires start < i0 < cursor - 1 <= limit - 1 < |content|
    requires IsBody(content, i0 - 1, cursor - 1)
    requires content[i0 - 1] == BACKSLASH && content[i0] == 0x75 && content[cursor - 1] == QUOTE
    ensures i0 <= i
    ensures Piece(content, i0 - 1, cursor - 1) == Sized(r, i + 2 - i0)
  {
    i := i0;
    assert UnitLen(content, i - 1, cursor - 1) == 6;
    var codepoint := TokenHex(content, start, cursor, i + 1);
    if 0xD800 <= codepoint <= 0xDBFF {
      if i + 6 >= limit || TokenByte(content, start, cursor, i + 5) != BACKSLASH
         || TokenByte(content, start, cursor, i + 6) != 0x75 {
        return Err(MissingLowSurrogate), i;
      }
      assert IsBody(content, i + 5, cursor - 1) && UnitLen(content, i + 5, cursor - 1) == 6;
      var codepoint2 := TokenHex(content, start, cursor, i + 7);
      r := ToUnicode(codepoint, codepoint2);
      i := i + 10;
    } else {
      r := ToUnicode(codepoint, 0);
      i := i + 4;
    }
  }

  /** lexer::get_string on the token content[start..cursor]; `limit` is where the buffer ends. */
  method GetString(content: Str, start: nat, cursor: nat, limit: nat) returns (r: Result<Str, StringError>)
    requires start <= cursor <= limit < |content|
    requires IsStringToken(content, start, cursor)
    ensures r == Unescape(content, start + 1, cursor - 1)
  {
    hide ToUnicode, Unescape, UnitLen;
    var result: Str := [];
    var i := start + 1;
    ghost var whole, e := Unescape(content, start + 1, cursor - 1), cursor - 1;
    assert whole == Prepend([], whole) by {
      if whole.Ok? {
        assert [] + whole.value == whole.value;
      }
    }
    while i < cursor - 1
      invariant start + 1 <= i <= cursor - 1
      invariant IsBody(content, i, cursor - 1)
      invariant whole == Prepend(result, Unescape(content, i, cursor - 1))
      decreases cursor - i
    {
      ghost var was, before := i, result;
      ghost var piece := Piece(content, i, e);
      UnescapeStep(content, i, e);
      if TokenByte(content, start, cursor, i) == BACKSLASH {
        EscapeShape(content, i, e);
        i := i + 1;
        var c := TokenByte(content, start, cursor, i);
        if c == 0x74 {
          result := result + [0x09];
        } else if c == 0x62 {
          result := result + [0x08];
        } else if c == 0x66 {
          result := result + [0x0C];
        } else if c == 0x6E {
          result := result + [0x0A];
        } else if c == 0x72 {
          result := result + [0x0D];
        } else if c == BACKSLASH {
          result := result + [BACKSLASH];
        } else if c == SLASH {
          result := result + [SLASH];
        } else if c == QUOTE {
          result := result + [QUOTE];
        } else if c == 0x75 {
          var bytes;
          bytes, i := ReadCode(content, start, cursor, limit, i);
          if bytes.Err? {
            return Err(bytes.error);
          }
          result := result + bytes.value;
        }
      } else {
        result := result + [TokenByte(content, start, cursor, i)];
      }
      i := i + 1;
      assert piece.Ok? && piece.value.1 == i - was && result == before + piece.value.0;
      PrependTwice(before, piece.value.0, Unescape(content, i, e));
    }
    UnescapeStep(content, i, e);
    assert result + [] == result;
    return Ok(result);
  }

  lemma UnescapeStep(b: Str, i: nat, e: nat)
    requires i <= e <= |b| && IsBody(b, i, e)
    ensures i == e ==> Unescape(b, i, e) == Ok([])
    ensures i < e && Piece(b, i, e).Err? ==> Unescape(b, i, e) == Err(Piece(b, i, e).error)
    ensures i < e && Piece(b, i, e).Ok? ==>
      Unescape(b, i, e) == Prepend(Piece(b, i, e).value.0, Unescape(b, i + Piece(b, i, e).value.1, e))
    ensures i < e && b[i] != BACKSLASH ==> IsBody(b, i + 1, e)
  {
    hide Piece;
    if i < e {
      assert UnitLen(b, i, e) > 0;
    }
  }

  lemma PrependTwice(a: Str, b: Str, rest: Result<Str, StringError>)
    ensures Prepend(a, Prepend(b, rest)) == Prepend(a + b, rest)
  {
    if rest.Ok? {
      assert a + (b + rest.value) == a + b + rest.value;
    }
  }

  // ---------------------------------------------------------------- the two are inverse

  lemma EscapedUnit(b: Str, p: nat, c: byte, e: nat)
    requires At(b, p, EscapeByte(c)) && p + |EscapeByte(c)| <= e <= |b|
    ensures UnitLen(b, p, e) == |EscapeByte(c)|
    ensures |EscapeByte(c)| == 1 ==> b[p] == c != BACKSLASH
    ensures |EscapeByte(c)| == 2 ==> b[p] == BACKSLASH && IsSimpleEscape(b[p + 1]) && SimpleUnescape(b[p + 1]) == c
    ensures |EscapeByte(c)| == 6 ==> CodeAt(b, p, e, code => code == c < 0x20)
  {
    var t := EscapeByte(c);
    forall k | 0 <= k < |t| ensures b[p + k] == t[k] {
      AtByte(b, p, t, k);
    }
    assert b[p] == t[0];
    if |t| >= 2 {
      assert b[p + 1] == t[1];
    }
    if |t| == 6 {
      assert b[p + 2] == t[2] && b[p + 3] == t[3] && b[p + 4] == t[4] && b[p + 5] == t[5];
      assert c == c / 16 * 16 + c % 16;
      assert HexValue(b[p + 4]) == c / 16 && HexValue(b[p + 5]) == c % 16;
    }
  }

  lemma EscapedPiece(b: Str, p: nat, c: byte, e: nat)
    requires At(b, p, EscapeByte(c)) && p + |EscapeByte(c)| <= e <= |b|
    requires IsBody(b, p + |EscapeByte(c)|, e)
    ensures IsBody(b, p, e) && Piece(b, p, e) == Ok(([c], |EscapeByte(c)|))
  {
    EscapedUnit(b, p, c, e);
    if |EscapeByte(c)| == 6 {
      assert ToUnicode(c, 0) == Ok([c]);
    }
  }

  /** Wherever the escaped form of `s` stands, it is a string body and unescapes to `s`. */
  lemma {:induction false} UnescapeEscape(b: Str, p: nat, s: Str)
    requires At(b, p, Escape(s))
    ensures IsBody(b, p, p + |Escape(s)|)
    ensures Unescape(b, p, p + |Escape(s)|) == Ok(s)
    decreases s
  {
    hide EscapeByte, UnitLen, Piece;
    if s != [] {
      var e := p + |Escape(s)|;
      AtSplit(b, p, EscapeByte(s[0]), Escape(s[1..]));
      UnescapeEscape(b, p + |EscapeByte(s[0])|, s[1..]);
      EscapedPiece(b, p, s[0], e);
      assert s == [s[0]] + s[1..];
    }
  }
}
