/**
 What the text between the quotes of a JSON string denotes, told by literal bytes and by the digits of a
 number, apart from the code that reads and writes it; and the proof that the code agrees.
 */
module JsonEscapes {
  import opened Bytes
  import opened JsonStrings

  /** One piece of a string's text and the bytes it stands for. */
  datatype Unit = Unit(text: Str, bytes: Str)

  const LOWER: Str :=
    [0x30, 0x31, 0x32, 0x33, 0x34, 0x35, 0x36, 0x37, 0x38, 0x39, 0x61, 0x62, 0x63, 0x64, 0x65, 0x66]

  const UPPER: Str :=
    [0x30, 0x31, 0x32, 0x33, 0x34, 0x35, 0x36, 0x37, 0x38, 0x39, 0x41, 0x42, 0x43, 0x44, 0x45, 0x46]

  /** The letters that follow a reverse solidus and the bytes they name (RFC 7159, section 7). */
  const LETTERS: Str := [0x22, 0x5C, 0x2F, 0x62, 0x66, 0x6E, 0x72, 0x74]

  const NAMED: Str := [0x22, 0x5C, 0x2F, 0x08, 0x0C, 0x0A, 0x0D, 0x09]

  /** A digit of base 16, in either case. */
  predicate IsNumeral(d: byte, value: nat) {
    value < 16 && (d == LOWER[value] || d == UPPER[value])
  }

  /** A reverse solidus, the letter u, and the four digits of `n` in base 16. */
  predicate IsCodeEscape(text: Str, n: nat) {
    && |text| == 6 && text[0] == 0x5C && text[1] == 0x75
    && n < 0x1_0000 && IsNumeral(text[2], n / 4096) && IsNumeral(text[3], n / 256 % 16)
    && IsNumeral(text[4], n / 16 % 16) && IsNumeral(text[5], n % 16)
  }

  /** The bytes of a code point in the layout of RFC 3629, in its shortest form. */
  predicate Encodes(bytes: Str, n: nat) {
    DecodeUtf8(bytes) == Some(n) && |bytes| == Utf8Length(n)
  }

  predicate IsLiteralUnit(u: Unit) {
    |u.text| == 1 && u.text[0] >= 0x10 && u.text[0] != 0x22 && u.text[0] != 0x5C && u.bytes == u.text
  }

  predicate IsLetterUnit(u: Unit) {
    |u.text| == 2 && u.text[0] == 0x5C && exists k :: 0 <= k < 8 && u.text[1] == LETTERS[k] && u.bytes == [NAMED[k]]
  }

  /** One escape for a code point that is no high surrogate, and a pair of them for a supplementary one. */
  predicate IsCodeUnit(u: Unit, n: nat) {
    && Encodes(u.bytes, n)
    && if n < 0x1_0000 then IsCodeEscape(u.text, n) && !(0xD800 <= n <= 0xDBFF)
       else
         && n <= 0x10FFFF && |u.text| == 12
         && IsCodeEscape(u.text[..6], 0xD800 + (n - 0x1_0000) / 1024)
         && IsCodeEscape(u.text[6..], 0xDC00 + (n - 0x1_0000) % 1024)
  }

  ghost predicate IsUnit(u: Unit) {
    IsLiteralUnit(u) || IsLetterUnit(u) || exists n: nat :: IsCodeUnit(u, n)
  }

  function TextOf(us: seq<Unit>): Str {
    if us == [] then [] else us[0].text + TextOf(us[1..])
  }

  function BytesOf(us: seq<Unit>): Str {
    if us == [] then [] else us[0].bytes + BytesOf(us[1..])
  }

  /** The text falls into units, and they stand for `s`. */
  ghost predicate Reads(us: seq<Unit>, text: Str, s: Str) {
    (forall k | 0 <= k < |us| :: IsUnit(us[k])) && TextOf(us) == text && BytesOf(us) == s
  }

  // ---------------------------------------------------------------- digits

  lemma NumeralValue(d: byte, v: nat)
    ensures IsNumeral(d, v) <==> IsHex(d) && HexValue(d) == v
  {
  }

  /** Four digits of base 16 and the number they make. */
  predicate AreDigits(d3: nat, d2: nat, d1: nat, d0: nat, n: nat) {
    d3 == n / 4096 && d2 == n / 256 % 16 && d1 == n / 16 % 16 && d0 == n % 16
  }

  lemma Nested(n: nat)
    ensures n / 256 == n / 16 / 16 && n / 4096 == n / 16 / 16 / 16
  {
  }

  lemma LastDigit(m: nat, d: nat, n: nat)
    requires d < 16
    ensures n == m * 16 + d <==> m == n / 16 && d == n % 16
  {
  }

  lemma DigitsMake(d3: nat, d2: nat, d1: nat, d0: nat, n: nat)
    requires d3 < 16 && d2 < 16 && d1 < 16 && d0 < 16
    ensures AreDigits(d3, d2, d1, d0, n) <==> n == d3 * 4096 + d2 * 256 + d1 * 16 + d0
  {
    Nested(n);
    var m1 := d3 * 16 + d2;
    var m0 := m1 * 16 + d1;
    LastDigit(m0, d0, n);
    LastDigit(m1, d1, n / 16);
    LastDigit(d3, d2, n / 16 / 16);
  }

  lemma CodeEscapeValue(b: Str, i: nat, n: nat)
    requires i + 6 <= |b|
    ensures IsCodeEscape(b[i..i + 6], n)
       <==> b[i] == BACKSLASH && b[i + 1] == 0x75 && IsHex4(b, i + 2) && Hex4(b, i + 2) == n
  {
    var t := b[i..i + 6];
    assert t[0] == b[i] && t[1] == b[i + 1];
    assert t[2] == b[i + 2] && t[3] == b[i + 3] && t[4] == b[i + 4] && t[5] == b[i + 5];
    NumeralValue(t[2], n / 4096);
    NumeralValue(t[3], n / 256 % 16);
    NumeralValue(t[4], n / 16 % 16);
    NumeralValue(t[5], n % 16);
    hide IsNumeral, HexValue, IsHex, AreDigits;
    if IsHex4(b, i + 2) {
      HexValuesAreDigits(b, i + 2, n);
    }
  }

  lemma HexValuesAreDigits(b: Str, i: nat, n: nat)
    requires i + 4 <= |b| && IsHex4(b, i)
    ensures Hex4(b, i) < 0x1_0000
    ensures Hex4(b, i) == n
       <==> HexValue(b[i]) == n / 4096 && HexValue(b[i + 1]) == n / 256 % 16
            && HexValue(b[i + 2]) == n / 16 % 16 && HexValue(b[i + 3]) == n % 16
  {
    assert HexValue(b[i]) < 16 && HexValue(b[i + 1]) < 16 && HexValue(b[i + 2]) < 16 && HexValue(b[i + 3]) < 16;
    hide HexValue, IsHex;
    DigitsMake(HexValue(b[i]), HexValue(b[i + 1]), HexValue(b[i + 2]), HexValue(b[i + 3]), n);
  }

  /** A code point has one encoding. */
  lemma EncodesOnce(s: Str, t: Str, n: nat)
    requires Encodes(s, n) && Encodes(t, n)
    ensures s == t
  {
    assert |s| == |t| <= 4;
    SameSize(s, t);
  }

  lemma SameSize(s: Str, t: Str)
    requires |s| == |t| && DecodeUtf8(s).Some? && DecodeUtf8(s) == DecodeUtf8(t)
    ensures s == t
  {
    assert s[0] == t[0];
    assert |s| > 1 ==> s[1] == t[1];
    assert |s| > 2 ==> s[2] == t[2];
    assert |s| > 3 ==> s[3] == t[3];
  }

  lemma ToUnicodeEncodes(codepoint1: nat, codepoint2: nat, n: nat)
    requires n == if IsHigh(codepoint1) then codepoint1 * 1024 + codepoint2 - 0x35FDC00 else codepoint1
    requires n <= 0x10FFFF && (IsHigh(codepoint1) ==> IsLow(codepoint2))
    ensures ToUnicode(codepoint1, codepoint2).Ok? && Encodes(ToUnicode(codepoint1, codepoint2).value, n)
  {
    hide ToUnicode, DecodeUtf8;
    EncodingDecodes(codepoint1, codepoint2, n);
  }

  // ---------------------------------------------------------------- units are what the code reads

  lemma LiteralReads(b: Str, i: nat, e: nat, u: Unit)
    requires At(b, i, u.text) && i + |u.text| <= e <= |b| && IsBody(b, i + |u.text|, e)
    requires IsLiteralUnit(u)
    ensures IsBody(b, i, e) && Piece(b, i, e) == Ok((u.bytes, |u.text|))
  {
    AtByte(b, i, u.text, 0);
    assert u.bytes == [b[i]] && UnitLen(b, i, e) == 1;
  }

  lemma LetterReads(b: Str, i: nat, e: nat, u: Unit)
    requires At(b, i, u.text) && i + |u.text| <= e <= |b| && IsBody(b, i + |u.text|, e)
    requires IsLetterUnit(u)
    ensures IsBody(b, i, e) && Piece(b, i, e) == Ok((u.bytes, |u.text|))
  {
    AtByte(b, i, u.text, 0);
    AtByte(b, i, u.text, 1);
    assert UnitLen(b, i, e) == 2;
  }

  /** The escape at `i` is a unit of the body, whatever it stands for. */
  lemma CodeIsBody(b: Str, i: nat, e: nat, n: nat)
    requires i + 6 <= e <= |b| && IsCodeEscape(b[i..i + 6], n) && IsBody(b, i + 6, e)
    ensures b[i] == BACKSLASH && b[i + 1] == 0x75 && IsHex4(b, i + 2) && Hex4(b, i + 2) == n && IsBody(b, i, e)
    ensures Piece(b, i, e) == Code(b, i, e)
  {
    CodeEscapeValue(b, i, n);
    hide IsCodeEscape, IsHex, HexValue;
    assert UnitLen(b, i, e) == 6;
  }

  lemma CodeReads(b: Str, i: nat, e: nat, u: Unit, n: nat)
    requires At(b, i, u.text) && i + |u.text| <= e <= |b| && IsBody(b, i + |u.text|, e)
    requires IsCodeUnit(u, n) && n < 0x1_0000
    ensures IsBody(b, i, e) && Piece(b, i, e) == Ok((u.bytes, |u.text|))
  {
    assert b[i..i + 6] == u.text;
    hide IsCodeEscape, IsHex, HexValue, ToUnicode, Encodes;
    CodeIsBody(b, i, e, n);
    ToUnicodeEncodes(n, 0, n);
    EncodesOnce(u.bytes, ToUnicode(n, 0).value, n);
  }

  lemma PairReads(b: Str, i: nat, e: nat, u: Unit, n: nat)
    requires At(b, i, u.text) && i + |u.text| <= e <= |b| && IsBody(b, i + |u.text|, e)
    requires IsCodeUnit(u, n) && n >= 0x1_0000
    ensures IsBody(b, i, e) && Piece(b, i, e) == Ok((u.bytes, |u.text|))
  {
    hide IsCodeEscape, IsHex, HexValue, ToUnicode, Encodes, IsBody;
    var (high, low) := (0xD800 + (n - 0x1_0000) / 1024, 0xDC00 + (n - 0x1_0000) % 1024);
    assert u.text == u.text[..6] + u.text[6..];
    AtSplit(b, i, u.text[..6], u.text[6..]);
    assert b[i..i + 6] == u.text[..6] && b[i + 6..i + 12] == u.text[6..];
    CodeIsBody(b, i + 6, e, low);
    CodeIsBody(b, i, e, high);
    ToUnicodeEncodes(high, low, n);
    EncodesOnce(u.bytes, ToUnicode(high, low).value, n);
  }

  lemma UnitReads(b: Str, i: nat, e: nat, u: Unit)
    requires At(b, i, u.text) && i + |u.text| <= e <= |b| && IsBody(b, i + |u.text|, e)
    requires IsUnit(u)
    ensures u.text != [] && IsBody(b, i, e) && Piece(b, i, e) == Ok((u.bytes, |u.text|))
  {
    hide Piece, IsBody;
    if IsLiteralUnit(u) {
      LiteralReads(b, i, e, u);
    } else if IsLetterUnit(u) {
      LetterReads(b, i, e, u);
    } else {
      var n: nat :| IsCodeUnit(u, n);
      if n < 0x1_0000 {
        CodeReads(b, i, e, u, n);
      } else {
        PairReads(b, i, e, u, n);
      }
    }
  }

  lemma {:induction false} UnitsRead(b: Str, i: nat, e: nat, us: seq<Unit>)
    requires At(b, i, TextOf(us)) && e == i + |TextOf(us)| && forall k | 0 <= k < |us| :: IsUnit(us[k])
    ensures IsBody(b, i, e) && Unescape(b, i, e) == Ok(BytesOf(us))
    decreases us
  {
    hide Piece, IsUnit, IsBody, Unescape;
    if us == [] {
      NothingReads(b, i);
    } else {
      AtSplit(b, i, us[0].text, TextOf(us[1..]));
      UnitsRead(b, i + |us[0].text|, e, us[1..]);
      UnitReads(b, i, e, us[0]);
      UnescapeStep(b, i, e);
    }
  }

  lemma NothingReads(b: Str, i: nat)
    requires i <= |b|
    ensures IsBody(b, i, i) && Unescape(b, i, i) == Ok([])
  {
  }

  // ---------------------------------------------------------------- what the code reads is units

  lemma SimpleIsLetter(letter: byte)
    requires IsSimpleEscape(letter)
    ensures IsUnit(Unit([0x5C, letter], [SimpleUnescape(letter)]))
  {
    var k := if letter == 0x22 then 0 else if letter == 0x5C then 1 else if letter == 0x2F then 2
      else if letter == 0x62 then 3 else if letter == 0x66 then 4 else if letter == 0x6E then 5
      else if letter == 0x72 then 6 else 7;
    assert letter == LETTERS[k] && SimpleUnescape(letter) == NAMED[k];
    assert IsLetterUnit(Unit([0x5C, letter], [SimpleUnescape(letter)]));
  }

  lemma PieceIsUnit(b: Str, i: nat, e: nat)
    requires i < e <= |b| && IsBody(b, i, e) && Piece(b, i, e).Ok?
    ensures var (bytes, n) := Piece(b, i, e).value; IsUnit(Unit(b[i..i + n], bytes))
  {
    hide IsUnit, IsHex4, Code, SimpleUnescape;
    if b[i] != BACKSLASH {
      assert UnitLen(b, i, e) == 1;
      LiteralIsUnit(b, i, e);
    } else {
      EscapeShape(b, i, e);
      if IsSimpleEscape(b[i + 1]) {
        SimpleIsLetter(b[i + 1]);
        assert b[i..i + 2] == [0x5C, b[i + 1]];
      } else {
        CodeIsUnit(b, i, e);
      }
    }
  }

  lemma LiteralIsUnit(b: Str, i: nat, e: nat)
    requires i < e <= |b| && b[i] != BACKSLASH && UnitLen(b, i, e) == 1
    ensures IsUnit(Unit(b[i..i + 1], [b[i]]))
  {
    assert b[i..i + 1] == [b[i]];
    assert IsLiteralUnit(Unit([b[i]], [b[i]]));
  }

  lemma CodeIsUnit(b: Str, i: nat, e: nat)
    requires i + 6 <= e <= |b| && b[i] == BACKSLASH && b[i + 1] == 0x75 && IsHex4(b, i + 2) && IsBody(b, i + 6, e)
    requires Code(b, i, e).Ok?
    ensures var (bytes, n) := Code(b, i, e).value; IsUnit(Unit(b[i..i + n], bytes))
  {
    var high := Hex4(b, i + 2);
    CodeEscapeValue(b, i, high);
    CodeParts(b, i, e);
    hide IsCodeEscape, Hex4, ToUnicode, IsBody, IsUnit, Code;
    if IsHigh(high) {
      var low := Hex4(b, i + 8);
      CodeEscapeValue(b, i + 6, low);
      assert b[i..i + 12][..6] == b[i..i + 6] && b[i..i + 12][6..] == b[i + 6..i + 12];
      PairIsUnit(b[i..i + 12], high, low);
    } else {
      SingleIsUnit(b[i..i + 6], high);
    }
  }

  /** What an escape is read as, when it is read. */
  lemma CodeParts(b: Str, i: nat, e: nat)
    requires i + 6 <= e <= |b| && IsHex4(b, i + 2) && IsBody(b, i + 6, e) && Code(b, i, e).Ok?
    ensures !IsHigh(Hex4(b, i + 2)) ==> Sized(ToUnicode(Hex4(b, i + 2), 0), 6) == Code(b, i, e)
    ensures IsHigh(Hex4(b, i + 2)) ==>
              CodeAt(b, i + 6, e, IsLow) && Sized(ToUnicode(Hex4(b, i + 2), Hex4(b, i + 8)), 12) == Code(b, i, e)
  {
    hide ToUnicode, Hex4, IsHex4, IsBody;
  }

  lemma SingleIsUnit(text: Str, n: nat)
    requires IsCodeEscape(text, n) && !IsHigh(n)
    ensures ToUnicode(n, 0).Ok? && IsUnit(Unit(text, ToUnicode(n, 0).value))
  {
    ToUnicodeEncodes(n, 0, n);
    assert IsCodeUnit(Unit(text, ToUnicode(n, 0).value), n);
  }

  lemma PairIsUnit(text: Str, high: nat, low: nat)
    requires |text| == 12 && IsCodeEscape(text[..6], high) && IsCodeEscape(text[6..], low) && IsHigh(high) && IsLow(low)
    ensures ToUnicode(high, low).Ok? && IsUnit(Unit(text, ToUnicode(high, low).value))
  {
    hide IsCodeEscape, ToUnicode, Encodes;
    var n := 0x1_0000 + (high - 0xD800) * 1024 + (low - 0xDC00);
    ToUnicodeEncodes(high, low, n);
    assert IsCodeUnit(Unit(text, ToUnicode(high, low).value), n);
  }

  lemma {:induction false} BodyHasUnits(b: Str, i: nat, e: nat) returns (us: seq<Unit>)
    requires i <= e <= |b| && IsBody(b, i, e) && Unescape(b, i, e).Ok?
    ensures Reads(us, b[i..e], Unescape(b, i, e).value)
    decreases e - i
  {
    hide Piece, IsUnit, IsBody, Unescape;
    UnescapeStep(b, i, e);
    if i == e {
      us := [];
    } else {
      var (bytes, n) := Piece(b, i, e).value;
      PieceIsUnit(b, i, e);
      var rest := BodyHasUnits(b, i + n, e);
      us := [Unit(b[i..i + n], bytes)] + rest;
      assert us[1..] == rest && b[i..e] == b[i..i + n] + b[i + n..e];
    }
  }

  /**
   Reading a string's text gives `s` exactly when the text falls into units that stand for `s`; it fails
   exactly when the text does not fall into units at all.
   */
  lemma UnescapeIsReading(b: Str, i: nat, e: nat)
    requires i <= e <= |b| && IsBody(b, i, e)
    ensures forall s: Str :: Unescape(b, i, e) == Ok(s) <==> exists us: seq<Unit> :: Reads(us, b[i..e], s)
    ensures Unescape(b, i, e) == Err(MissingLowSurrogate) <==>
            forall s: Str, us: seq<Unit> :: !Reads(us, b[i..e], s)
  {
    hide Piece, IsUnit, IsBody, Unescape, HasLoneHigh;
    forall s: Str, us: seq<Unit> | Reads(us, b[i..e], s)
      ensures Unescape(b, i, e) == Ok(s)
    {
      UnitsRead(b, i, e, us);
    }
    if Unescape(b, i, e).Ok? {
      var us := BodyHasUnits(b, i, e);
    } else {
      UnescapeFails(b, i, e);
      assert Unescape(b, i, e).error.MissingLowSurrogate?;
    }
  }

  /** Any units at all can stand in a string, and are read as what they stand for. */
  lemma ReadingIsUnescape(us: seq<Unit>, text: Str, s: Str)
    requires Reads(us, text, s)
    ensures IsBody(text, 0, |text|) && Unescape(text, 0, |text|) == Ok(s)
  {
    assert text[0..|text|] == text;
    hide IsUnit, IsBody, Unescape;
    UnitsRead(text, 0, |text|, us);
  }

  // ---------------------------------------------------------------- what is written

  /** RFC 7159 lets no byte below 0x20 stand for itself. */
  predicate IsStrict(u: Unit) {
    |u.text| == 1 ==> u.text[0] >= 0x20
  }

  /** A control byte without a letter of its own is written with two small digits. */
  lemma ControlEscape(c: byte)
    requires c < 0x20 && c !in NAMED
    ensures EscapeByte(c) == [0x5C, 0x75, 0x30, 0x30, LOWER[c / 16], LOWER[c % 16]]
  {
    assert NAMED[3] == 0x08 && NAMED[4] == 0x0C && NAMED[5] == 0x0A && NAMED[6] == 0x0D && NAMED[7] == 0x09;
    assert HexDigit(c / 16) == LOWER[c / 16];
    assert HexDigit(c % 16) == LOWER[c % 16];
  }

  lemma ControlIsUnit(c: byte)
    requires c < 0x20
    ensures IsUnit(Unit([0x5C, 0x75, 0x30, 0x30, LOWER[c / 16], LOWER[c % 16]], [c]))
  {
    var u := Unit([0x5C, 0x75, 0x30, 0x30, LOWER[c / 16], LOWER[c % 16]], [c]);
    assert c / 256 == 0 && c / 4096 == 0 && c / 16 % 16 == c / 16;
    hide LOWER;
    assert LOWER[0] == 0x30 ==> IsCodeEscape(u.text, c);
    ZeroDigit();
    assert IsCodeUnit(u, c);
  }

  lemma ZeroDigit()
    ensures LOWER[0] == 0x30
  {
  }

  lemma EscapeByteIsUnit(c: byte)
    ensures IsUnit(Unit(EscapeByte(c), [c])) && IsStrict(Unit(EscapeByte(c), [c]))
  {
    if ShortEscape(c).Some? {
      SimpleIsLetter(ShortEscape(c).value);
    } else if c < 0x20 {
      assert c !in NAMED;
      ControlEscape(c);
      ControlIsUnit(c);
    } else {
      assert IsLiteralUnit(Unit([c], [c]));
    }
    hide IsCodeUnit, IsLetterUnit, HexDigit;
  }

  lemma {:induction false} EscapeIsReading(s: Str) returns (us: seq<Unit>)
    ensures Reads(us, Escape(s), s) && forall k | 0 <= k < |us| :: IsStrict(us[k])
  {
    hide EscapeByte, IsUnit, IsStrict;
    if s == [] {
      us := [];
    } else {
      var rest := EscapeIsReading(s[1..]);
      EscapeByteIsUnit(s[0]);
      us := [Unit(EscapeByte(s[0]), [s[0]])] + rest;
      assert us[1..] == rest && s == [s[0]] + s[1..];
    }
  }

  lemma EscapedOne(c: byte)
    ensures Escape([c]) == EscapeByte(c) && |EscapeByte(c)| <= 6
    ensures c in NAMED ==> |EscapeByte(c)| <= 2
    ensures c >= 0x20 && c != 0x22 && c != 0x5C ==> EscapeByte(c) == [c]
  {
    assert Escape([]) == [];
  }

  lemma {:induction false} HighBytesStay(s: Str)
    requires forall k :: 0 <= k < |s| ==> s[k] >= 0x80
    ensures Escape(s) == s
  {
    if s != [] {
      HighBytesStay(s[1..]);
      assert s == [s[0]] + s[1..];
    }
  }

  lemma EncodedIsShort(bytes: Str, n: nat)
    requires Encodes(bytes, n)
    ensures |Escape(bytes)| <= 6
  {
    if |bytes| == 1 {
      EscapedOne(bytes[0]);
      assert bytes == [bytes[0]];
    } else {
      HighBytesStay(bytes);
    }
  }

  lemma UnitIsNotShorter(u: Unit)
    requires IsUnit(u) && IsStrict(u)
    ensures |Escape(u.bytes)| <= |u.text|
  {
    hide EscapeByte, Escape, Encodes;
    if IsLiteralUnit(u) {
      EscapedOne(u.bytes[0]);
      assert u.bytes == [u.bytes[0]];
    } else if IsLetterUnit(u) {
      EscapedOne(u.bytes[0]);
    } else {
      var n: nat :| IsCodeUnit(u, n);
      EncodedIsShort(u.bytes, n);
    }
  }

  /** No other text that RFC 7159 allows for `s` is shorter than the one that escaping gives. */
  lemma {:induction false} EscapeIsShortest(us: seq<Unit>, text: Str, s: Str)
    requires Reads(us, text, s) && forall k | 0 <= k < |us| :: IsStrict(us[k])
    ensures |Escape(s)| <= |text|
    decreases us
  {
    hide IsUnit, IsStrict, EscapeByte;
    if us != [] {
      UnitIsNotShorter(us[0]);
      EscapeIsShortest(us[1..], TextOf(us[1..]), BytesOf(us[1..]));
      EscapeConcat(us[0].bytes, BytesOf(us[1..]));
    }
  }
}
