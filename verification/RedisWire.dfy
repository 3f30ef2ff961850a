/**
 The Redis protocol as the client reads it. A reader takes the bytes not yet read and gives its result
 with the bytes it leaves; it is None where the source throws or the stream breaks off. Readers skip the
 white space in front of a reply and leave part of the line ending behind it, so each lags a little
 behind the replies.
 */
module RedisWire {
  import opened Bytes

  const CRLF: Str := [RETURN, NEWLINE]

  /** isspace in the C locale. */
  predicate IsSpace(b: byte) {
    b == SPACE || 9 <= b <= 13
  }

  predicate Blank(s: Str) {
    forall k :: 0 <= k < |s| ==> IsSpace(s[k])
  }

  // ---------------------------------------------------------------- what the server sends

  datatype Reply =
    | Status(text: Str)
    | Integer(n: int)
    | Bulk(item: Option<Str>)
    | Multi(items: seq<Option<Str>>)

  function IntText(n: int): Str {
    if n < 0 then [MINUS] + Decimal(-n) else Decimal(n)
  }

  function EncodeItem(item: Option<Str>): (s: Str)
    ensures s != [] && s[0] == DOLLAR
  {
    match item
    case None => [DOLLAR] + IntText(-1) + CRLF
    case Some(text) => [DOLLAR] + IntText(|text|) + CRLF + text + CRLF
  }

  function EncodeItems(items: seq<Option<Str>>): Str {
    if items == [] then [] else EncodeItem(items[0]) + EncodeItems(items[1..])
  }

  function EncodeHeader(n: nat): Str {
    [STAR] + IntText(n) + CRLF
  }

  function Encode(r: Reply): (s: Str)
    ensures s != [] && !IsSpace(s[0])
  {
    match r
    case Status(text) => [PLUS] + text + CRLF
    case Integer(n) => [COLON] + IntText(n) + CRLF
    case Bulk(item) => EncodeItem(item)
    case Multi(items) => EncodeHeader(|items|) + EncodeItems(items)
  }

  /** A 32-bit int holds the lengths and a 64-bit one the numbers; a status line has no carriage return. */
  predicate ItemFits(item: Option<Str>) {
    item.Some? ==> |item.value| < TWO_TO_31
  }

  predicate ItemsFit(items: seq<Option<Str>>) {
    |items| < TWO_TO_31 && forall k :: 0 <= k < |items| ==> ItemFits(items[k])
  }

  predicate Fits(r: Reply) {
    match r
    case Status(text) => RETURN !in text
    case Integer(n) => 0 - TWO_TO_63 <= n < TWO_TO_63
    case Bulk(item) => ItemFits(item)
    case Multi(items) => ItemsFit(items)
  }

  /** Each kind of reply, byte by byte (Redis protocol specification, "RESP protocol description"). */
  lemma KnownReplies()
    ensures Encode(Status([0x4F, 0x4B])) == [0x2B, 0x4F, 0x4B, 0x0D, 0x0A]
    ensures Encode(Integer(-7)) == [0x3A, 0x2D, 0x37, 0x0D, 0x0A]
    ensures Encode(Bulk(Some([0x61]))) == [0x24, 0x31, 0x0D, 0x0A, 0x61, 0x0D, 0x0A]
    ensures Encode(Bulk(None)) == [0x24, 0x2D, 0x31, 0x0D, 0x0A]
    ensures Encode(Multi([])) == [0x2A, 0x30, 0x0D, 0x0A]
  {
    assert IntText(-7) == [0x2D, 0x37] && IntText(-1) == [0x2D, 0x31] && IntText(1) == [0x31] && IntText(0) == [0x30];
    hide IntText;
  }

  // ---------------------------------------------------------------- the input stream's extractions

  function SkipSpace(s: Str): (r: Str)
    ensures r == [] || !IsSpace(r[0])
  {
    if s != [] && IsSpace(s[0]) then SkipSpace(s[1..]) else s
  }

  /** stream >> char */
  function ExtractChar(s: Str): Option<(byte, Str)> {
    var t := SkipSpace(s);
    if t == [] then None else Some((t[0], t[1..]))
  }

  function DigitCount(s: Str): (n: nat)
    ensures n <= |s| && forall k :: 0 <= k < n ==> IsDigit(s[k])
  {
    if s != [] && IsDigit(s[0]) then
      var n := DigitCount(s[1..]);
      assert forall k :: 1 <= k < n + 1 ==> s[k] == s[1..][k - 1];
      n + 1
    else 0
  }

  /** The digits at the front, and what follows them, which must be there to end them. */
  function ExtractDigits(s: Str): Option<(nat, Str)> {
    var n := DigitCount(s);
    if n == 0 || n == |s| then None else Some((DigitsValue(s[..n]), s[n..]))
  }

  /** stream >> number, for a signed type whose values are below `limit` and not below its negation. */
  function ExtractInt(s: Str, limit: nat): Option<(int, Str)> {
    var t := SkipSpace(s);
    var signed := t != [] && (t[0] == MINUS || t[0] == PLUS);
    match ExtractDigits(if signed then t[1..] else t)
    case None => None
    case Some((magnitude, rest)) =>
      var value := if signed && t[0] == MINUS then 0 - magnitude else magnitude;
      if 0 - limit <= value < limit then Some((value, rest)) else None
  }

  /** std::getline up to a carriage return, which is taken too. */
  function ExtractLine(s: Str): Option<(Str, Str)> {
    if s == [] then None
    else if s[0] == RETURN then Some(([], s[1..]))
    else match ExtractLine(s[1..])
    case None => None
    case Some((text, rest)) => Some(([s[0]] + text, rest))
  }

  // ---------------------------------------------------------------- the readers

  function ReadStatus(s: Str): Option<(Str, Str)> {
    match ExtractChar(s)
    case None => None
    case Some((code, rest)) =>
      match ExtractLine(rest)
      case None => None
      case Some(read) => if code != PLUS then None else Some(read)
  }

  function ReadInteger(s: Str): Option<(int, Str)> {
    match ExtractChar(s)
    case None => None
    case Some((_, rest)) => ExtractInt(rest, TWO_TO_63)
  }

  function ReadBulk(s: Str): Option<(Option<Str>, Str)> {
    match ExtractChar(s)
    case None => None
    case Some((code, rest)) =>
      match ExtractInt(rest, TWO_TO_31)
      case None => None
      case Some((count, data)) =>
        if code != DOLLAR then None
        else if count < 0 then Some((None, data))
        else if |data| < 2 + count then None
        else Some((Some(data[2..2 + count]), data[2 + count..]))
  }

  /** The header of a multi-bulk reply; a nil one is an error in the source. */
  function ReadHeader(s: Str): Option<(nat, Str)> {
    match ExtractChar(s)
    case None => None
    case Some((code, rest)) =>
      match ExtractInt(rest, TWO_TO_31)
      case None => None
      case Some((count, data)) => if code != STAR || count < 0 then None else Some((count, data))
  }

  // ---------------------------------------------------------------- reading undoes encoding

  lemma {:induction false} SkipBlank(gap: Str, s: Str)
    requires Blank(gap) && s != [] && !IsSpace(s[0])
    ensures SkipSpace(gap + s) == s
  {
    if gap == [] {
      assert gap + s == s;
    } else {
      assert (gap + s)[1..] == gap[1..] + s;
      SkipBlank(gap[1..], s);
    }
  }

  lemma CodeIsRead(gap: Str, s: Str)
    requires Blank(gap) && s != [] && !IsSpace(s[0])
    ensures ExtractChar(gap + s) == Some((s[0], s[1..]))
  {
    SkipBlank(gap, s);
  }

  lemma {:induction false} DigitsAreCounted(digits: Str, s: Str)
    requires forall k :: 0 <= k < |digits| ==> IsDigit(digits[k])
    requires s == [] || !IsDigit(s[0])
    ensures DigitCount(digits + s) == |digits|
  {
    if digits == [] {
      assert digits + s == s;
    } else {
      assert (digits + s)[1..] == digits[1..] + s;
      DigitsAreCounted(digits[1..], s);
    }
  }

  lemma DigitsAreRead(n: nat, s: Str)
    requires s != [] && s[0] == RETURN
    ensures ExtractDigits(Decimal(n) + s) == Some((n, s))
  {
    var digits := Decimal(n);
    hide Decimal, DigitsValue, DigitCount;
    DigitsAreCounted(digits, s);
    assert (digits + s)[..|digits|] == digits && (digits + s)[|digits|..] == s;
  }

  lemma NothingSkipped(s: Str)
    requires s != [] && !IsSpace(s[0])
    ensures SkipSpace(s) == s
  {
  }

  lemma NaturalIsRead(n: nat, limit: nat, s: Str)
    requires n < limit && s != [] && s[0] == RETURN
    ensures ExtractInt(Decimal(n) + s, limit) == Some((n as int, s))
  {
    DigitsAreRead(n, s);
    var t := Decimal(n) + s;
    assert t[0] == Decimal(n)[0] && IsDigit(t[0]);
    hide Decimal, ExtractDigits, SkipSpace;
    NothingSkipped(t);
  }

  lemma NegativeIsRead(n: nat, limit: nat, s: Str)
    requires n <= limit && s != [] && s[0] == RETURN
    ensures n > 0 ==> ExtractInt([MINUS] + Decimal(n) + s, limit) == Some((0 - n, s))
  {
    hide *;
    DigitsAreRead(n, s);
    var t := [MINUS] + Decimal(n) + s;
    assert t[0] == MINUS && t[1..] == Decimal(n) + s;
    NothingSkipped(t) by { MinusIsNoSpace(); }
    AfterMinus(t, n, limit, s);
  }

  lemma MinusIsNoSpace()
    ensures !IsSpace(MINUS)
  {
  }

  lemma AfterMinus(t: Str, n: nat, limit: nat, rest: Str)
    requires t != [] && t[0] == MINUS && SkipSpace(t) == t && ExtractDigits(t[1..]) == Some((n, rest)) && n <= limit
    ensures n > 0 ==> ExtractInt(t, limit) == Some((0 - n, rest))
  {
    hide ExtractDigits, SkipSpace;
  }

  lemma IntIsRead(n: int, limit: nat, s: Str)
    requires 0 - limit <= n < limit && s != [] && s[0] == RETURN
    ensures ExtractInt(IntText(n) + s, limit) == Some((n, s))
  {
    hide Decimal, ExtractInt;
    if n < 0 {
      NegativeIsRead(0 - n, limit, s);
    } else {
      NaturalIsRead(n, limit, s);
    }
  }

  lemma {:induction false} LineIsRead(text: Str, s: Str)
    requires RETURN !in text
    ensures ExtractLine(text + [RETURN] + s) == Some((text, s))
  {
    var line := text + [RETURN] + s;
    if text == [] {
      assert line[1..] == s;
    } else {
      assert line[1..] == text[1..] + [RETURN] + s;
      LineIsRead(text[1..], s);
      assert [text[0]] + text[1..] == text;
    }
  }

  lemma StatusIsRead(gap: Str, text: Str, s: Str)
    requires Blank(gap) && RETURN !in text
    ensures ReadStatus(gap + Encode(Status(text)) + s) == Some((text, [NEWLINE] + s))
  {
    var frame := Encode(Status(text)) + s;
    assert gap + Encode(Status(text)) + s == gap + frame;
    CodeIsRead(gap, frame);
    assert frame[1..] == text + [RETURN] + ([NEWLINE] + s);
    LineIsRead(text, [NEWLINE] + s);
  }

  /** Code, number and line ending: the common start of the other replies. */
  lemma NumberIsRead(gap: Str, code: byte, n: int, limit: nat, s: Str)
    requires Blank(gap) && !IsSpace(code) && 0 - limit <= n < limit
    ensures var line := gap + ([code] + IntText(n) + CRLF) + s;
            && ExtractChar(line) == Some((code, IntText(n) + (CRLF + s)))
            && ExtractInt(IntText(n) + (CRLF + s), limit) == Some((n, CRLF + s))
  {
    hide ExtractInt, ExtractChar, Decimal, IntText;
    var frame := [code] + IntText(n) + CRLF + s;
    assert gap + ([code] + IntText(n) + CRLF) + s == gap + frame;
    CodeIsRead(gap, frame);
    assert frame[1..] == IntText(n) + (CRLF + s);
    IntIsRead(n, limit, CRLF + s);
  }

  lemma IntegerIsRead(gap: Str, n: int, s: Str)
    requires Blank(gap) && Fits(Integer(n))
    ensures ReadInteger(gap + Encode(Integer(n)) + s) == Some((n, CRLF + s))
  {
    hide ExtractInt, ExtractChar, IntText;
    NumberIsRead(gap, COLON, n, TWO_TO_63, s);
  }

  lemma HeaderIsRead(gap: Str, n: nat, s: Str)
    requires Blank(gap) && n < TWO_TO_31
    ensures ReadHeader(gap + EncodeHeader(n) + s) == Some((n, CRLF + s))
  {
    hide ExtractInt, ExtractChar, IntText;
    NumberIsRead(gap, STAR, n, TWO_TO_31, s);
  }

  /** EXEC's header is read as an integer: the reader of integers takes any code. */
  lemma HeaderIsReadAsInteger(gap: Str, n: nat, s: Str)
    requires Blank(gap) && n < TWO_TO_63
    ensures ReadInteger(gap + EncodeHeader(n) + s) == Some((n as int, CRLF + s))
  {
    hide ExtractInt, ExtractChar, IntText;
    NumberIsRead(gap, STAR, n, TWO_TO_63, s);
  }

  lemma BulkIsRead(gap: Str, item: Option<Str>, s: Str)
    requires Blank(gap) && ItemFits(item)
    ensures ReadBulk(gap + EncodeItem(item) + s) == Some((item, CRLF + s))
  {
    hide Decimal, ExtractInt, ExtractChar, IntText;
    match item {
      case None =>
        NumberIsRead(gap, DOLLAR, -1, TWO_TO_31, s);
      case Some(text) =>
        var start := [DOLLAR] + IntText(|text|) + CRLF;
        var rest := text + CRLF + s;
        assert gap + EncodeItem(item) + s == gap + start + rest;
        NumberIsRead(gap, DOLLAR, |text|, TWO_TO_31, rest);
        var data := CRLF + rest;
        assert data[2..2 + |text|] == text && data[2 + |text|..] == CRLF + s;
    }
  }
}
