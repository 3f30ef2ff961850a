/**
 The connection's readers over the socket's stream buffer: whatever the pieces recv() gives, they read
 what RedisWire says they read, and leave what it says they leave.
 */
module RedisStream {
  import opened Bytes
  import opened RedisWire
  import opened SocketBuffer

  /** sgetc() */
  method Peek(buf: StreamBuf) returns (c: Option<byte>)
    requires buf.Valid()
    modifies buf, buf.inBuffer
    ensures buf.Valid() && buf.Stream() == old(buf.Stream())
    ensures c == if buf.Stream() == [] then None else Some(buf.Stream()[0])
  {
    if buf.gptr == buf.egptr {
      var ok := buf.Underflow();
      if !ok {
        return None;
      }
    }
    assert buf.Buffered()[0] == buf.inBuffer[buf.gptr];
    return Some(buf.inBuffer[buf.gptr]);
  }

  method SkipSpaces(buf: StreamBuf)
    requires buf.Valid()
    modifies buf, buf.inBuffer
    ensures buf.Valid() && buf.Stream() == SkipSpace(old(buf.Stream()))
  {
    while true
      invariant buf.Valid() && SkipSpace(buf.Stream()) == SkipSpace(old(buf.Stream()))
      decreases |buf.Stream()|
    {
      var c := Peek(buf);
      if c == None || !IsSpace(c.value) {
        return;
      }
      var _ := buf.Bump();
    }
  }

  /** stream >> char */
  method ReadChar(buf: StreamBuf) returns (c: Option<byte>)
    requires buf.Valid()
    modifies buf, buf.inBuffer
    ensures buf.Valid()
    ensures match ExtractChar(old(buf.Stream()))
            case None => c == None
            case Some((code, rest)) => c == Some(code) && buf.Stream() == rest
  {
    SkipSpaces(buf);
    c := buf.Bump();
  }

  lemma NoDigits(s: Str)
    requires s == []
    ensures DigitsValue(s) == 0
  {
  }

  /** Where the digits at the front end. */
  lemma DigitsStopAt(s: Str, i: nat)
    requires i <= |s| && (forall k :: 0 <= k < i ==> IsDigit(s[k])) && (i < |s| ==> !IsDigit(s[i]))
    ensures ExtractDigits(s) == if i == 0 || i == |s| then None else Some((DigitsValue(s[..i]), s[i..]))
  {
    DigitsAreCounted(s[..i], s[i..]);
    assert s == s[..i] + s[i..];
  }

  lemma OneDigitMore(s: Str, i: nat)
    requires i < |s| && forall k :: 0 <= k <= i ==> IsDigit(s[k])
    ensures DigitsValue(s[..i + 1]) == 10 * DigitsValue(s[..i]) + (s[i] as int - 0x30)
  {
    assert s[..i + 1][..i] == s[..i];
  }

  method ReadDigits(buf: StreamBuf) returns (n: Option<nat>)
    requires buf.Valid()
    modifies buf, buf.inBuffer
    ensures buf.Valid()
    ensures match ExtractDigits(old(buf.Stream()))
            case None => n == None
            case Some((value, rest)) => n == Some(value) && buf.Stream() == rest
  {
    hide ExtractDigits, DigitsValue, StreamBuf.Stream;
    ghost var s := buf.Stream();
    var i: nat, value: nat := 0, 0;
    assert DigitsValue(s[..0]) == 0 by { NoDigits(s[..0]); }
    while true
      invariant buf.Valid() && i <= |s| && buf.Stream() == s[i..] && forall k :: 0 <= k < i ==> IsDigit(s[k])
      invariant value == DigitsValue(s[..i])
      decreases |s| - i
    {
      var c := Peek(buf);
      if c == None {
        DigitsStopAt(s, i);
        return None;
      } else if !IsDigit(c.value) {
        DigitsStopAt(s, i);
        return if i == 0 then None else Some(value);
      }
      var _ := buf.Bump();
      OneDigitMore(s, i);
      var digit: nat := c.value - 0x30;
      value := 10 * value + digit;
      i := i + 1;
    }
  }

  /** stream >> number */
  method ReadNumber(buf: StreamBuf, limit: nat) returns (n: Option<int>)
    requires buf.Valid()
    modifies buf, buf.inBuffer
    ensures buf.Valid()
    ensures match ExtractInt(old(buf.Stream()), limit)
            case None => n == None
            case Some((value, rest)) => n == Some(value) && buf.Stream() == rest
  {
    hide ExtractDigits, SkipSpace, StreamBuf.Stream, IsSpace;
    SkipSpaces(buf);
    var sign := Peek(buf);
    if sign == Some(MINUS) || sign == Some(PLUS) {
      var _ := buf.Bump();
    }
    var magnitude := ReadDigits(buf);
    match magnitude
    case None => return None;
    case Some(m) =>
      var value: int := if sign == Some(MINUS) then 0 - m else m;
      return if 0 - limit <= value < limit then Some(value) else None;
  }

  /** std::getline up to a carriage return */
  method ReadLine(buf: StreamBuf) returns (line: Option<Str>)
    requires buf.Valid()
    modifies buf, buf.inBuffer
    ensures buf.Valid()
    ensures match ExtractLine(old(buf.Stream()))
            case None => line == None
            case Some((text, rest)) => line == Some(text) && buf.Stream() == rest
  {
    var text := [];
    LineStep(text, buf.Stream());
    while true
      invariant buf.Valid() && ExtractLine(old(buf.Stream())) == LineFrom(text, buf.Stream())
      decreases |buf.Stream()|
    {
      ghost var s := buf.Stream();
      LineStep(text, s);
      var c := buf.Bump();
      if c == None {
        return None;
      } else if c.value == RETURN {
        return Some(text);
      }
      text := text + [c.value];
    }
  }

  /** The line of which `text` has been read. */
  function LineFrom(text: Str, s: Str): Option<(Str, Str)> {
    match ExtractLine(s)
    case None => None
    case Some((more, rest)) => Some((text + more, rest))
  }

  lemma LineStep(text: Str, s: Str)
    ensures s == [] ==> LineFrom(text, s) == None
    ensures s != [] && s[0] == RETURN ==> LineFrom(text, s) == Some((text, s[1..]))
    ensures s != [] && s[0] != RETURN ==> LineFrom(text, s) == LineFrom(text + [s[0]], s[1..])
    ensures LineFrom([], s) == ExtractLine(s)
  {
    assert text + [] == text;
    if ExtractLine(s).Some? {
      assert [] + ExtractLine(s).value.0 == ExtractLine(s).value.0;
    }
    if s != [] && s[0] != RETURN && ExtractLine(s[1..]).Some? {
      var more := ExtractLine(s[1..]).value.0;
      assert text + ([s[0]] + more) == (text + [s[0]]) + more;
    }
  }

  /** readStatusCodeReply */
  method ReadStatusReply(buf: StreamBuf) returns (text: Option<Str>)
    requires buf.Valid()
    modifies buf, buf.inBuffer
    ensures buf.Valid()
    ensures match ReadStatus(old(buf.Stream()))
            case None => text == None
            case Some((line, rest)) => text == Some(line) && buf.Stream() == rest
  {
    hide ExtractChar, ExtractLine;
    var code := ReadChar(buf);
    if code == None {
      return None;
    }
    text := ReadLine(buf);
    if code != Some(PLUS) {
      return None;
    }
  }

  /** readIntegerReply */
  method ReadIntegerReply(buf: StreamBuf) returns (n: Option<int>)
    requires buf.Valid()
    modifies buf, buf.inBuffer
    ensures buf.Valid()
    ensures match ReadInteger(old(buf.Stream()))
            case None => n == None
            case Some((value, rest)) => n == Some(value) && buf.Stream() == rest
  {
    hide ExtractChar, ExtractInt;
    var code := ReadChar(buf);
    if code == None {
      return None;
    }
    n := ReadNumber(buf, TWO_TO_63);
  }

  /** stream.read() of as many bytes */
  method ReadBytes(buf: StreamBuf, count: nat) returns (r: Option<Str>)
    requires buf.Valid()
    modifies buf, buf.inBuffer
    ensures buf.Valid()
    ensures var s := old(buf.Stream());
            if |s| < count then r == None else r == Some(s[..count]) && buf.Stream() == s[count..]
  {
    var out := new byte[count](_ => 0);
    var got := buf.Xsgetn(out, count);
    if got < count {
      return None;
    }
    assert out[..] == out[..count];
    return Some(out[..]);
  }

  /** The end of the length's line, and the bytes behind it. */
  method ReadBody(buf: StreamBuf, count: nat) returns (r: Option<Option<Str>>)
    requires buf.Valid()
    modifies buf, buf.inBuffer
    ensures buf.Valid()
    ensures var s := old(buf.Stream());
            if |s| < 2 + count then r == None
            else r == Some(Some(s[2..2 + count])) && buf.Stream() == s[2 + count..]
  {
    ghost var s := buf.Stream();
    var _ := buf.Bump();
    var lineFeed := buf.Bump();
    if lineFeed == None {
      return None;
    }
    assert buf.Stream() == s[2..];
    var bytes := ReadBytes(buf, count);
    if bytes == None {
      return None;
    }
    assert s[2..][..count] == s[2..2 + count] && s[2..][count..] == s[2 + count..];
    return Some(bytes);
  }

  /** readBulkReply; the inner None is a nil reply. */
  method ReadBulkReply(buf: StreamBuf) returns (r: Option<Option<Str>>)
    requires buf.Valid()
    modifies buf, buf.inBuffer
    ensures buf.Valid()
    ensures match ReadBulk(old(buf.Stream()))
            case None => r == None
            case Some((item, rest)) => r == Some(item) && buf.Stream() == rest
  {
    hide ExtractChar, ExtractInt;
    var code := ReadChar(buf);
    if code == None {
      return None;
    }
    var count := ReadNumber(buf, TWO_TO_31);
    if count == None || code != Some(DOLLAR) {
      return None;
    } else if count.value < 0 {
      return Some(None);
    }
    r := ReadBody(buf, count.value);
  }

  /** The header that nextOptional reads. */
  method ReadMultiHeader(buf: StreamBuf) returns (n: Option<nat>)
    requires buf.Valid()
    modifies buf, buf.inBuffer
    ensures buf.Valid()
    ensures match ReadHeader(old(buf.Stream()))
            case None => n == None
            case Some((count, rest)) => n == Some(count) && buf.Stream() == rest
  {
    hide ExtractChar, ExtractInt;
    var code := ReadChar(buf);
    if code == None {
      return None;
    }
    var count := ReadNumber(buf, TWO_TO_31);
    if count == None || code != Some(STAR) || count.value < 0 {
      return None;
    }
    return Some(count.value);
  }
}
