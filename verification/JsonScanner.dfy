/**
 The scanner: its token classes as a grammar (RFC 7159, sections 2 to 7, with the code's own string
 bytes), the token it must return, the automaton itself, and the proof that it finds the longest match.
 */
module JsonScanner {
  import opened Bytes
  import opened JsonStrings

  datatype Token =
    | LiteralTrue | LiteralFalse | LiteralNull
    | ValueString | ValueNumber
    | BeginArray | BeginObject | EndArray | EndObject
    | NameSeparator | ValueSeparator
    | ParseError | EndOfInput | Uninitialized

  /** A token and where it stands: content[start..end]. */
  datatype Lexeme = Lexeme(token: Token, start: nat, end: nat)

  const TRUE_TEXT: Str := [0x74, 0x72, 0x75, 0x65]
  const FALSE_TEXT: Str := [0x66, 0x61, 0x6C, 0x73, 0x65]
  const NULL_TEXT: Str := [0x6E, 0x75, 0x6C, 0x6C]

  /** A buffer as c_str() gives it: the last byte is NUL (others may be, too). */
  predicate Terminated(b: Str) {
    |b| > 0 && b[|b| - 1] == 0
  }

  // ---------------------------------------------------------------- the grammar

  predicate AllDigits(b: Str, i: nat, e: nat)
    requires i <= e <= |b|
  {
    forall k :: i <= k < e ==> IsDigit(b[k])
  }

  predicate IsSign(b: byte) {
    b == PLUS || b == MINUS
  }

  predicate IsE(b: byte) {
    b == 0x65 || b == 0x45
  }

  /** b[i..j] is `0` or a nonempty digit string that does not start with 0. */
  predicate IsInt(b: Str, i: nat, j: nat)
    requires i <= j <= |b|
  {
    i < j && AllDigits(b, i, j) && (b[i] == ZERO ==> j == i + 1)
  }

  predicate IsFrac(b: Str, j: nat, k: nat)
    requires j <= k <= |b|
  {
    j + 1 < k && b[j] == DOT && AllDigits(b, j + 1, k)
  }

  predicate IsExp(b: Str, k: nat, e: nat)
    requires k <= e <= |b|
  {
    k + 1 < e && IsE(b[k])
    && (AllDigits(b, k + 1, e) || (IsSign(b[k + 1]) && k + 2 < e && AllDigits(b, k + 2, e)))
  }

  /** number = [ minus ] int [ frac ] [ exp ], split at i, j and k. */
  predicate NumberParts(b: Str, s: nat, i: nat, j: nat, k: nat, e: nat)
    requires e <= |b|
  {
    && s <= i <= j <= k <= e
    && (i == s || (i == s + 1 && b[s] == MINUS))
    && IsInt(b, i, j)
    && (k == j || IsFrac(b, j, k))
    && (e == k || IsExp(b, k, e))
  }

  ghost predicate IsNumber(b: Str, s: nat, e: nat)
    requires s <= e <= |b|
  {
    exists i, j, k :: NumberParts(b, s, i, j, k, e)
  }

  function Punctuation(t: Token): Option<byte> {
    match t
    case BeginArray => Some(0x5B)
    case BeginObject => Some(0x7B)
    case EndArray => Some(0x5D)
    case EndObject => Some(0x7D)
    case NameSeparator => Some(COLON)
    case ValueSeparator => Some(COMMA)
    case EndOfInput => Some(0)
    case _ => None
  }

  function Keyword(t: Token): Option<Str> {
    match t
    case LiteralTrue => Some(TRUE_TEXT)
    case LiteralFalse => Some(FALSE_TEXT)
    case LiteralNull => Some(NULL_TEXT)
    case _ => None
  }

  /** b[s..e] is of token class `t`; ParseError is the class of nothing. */
  ghost predicate Matches(t: Token, b: Str, s: nat, e: nat)
    requires s <= e <= |b|
  {
    if Punctuation(t).Some? then e == s + 1 && b[s] == Punctuation(t).value
    else if Keyword(t).Some? then e == s + |Keyword(t).value| && At(b, s, Keyword(t).value)
    else if t == ValueString then IsStringToken(b, s, e)
    else if t == ValueNumber then IsNumber(b, s, e)
    else false
  }

  predicate IsSpace(b: byte) {
    b in {0x09, 0x0A, 0x0D, 0x20}
  }

  predicate IsByteOrderMark(b: Str, p: nat)
  {
    p + 3 <= |b| && b[p] == 0xEF && b[p + 1] == 0xBB && b[p + 2] == 0xBF
  }

  // ---------------------------------------------------------------- the token at a position

  function DigitsEnd(b: Str, i: nat): (e: nat)
    requires Terminated(b) && i < |b|
    ensures i <= e < |b| && AllDigits(b, i, e) && !IsDigit(b[e])
    decreases |b| - i
  {
    if IsDigit(b[i]) then DigitsEnd(b, i + 1) else i
  }

  function IntEnd(b: Str, i: nat): (e: nat)
    requires Terminated(b) && i < |b| && IsDigit(b[i])
    ensures i < e < |b|
  {
    if b[i] == ZERO then i + 1 else DigitsEnd(b, i)
  }

  function FracEnd(b: Str, j: nat): (e: nat)
    requires Terminated(b) && j < |b|
    ensures j <= e < |b|
  {
    if b[j] == DOT && IsDigit(b[j + 1]) then DigitsEnd(b, j + 1) else j
  }

  function ExpEnd(b: Str, k: nat): (e: nat)
    requires Terminated(b) && k < |b|
    ensures k <= e < |b|
  {
    if !IsE(b[k]) then k
    else if IsDigit(b[k + 1]) then DigitsEnd(b, k + 1)
    else if IsSign(b[k + 1]) && IsDigit(b[k + 2]) then DigitsEnd(b, k + 2)
    else k
  }

  function NumberEnd(b: Str, s: nat): (r: Option<nat>)
    requires Terminated(b) && s < |b|
    ensures r.Some? ==> s < r.value < |b|
  {
    var i := if b[s] == MINUS then s + 1 else s;
    if IsDigit(b[i]) then Some(ExpEnd(b, FracEnd(b, IntEnd(b, i)))) else None
  }

  /** Where the string whose units continue at `i` ends, one past its closing quote. */
  function StringEnd(b: Str, i: nat): (r: Option<nat>)
    requires i <= |b|
    ensures r.Some? ==> i < r.value <= |b|
    decreases |b| - i
  {
    if i == |b| then None
    else if b[i] == QUOTE then Some(i + 1)
    else if UnitLen(b, i, |b|) == 0 then None
    else StringEnd(b, i + UnitLen(b, i, |b|))
  }

  /** What `scan` skips: whitespace and byte order marks. */
  function SkipEnd(b: Str, p: nat): (s: nat)
    requires Terminated(b) && p < |b|
    ensures p <= s < |b| && !IsSpace(b[s]) && !IsByteOrderMark(b, s)
    decreases |b| - p
  {
    if IsSpace(b[p]) then SkipEnd(b, p + 1)
    else if IsByteOrderMark(b, p) then SkipEnd(b, p + 3)
    else p
  }

  /** b[p..s] is whitespace of RFC 7159, section 2, and UTF-8 byte order marks. */
  predicate IsBlankRun(b: Str, p: nat, s: nat)
    requires s <= |b|
    decreases s - p
  {
    p == s
    || (p < s && b[p] in {0x20, 0x09, 0x0A, 0x0D} && IsBlankRun(b, p + 1, s))
    || (p + 3 <= s && b[p..p + 3] == [0xEF, 0xBB, 0xBF] && IsBlankRun(b, p + 3, s))
  }

  /** The scan goes on from the first place behind such a run where it ends. */
  lemma {:induction false} SkipIsBlankRun(b: Str, p: nat, s: nat)
    requires Terminated(b) && p < |b| && s < |b|
    ensures SkipEnd(b, p) == s
       <==> IsBlankRun(b, p, s) && b[s] !in {0x20, 0x09, 0x0A, 0x0D}
            && !(s + 3 <= |b| && b[s..s + 3] == [0xEF, 0xBB, 0xBF])
    decreases |b| - p
  {
    if p <= |b| - 3 {
      assert b[p..p + 3] == [b[p], b[p + 1], b[p + 2]];
    }
    if IsSpace(b[p]) {
      SkipIsBlankRun(b, p + 1, s);
    } else if IsByteOrderMark(b, p) {
      SkipIsBlankRun(b, p + 3, s);
    } else if SkipEnd(b, p) != s {
      assert !IsBlankRun(b, p, s);
    }
  }

  function PunctuationToken(c: byte): (t: Option<Token>)
    ensures t.Some? ==> Punctuation(t.value) == Some(c)
  {
    if c == 0x5B then Some(BeginArray)
    else if c == 0x7B then Some(BeginObject)
    else if c == 0x5D then Some(EndArray)
    else if c == 0x7D then Some(EndObject)
    else if c == COLON then Some(NameSeparator)
    else if c == COMMA then Some(ValueSeparator)
    else if c == 0 then Some(EndOfInput)
    else None
  }

  function Found(t: Token, s: nat, e: Option<nat>): Lexeme {
    match e
    case Some(end) => Lexeme(t, s, end)
    case None => Lexeme(ParseError, s, s + 1)
  }

  function KeywordEnd(b: Str, s: nat, text: Str): Option<nat> {
    if At(b, s, text) then Some(s + |text|) else None
  }

  function TokenAt(b: Str, s: nat): (r: Lexeme)
    requires Terminated(b) && s < |b|
    ensures r.start == s < r.end <= |b|
    ensures r.token != EndOfInput ==> r.end < |b|
  {
    var c := b[s];
    if PunctuationToken(c).Some? then Lexeme(PunctuationToken(c).value, s, s + 1)
    else if c == QUOTE then
      StringEndsBeforeTerminator(b, s + 1);
      Found(ValueString, s, StringEnd(b, s + 1))
    else if c == MINUS || IsDigit(c) then Found(ValueNumber, s, NumberEnd(b, s))
    else if c == 0x74 then KeywordFits(b, s, TRUE_TEXT); Found(LiteralTrue, s, KeywordEnd(b, s, TRUE_TEXT))
    else if c == 0x66 then KeywordFits(b, s, FALSE_TEXT); Found(LiteralFalse, s, KeywordEnd(b, s, FALSE_TEXT))
    else if c == 0x6E then KeywordFits(b, s, NULL_TEXT); Found(LiteralNull, s, KeywordEnd(b, s, NULL_TEXT))
    else Lexeme(ParseError, s, s + 1)
  }

  /** The token `scan` returns from position `p`, its start and the position after it. */
  function NextToken(b: Str, p: nat): (r: Lexeme)
    requires Terminated(b) && p < |b|
    ensures p <= r.start < r.end <= |b| && r == TokenAt(b, r.start)
    ensures r.token != EndOfInput ==> r.end < |b|
  {
    TokenAt(b, SkipEnd(b, p))
  }

  lemma KeywordFits(b: Str, s: nat, text: Str)
    requires Terminated(b) && |text| > 0 && text[|text| - 1] != 0
    ensures At(b, s, text) ==> s + |text| < |b|
  {
    if At(b, s, text) {
      AtByte(b, s, text, |text| - 1);
    }
  }

  lemma NotThere(b: Str, s: nat, text: Str, k: nat)
    requires k < |text| && s + k < |b| && b[s + k] != text[k]
    ensures !At(b, s, text)
  {
    if s + |text| <= |b| {
      assert b[s..s + |text|][k] == b[s + k];
    }
  }

  lemma {:induction false} StringEndsBeforeTerminator(b: Str, i: nat)
    requires Terminated(b) && i <= |b|
    ensures StringEnd(b, i).Some? ==> StringEnd(b, i).value < |b|
    decreases |b| - i
  {
    if i < |b| && b[i] != QUOTE && UnitLen(b, i, |b|) > 0 {
      StringEndsBeforeTerminator(b, i + UnitLen(b, i, |b|));
    }
  }

  // ---------------------------------------------------------------- longest match

  lemma {:induction false} DigitsEndMax(b: Str, i: nat, e: nat)
    requires Terminated(b) && i < |b| && i <= e <= |b| && AllDigits(b, i, e)
    ensures e <= DigitsEnd(b, i)
    ensures e < |b| && !IsDigit(b[e]) ==> e == DigitsEnd(b, i)
    decreases e - i
  {
    if i < e {
      assert IsDigit(b[i]);
      DigitsEndMax(b, i + 1, e);
    }
  }

  lemma NumberIsLongest(b: Str, s: nat, i: nat, j: nat, k: nat, e: nat)
    requires Terminated(b) && s < |b| && e <= |b| && NumberParts(b, s, i, j, k, e)
    ensures NumberEnd(b, s).Some? && e <= NumberEnd(b, s).value
  {
    assert IsDigit(b[i]);
    DigitsEndMax(b, i, j);
    if k != j {
      DigitsEndMax(b, j + 1, k);
      assert j == IntEnd(b, i) && IsDigit(b[j + 1]);
    }
    if e != k {
      assert j == IntEnd(b, i) && k == FracEnd(b, j);
      ExponentIsLongest(b, k, e);
    }
  }

  lemma ExponentIsLongest(b: Str, k: nat, e: nat)
    requires Terminated(b) && k < e <= |b| && IsExp(b, k, e)
    ensures e <= ExpEnd(b, k)
  {
    if AllDigits(b, k + 1, e) {
      assert IsDigit(b[k + 1]);
      DigitsEndMax(b, k + 1, e);
    } else {
      assert IsDigit(b[k + 2]);
      DigitsEndMax(b, k + 2, e);
    }
  }

  lemma NumberEndMatches(b: Str, s: nat)
    requires Terminated(b) && s < |b| && NumberEnd(b, s).Some?
    ensures IsNumber(b, s, NumberEnd(b, s).value)
  {
    var i := if b[s] == MINUS then s + 1 else s;
    var j := IntEnd(b, i);
    var k := FracEnd(b, j);
    assert IsInt(b, i, j);
    assert k == j || IsFrac(b, j, k);
    assert NumberParts(b, s, i, j, k, NumberEnd(b, s).value);
  }

  /** A string body never runs past the closing quote, so string tokens do not extend each other. */
  lemma {:induction false} BodyEndsAtQuote(b: Str, i: nat, q: nat)
    requires i <= q < |b| && b[q] == QUOTE && IsBody(b, i, q)
    ensures StringEnd(b, i) == Some(q + 1)
    decreases q - i
  {
    if i < q {
      assert UnitLen(b, i, |b|) == UnitLen(b, i, q);
      BodyEndsAtQuote(b, i + UnitLen(b, i, q), q);
    }
  }

  lemma {:induction false} StringEndMatches(b: Str, i: nat)
    requires i <= |b| && StringEnd(b, i).Some?
    ensures b[StringEnd(b, i).value - 1] == QUOTE && IsBody(b, i, StringEnd(b, i).value - 1)
    decreases |b| - i
  {
    if b[i] != QUOTE {
      var n := UnitLen(b, i, |b|);
      StringEndMatches(b, i + n);
      assert UnitLen(b, i, StringEnd(b, i).value - 1) == n;
    }
  }

  /** Token classes start with different bytes. */
  lemma FirstByte(t: Token, b: Str, s: nat, e: nat)
    requires s < e <= |b| && Matches(t, b, s, e)
    ensures t == ValueNumber <==> b[s] == MINUS || IsDigit(b[s])
    ensures t == ValueString <==> b[s] == QUOTE
    ensures Punctuation(t).Some? <==> PunctuationToken(b[s]) == Some(t)
    ensures t == LiteralTrue <==> b[s] == 0x74
    ensures t == LiteralFalse <==> b[s] == 0x66
    ensures t == LiteralNull <==> b[s] == 0x6E
  {
    if Keyword(t).Some? {
      AtByte(b, s, Keyword(t).value, 0);
    }
  }

  /**
   The token returned at `s` is the longest match there over all classes; ParseError, one byte wide,
   is returned exactly when nothing matches.
   */
  lemma LongestMatch(b: Str, s: nat)
    requires Terminated(b) && s < |b|
    ensures var r := TokenAt(b, s);
      && (r.token != ParseError ==> Matches(r.token, b, s, r.end))
      && (r.token == ParseError ==> r.end == s + 1)
      && forall t, e | s < e <= |b| && Matches(t, b, s, e) :: t == r.token && e <= r.end
  {
    var r := TokenAt(b, s);
    if r.token == ValueNumber {
      NumberEndMatches(b, s);
    } else if r.token == ValueString {
      StringEndMatches(b, s + 1);
    }
    forall t, e | s < e <= |b| && Matches(t, b, s, e)
      ensures t == r.token && e <= r.end
    {
      FirstByte(t, b, s, e);
      if t == ValueNumber {
        var i, j, k :| NumberParts(b, s, i, j, k, e);
        NumberIsLongest(b, s, i, j, k, e);
      } else if t == ValueString {
        BodyEndsAtQuote(b, s + 1, e - 1);
      }
    }
  }

  // ---------------------------------------------------------------- the automaton

  class Lexer {
    const content: Str
    /** One past the last character of the string; the terminating NUL stands there. */
    const limit: nat
    var start: nat
    var marker: nat
    var cursor: nat

    ghost predicate Valid()
      reads this
    {
      Terminated(content) && limit + 1 == |content| && cursor <= |content|
    }

    constructor (s: Str)
      ensures Valid() && content == s + [0] && cursor == 0
    {
      content := s + [0];
      limit := |s|;
      start, marker, cursor := 0, 0, 0;
    }

    /** States 6, 30, 42 and 52 restart the scan; every other first byte picks a token class. */
    method Scan() returns (token: Token)
      requires Valid() && cursor < |content|
      modifies this
      ensures Valid()
      ensures Lexeme(token, start, cursor) == NextToken(content, old(cursor))
      decreases |content| - cursor
    {
      start := cursor;
      var yych := content[cursor];
      if yych in {0x09, 0x0A, 0x0D, 0x20} {
        cursor := cursor + 1;
        while content[cursor] in {0x09, 0x0A, 0x0D, 0x20}
          invariant old(cursor) < cursor < |content|
          invariant SkipEnd(content, cursor) == SkipEnd(content, old(cursor))
          decreases |content| - cursor
        {
          cursor := cursor + 1;
        }
        token := Scan();
      } else if yych == 0xEF {
        cursor := cursor + 1;
        marker := cursor;
        if content[cursor] == 0xBB {
          cursor := cursor + 1;
          if content[cursor] == 0xBF {
            cursor := cursor + 1;
            token := Scan();
            return;
          }
          cursor := marker;
        }
        token := ParseError;
      } else {
        assert SkipEnd(content, cursor) == cursor;
        token := ScanToken(yych);
      }
    }

    method ScanToken(yych: byte) returns (token: Token)
      requires Valid() && cursor < |content| && yych == content[cursor] && start == cursor
      modifies this
      ensures Valid() && start == old(start)
      ensures Lexeme(token, start, cursor) == TokenAt(content, start)
    {
      if yych == 0 {
        cursor := cursor + 1;
        token := EndOfInput;
      } else if yych == QUOTE {
        token := ScanString();
      } else if yych == COMMA {
        cursor := cursor + 1;
        token := ValueSeparator;
      } else if yych == MINUS || IsDigit(yych) {
        token := ScanNumber();
      } else if yych == COLON {
        cursor := cursor + 1;
        token := NameSeparator;
      } else if yych == 0x5B {
        cursor := cursor + 1;
        token := BeginArray;
      } else if yych == 0x5D {
        cursor := cursor + 1;
        token := EndArray;
      } else if yych == 0x66 {
        token := ScanKeyword(FALSE_TEXT, LiteralFalse);
      } else if yych == 0x6E {
        token := ScanKeyword(NULL_TEXT, LiteralNull);
      } else if yych == 0x74 {
        token := ScanKeyword(TRUE_TEXT, LiteralTrue);
      } else if yych == 0x7B {
        cursor := cursor + 1;
        token := BeginObject;
      } else if yych == 0x7D {
        cursor := cursor + 1;
        token := EndObject;
      } else {
        cursor := cursor + 1;
        token := ParseError;
      }
    }

    /** States 23-25, 39-41, 49-51, 55, 56, 58 and 61. */
    method ScanKeyword(text: Str, found: Token) returns (token: Token)
      requires Valid() && cursor < |content| && start == cursor
      requires |text| > 0 && content[cursor] == text[0] && forall k :: 0 <= k < |text| ==> text[k] != 0
      modifies this
      ensures Valid() && start == old(start)
      ensures Lexeme(token, start, cursor) == Found(found, start, KeywordEnd(content, start, text))
    {
      cursor := cursor + 1;
      marker := cursor;
      assert content[start..start + 1] == [text[0]] == text[..1];
      var k := 1;
      while k < |text|
        invariant 1 <= k <= |text| && cursor == start + k <= |content| && start == old(start)
        invariant marker == start + 1 && At(content, start, text[..k])
        invariant content[cursor - 1] != 0
      {
        if content[cursor] != text[k] {
          NotThere(content, start, text, k);
          cursor := marker;
          return ParseError;
        }
        AtSnoc(content, start, text, k);
        cursor := cursor + 1;
        k := k + 1;
      }
      assert text[..k] == text;
      return found;
    }

    /** States 12-15, 37, 38, 44, 46 and 47. */
    method ScanNumber() returns (token: Token)
      requires Valid() && cursor < |content| && start == cursor
      requires content[cursor] == MINUS || IsDigit(content[cursor])
      modifies this
      ensures Valid() && start == old(start)
      ensures Lexeme(token, start, cursor) == Found(ValueNumber, start, NumberEnd(content, start))
    {
      if content[cursor] == MINUS {
        cursor := cursor + 1;
        if !IsDigit(content[cursor]) {
          return ParseError;
        }
      }
      ghost var i := cursor;
      if content[cursor] == ZERO {
        cursor := cursor + 1;
      } else {
        ConsumeDigits();
      }
      marker := cursor;
      ghost var j := cursor;
      assert j == IntEnd(content, i);
      if content[cursor] == DOT {
        var ok := ScanFraction();
        if !ok {
          return ValueNumber;
        }
      }
      if content[cursor] == 0x45 || content[cursor] == 0x65 {
        ScanExponent();
      }
      return ValueNumber;
    }

    /** States 37 and 44. */
    method ScanFraction() returns (ok: bool)
      requires Valid() && cursor < |content| && content[cursor] == DOT && marker == cursor
      modifies this`cursor, this`marker
      ensures Valid() && cursor == marker == FracEnd(content, old(cursor))
      ensures !ok ==> cursor == old(cursor)
    {
      cursor := cursor + 1;
      if !IsDigit(content[cursor]) {
        cursor := marker;
        return false;
      }
      ConsumeDigits();
      marker := cursor;
      return true;
    }

    /** States 38, 46 and 47. */
    method ScanExponent()
      requires Valid() && cursor < |content| && IsE(content[cursor]) && marker == cursor
      modifies this`cursor
      ensures Valid() && cursor == ExpEnd(content, old(cursor))
    {
      cursor := cursor + 1;
      if content[cursor] == PLUS || content[cursor] == MINUS {
        cursor := cursor + 1;
      }
      if !IsDigit(content[cursor]) {
        cursor := marker;
        return;
      }
      ConsumeDigits();
    }

    /** The loops of states 15, 44 and 47. */
    method ConsumeDigits()
      requires Valid() && cursor < |content|
      modifies this`cursor
      ensures Valid() && cursor == DigitsEnd(content, old(cursor))
    {
      while IsDigit(content[cursor])
        invariant old(cursor) <= cursor < |content|
        invariant DigitsEnd(content, cursor) == DigitsEnd(content, old(cursor))
        decreases |content| - cursor
      {
        cursor := cursor + 1;
      }
    }

    /** States 9, 31-34, 36, 43, 54, 60 and 63. */
    method ScanString() returns (token: Token)
      requires Valid() && cursor < |content| && start == cursor && content[cursor] == QUOTE
      modifies this
      ensures Valid() && start == old(start)
      ensures Lexeme(token, start, cursor) == Found(ValueString, start, StringEnd(content, start + 1))
    {
      cursor := cursor + 1;
      marker := cursor;
      while true
        invariant start == old(start) < cursor < |content| && marker == start + 1
        invariant StringEnd(content, cursor) == StringEnd(content, start + 1)
        decreases |content| - cursor
      {
        var yych := content[cursor];
        ghost var unit := cursor;
        if yych == QUOTE {
          cursor := cursor + 1;
          return ValueString;
        } else if yych != BACKSLASH {
          if yych <= 0x0F {
            cursor := marker;
            return ParseError;
          }
          cursor := cursor + 1;
        } else {
          var ok := ScanEscape();
          if !ok {
            cursor := marker;
            return ParseError;
          }
        }
        assert cursor == unit + UnitLen(content, unit, |content|);
      }
    }

    /** States 36, 43, 54, 60 and 63; the caller goes to state 33 when this fails. */
    method ScanEscape() returns (ok: bool)
      requires Valid() && cursor < |content| && content[cursor] == BACKSLASH
      modifies this`cursor
      ensures Valid()
      ensures ok <==> UnitLen(content, old(cursor), |content|) > 0
      ensures ok ==> cursor == old(cursor) + UnitLen(content, old(cursor), |content|) < |content|
    {
      cursor := cursor + 1;
      var escape := content[cursor];
      if IsSimpleEscape(escape) {
        cursor := cursor + 1;
        return true;
      }
      if escape != 0x75 {
        return false;
      }
      cursor := cursor + 1;
      ghost var first := cursor;
      for h := 0 to 4
        invariant first == old(cursor) + 2 && cursor == first + h < |content|
        invariant forall k :: first <= k < cursor ==> IsHex(content[k])
      {
        if !IsHex(content[cursor]) {
          return false;
        }
        cursor := cursor + 1;
      }
      return true;
    }
  }
}
