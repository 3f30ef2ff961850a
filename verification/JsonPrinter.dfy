/** The printer, and the proof that parsing its output gives the value back. */
module JsonPrinter {
  import opened Bytes
  import opened JsonStrings
  import opened JsonScanner
  import opened JsonNumbers
  import opened JsonValues
  import opened JsonParser

  /** Whether to print on several lines, and the indent step (an unsigned int). */
  datatype Style = Style(pretty: bool, step: nat)

  /** dump(indent): -1 or less is compact, anything else is the step of a pretty print. */
  function StyleOf(indent: int): Style {
    if indent >= 0 then Style(true, indent % TWO_TO_32) else Style(false, 0)
  }

  function Spaces(n: nat): (s: Str)
    ensures |s| == n && forall k :: 0 <= k < n ==> s[k] == SPACE
  {
    seq(n, _ => SPACE)
  }

  /** The indent one level deeper; unsigned int arithmetic. */
  function Deeper(style: Style, indent: nat): nat {
    if style.pretty then (indent + style.step) % TWO_TO_32 else indent
  }

  function Shallower(style: Style, indent: nat): nat {
    if style.pretty then (indent - style.step) % TWO_TO_32 else indent
  }

  function LineBreak(style: Style): Str {
    if style.pretty then [NEWLINE] else []
  }

  function Separator(style: Style, first: bool): Str {
    if first then [] else [COMMA] + LineBreak(style)
  }

  function Quoted(s: Str): Str {
    [QUOTE] + Escape(s) + [QUOTE]
  }

  function Opening(style: Style, bracket: byte): Str {
    [bracket] + LineBreak(style)
  }

  function Closing(style: Style, indent: nat, bracket: byte): (s: Str)
    ensures |s| > 0
  {
    LineBreak(style) + Spaces(Shallower(style, Deeper(style, indent))) + [bracket]
  }

  /** What stands before an element or a key. */
  function Lead(style: Style, indent: nat, first: bool): Str {
    Separator(style, first) + Spaces(indent)
  }

  function Gap(style: Style): Str {
    if style.pretty then [SPACE] else []
  }

  function KeyText(style: Style, indent: nat, first: bool, key: Str): Str {
    Lead(style, indent, first) + (Quoted(key) + ([COLON] + Gap(style)))
  }

  /** What dump writes for a value at an indent. */
  function Dump(v: Json, style: Style, indent: nat): Str {
    match v
    case Null => NULL_TEXT
    case Boolean(b) => if b then TRUE_TEXT else FALSE_TEXT
    case IntegerNumber(i) => PrintInt(i)
    case UnsignedNumber(u) => PrintInt(u)
    case FloatNumber(text) => text
    case String(s) => Quoted(s)
    case Array(a) =>
      if a == [] then [0x5B, 0x5D]
      else Opening(style, 0x5B) + (DumpElements(a, style, Deeper(style, indent), true) + Closing(style, indent, 0x5D))
    case Object(ms) =>
      if ms == [] then [0x7B, 0x7D]
      else Opening(style, 0x7B) + (DumpMembers(ms, style, Deeper(style, indent), true) + Closing(style, indent, 0x7D))
  }

  function DumpElements(a: seq<Json>, style: Style, indent: nat, first: bool): Str {
    if a == [] then []
    else Lead(style, indent, first) + (Dump(a[0], style, indent) + DumpElements(a[1..], style, indent, false))
  }

  function DumpMembers(ms: seq<Member>, style: Style, indent: nat, first: bool): Str {
    if ms == [] then []
    else KeyText(style, indent, first, ms[0].key)
         + (Dump(ms[0].value, style, indent) + DumpMembers(ms[1..], style, indent, false))
  }

  class OutputStream {
    var text: Str

    constructor ()
      ensures text == []
    {
      text := [];
    }

    method Write(s: Str)
      modifies this
      ensures text == old(text) + s
    {
      text := text + s;
    }
  }

  /** basic_json::dump, onto a stream. */
  method DumpTo(v: Json, o: OutputStream, style: Style, indent: nat)
    modifies o
    ensures o.text == old(o.text) + Dump(v, style, indent)
    decreases v, 0
  {
    hide Escape, PrintInt, DumpElements, DumpMembers, Opening, Closing, Deeper;
    match v {
      case Null => o.Write(NULL_TEXT);
      case Boolean(b) => o.Write(if b then TRUE_TEXT else FALSE_TEXT);
      case IntegerNumber(i) => o.Write(PrintInt(i));
      case UnsignedNumber(u) => o.Write(PrintInt(u));
      case FloatNumber(text) => o.Write(text);
      case String(s) =>
        var escaped := EscapeString(s);
        o.Write([QUOTE] + escaped + [QUOTE]);
      case Array(a) =>
        if a == [] {
          o.Write([0x5B, 0x5D]);
        } else {
          o.Write(Opening(style, 0x5B));
          DumpArrayTo(a, o, style, Deeper(style, indent));
          o.Write(Closing(style, indent, 0x5D));
        }
      case Object(ms) =>
        if ms == [] {
          o.Write([0x7B, 0x7D]);
        } else {
          o.Write(Opening(style, 0x7B));
          DumpObjectTo(ms, o, style, Deeper(style, indent));
          o.Write(Closing(style, indent, 0x7D));
        }
    }
  }

  method DumpArrayTo(a: seq<Json>, o: OutputStream, style: Style, indent: nat)
    modifies o
    ensures o.text == old(o.text) + DumpElements(a, style, indent, true)
    decreases a, 1
  {
    ghost var whole := o.text + DumpElements(a, style, indent, true);
    hide Dump, Lead;
    for i := 0 to |a|
      invariant o.text + DumpElements(a[i..], style, indent, i == 0) == whole
    {
      ghost var before, rest := o.text, DumpElements(a[i + 1..], style, indent, false);
      o.Write(Lead(style, indent, i == 0));
      DumpTo(a[i], o, style, indent);
      assert a[i..][1..] == a[i + 1..];
      Regroup(before, Lead(style, indent, i == 0), Dump(a[i], style, indent), rest);
    }
  }

  method DumpObjectTo(ms: seq<Member>, o: OutputStream, style: Style, indent: nat)
    modifies o
    ensures o.text == old(o.text) + DumpMembers(ms, style, indent, true)
    decreases ms, 1
  {
    ghost var whole := o.text + DumpMembers(ms, style, indent, true);
    hide Dump, Lead, Escape;
    for i := 0 to |ms|
      invariant o.text + DumpMembers(ms[i..], style, indent, i == 0) == whole
    {
      ghost var before, rest := o.text, DumpMembers(ms[i + 1..], style, indent, false);
      var key := EscapeString(ms[i].key);
      o.Write(Lead(style, indent, i == 0) + (([QUOTE] + key + [QUOTE]) + ([COLON] + Gap(style))));
      DumpTo(ms[i].value, o, style, indent);
      assert ms[i..][1..] == ms[i + 1..];
      Regroup(before, KeyText(style, indent, i == 0, ms[i].key), Dump(ms[i].value, style, indent), rest);
    }
  }

  lemma Regroup(before: Str, lead: Str, value: Str, rest: Str)
    ensures before + lead + value + rest == before + (lead + (value + rest))
  {
  }

  /** basic_json::dump(indent), as a string. */
  method DumpText(v: Json, indent: int) returns (s: Str)
    ensures s == Dump(v, StyleOf(indent), 0)
  {
    var ss := new OutputStream();
    DumpTo(v, ss, StyleOf(indent), 0);
    s := ss.text;
  }

  // ---------------------------------------------------------------- parsing printed text

  /** The value as the parser gives it back: non-negative integers become unsigned. */
  function Parsed(v: Json): Json
    decreases v
  {
    match v
    case IntegerNumber(i) => if i < 0 then v else UnsignedNumber(i)
    case Array(a) => Array(ParsedAll(a))
    case Object(ms) => Object(ParsedMembers(ms))
    case _ => v
  }

  function ParsedAll(a: seq<Json>): (r: seq<Json>)
    ensures |r| == |a| && forall k :: 0 <= k < |a| ==> r[k] == Parsed(a[k])
    decreases a
  {
    if a == [] then [] else [Parsed(a[0])] + ParsedAll(a[1..])
  }

  function ParsedMembers(ms: seq<Member>): (r: seq<Member>)
    ensures |r| == |ms| && forall k :: 0 <= k < |ms| ==> r[k] == Member(ms[k].key, Parsed(ms[k].value))
    decreases ms
  {
    if ms == [] then [] else [Member(ms[0].key, Parsed(ms[0].value))] + ParsedMembers(ms[1..])
  }

  lemma {:induction false} ParsedEqual(v: Json)
    requires Printable(v)
    ensures Equal(Parsed(v), v)
    decreases v
  {
    match v {
      case Array(a) =>
        forall k | 0 <= k < |a| ensures Equal(ParsedAll(a)[k], a[k]) {
          ParsedEqual(a[k]);
        }
      case Object(ms) =>
        forall k | 0 <= k < |ms| ensures Equal(ParsedMembers(ms)[k].value, ms[k].value) {
          ParsedEqual(ms[k].value);
        }
      case _ =>
    }
  }

  predicate Blank(w: Str) {
    forall k :: 0 <= k < |w| ==> IsSpace(w[k])
  }

  /** Whitespace before a token changes nothing. */
  lemma {:induction false} SkipBlank(b: Str, p: nat, w: Str)
    requires Terminated(b) && At(b, p, w) && Blank(w) && p + |w| < |b|
    ensures NextToken(b, p) == NextToken(b, p + |w|)
    decreases w
  {
    hide TokenAt;
    if w != [] {
      AtByte(b, p, w, 0);
      AtSplit(b, p, [w[0]], w[1..]);
      assert w == [w[0]] + w[1..];
      SkipBlank(b, p + 1, w[1..]);
    }
  }

  lemma QuotedParts(b: Str, p: nat, s: Str)
    requires At(b, p, Quoted(s))
    ensures var q := p + 1 + |Escape(s)|;
      q + 1 == p + |Quoted(s)| <= |b| && b[p] == QUOTE && At(b, p + 1, Escape(s)) && b[q] == QUOTE
  {
    hide Escape;
    AtSplit(b, p, [QUOTE] + Escape(s), [QUOTE]);
    AtSplit(b, p, [QUOTE], Escape(s));
    AtByte(b, p, [QUOTE], 0);
    AtByte(b, p + 1 + |Escape(s)|, [QUOTE], 0);
  }

  lemma StringTokenAt(b: Str, p: nat, e: nat)
    requires Terminated(b) && p < |b| && b[p] == QUOTE && StringEnd(b, p + 1) == Some(e)
    ensures NextToken(b, p) == Lexeme(ValueString, p, e) && IsLexeme(b, Lexeme(ValueString, p, e))
  {
    hide StringEnd;
    assert SkipEnd(b, p) == p;
  }

  lemma QuotedToken(b: Str, p: nat, s: Str)
    requires Terminated(b) && At(b, p, Quoted(s))
    ensures IsLexeme(b, Lexeme(ValueString, p, p + |Quoted(s)|))
    ensures NextToken(b, p) == Lexeme(ValueString, p, p + |Quoted(s)|)
    ensures StringOf(b, Lexeme(ValueString, p, p + |Quoted(s)|)) == Ok(s)
  {
    QuotedParts(b, p, s);
    BetweenQuotes(b, p, s, p + 1 + |Escape(s)|);
  }

  lemma BetweenQuotes(b: Str, p: nat, s: Str, q: nat)
    requires Terminated(b) && p + 1 + |Escape(s)| == q < |b|
    requires b[p] == QUOTE && At(b, p + 1, Escape(s)) && b[q] == QUOTE
    ensures IsLexeme(b, Lexeme(ValueString, p, q + 1))
    ensures NextToken(b, p) == Lexeme(ValueString, p, q + 1)
    ensures StringOf(b, Lexeme(ValueString, p, q + 1)) == Ok(s)
  {
    hide Escape, Unescape, StringEnd, IsBody, NextToken;
    UnescapeEscape(b, p + 1, s);
    BodyEndsAtQuote(b, p + 1, q);
    StringTokenAt(b, p, q + 1);
    StringOfBody(b, p, q, s);
  }

  lemma StringOfBody(b: Str, p: nat, q: nat, s: Str)
    requires IsLexeme(b, Lexeme(ValueString, p, q + 1))
    requires p + 1 <= q < |b| && IsBody(b, p + 1, q) && Unescape(b, p + 1, q) == Ok(s)
    ensures StringOf(b, Lexeme(ValueString, p, q + 1)) == Ok(s)
  {
    hide TokenAt, IsBody, Unescape;
  }

  lemma KeywordToken(b: Str, p: nat, t: Token)
    requires Terminated(b) && Keyword(t).Some? && At(b, p, Keyword(t).value)
    ensures NextToken(b, p) == Lexeme(t, p, p + |Keyword(t).value|)
  {
    AtByte(b, p, Keyword(t).value, 0);
    assert SkipEnd(b, p) == p;
  }

  lemma PunctuationAt(b: Str, p: nat, t: Token)
    requires Terminated(b) && Punctuation(t).Some? && At(b, p, [Punctuation(t).value])
    ensures NextToken(b, p) == Lexeme(t, p, p + 1)
  {
    AtByte(b, p, [Punctuation(t).value], 0);
    assert SkipEnd(b, p) == p;
  }

  /** A printed value is not preceded by a comma or a closing bracket. */
  predicate StartsValue(c: Lexeme) {
    c.token !in {ValueSeparator, EndArray, EndObject}
  }

  /** The byte after a printed value does not continue it. */
  predicate Ends(b: Str, q: nat) {
    q < |b| && EndsNumber(b[q])
  }

  lemma ClosingToken(b: Str, q: nat, style: Style, indent: nat, t: Token)
    requires Terminated(b) && t in {EndArray, EndObject} && At(b, q, Closing(style, indent, Punctuation(t).value))
    ensures Ends(b, q)
    ensures var r := q + |Closing(style, indent, Punctuation(t).value)|;
      NextToken(b, q) == Lexeme(t, r - 1, r)
  {
    var bracket := Punctuation(t).value;
    var w := LineBreak(style) + Spaces(Shallower(style, Deeper(style, indent)));
    AtSplit(b, q, w, [bracket]);
    PunctuationAt(b, q + |w|, t);
    SkipBlank(b, q, w);
    AtByte(b, q, Closing(style, indent, bracket), 0);
  }

  /**
   Wherever the text of a printable value stands, followed by a byte that does not continue it, the
   parser reads exactly that text and gives the value back.
   */
  lemma {:induction false} DumpParses(b: Str, p: nat, v: Json, style: Style, indent: nat)
    requires Terminated(b) && Printable(v)
    requires At(b, p, Dump(v, style, indent)) && Ends(b, p + |Dump(v, style, indent)|)
    ensures StartsValue(NextToken(b, p))
    ensures ParseValue(b, NextToken(b, p)) == Ok((Parsed(v), NextToken(b, p + |Dump(v, style, indent)|)))
    decreases v, 0
  {
    hide NextToken, TokenAt, NumberEnd, NumberOf, StringOf, DumpElements, DumpMembers, ParseElements, ParseMembers,
         PrintInt, Quoted, Closing, Opening;
    match v {
      case Null => KeywordToken(b, p, LiteralNull);
      case Boolean(t) => KeywordToken(b, p, if t then LiteralTrue else LiteralFalse);
      case IntegerNumber(i) => PrintedNumber(b, p, i);
      case UnsignedNumber(u) => PrintedNumber(b, p, u);
      case String(s) => QuotedToken(b, p, s);
      case Array(a) =>
        if a == [] {
          EmptyBrackets(b, p, BeginArray, EndArray);
        } else {
          ArrayParses(b, p, a, style, indent);
        }
      case Object(ms) =>
        if ms == [] {
          EmptyBrackets(b, p, BeginObject, EndObject);
        } else {
          ObjectParses(b, p, ms, style, indent);
        }
    }
  }

  lemma {:induction false} ArrayParses(b: Str, p: nat, a: seq<Json>, style: Style, indent: nat)
    requires Terminated(b) && a != [] && forall k :: 0 <= k < |a| ==> Printable(a[k])
    requires At(b, p, Dump(Array(a), style, indent)) && Ends(b, p + |Dump(Array(a), style, indent)|)
    ensures NextToken(b, p).token == BeginArray
    ensures ParseValue(b, NextToken(b, p))
      == Ok((Array(ParsedAll(a)), NextToken(b, p + |Dump(Array(a), style, indent)|)))
    decreases a, 2
  {
    hide NextToken, TokenAt, DumpElements, ParseElements, Closing, Opening, ParsedAll, Deeper, StringOf, NumberOf,
         Ends, Printable, Punctuation;
    BracketBytes();
    var inner := Deeper(style, indent);
    SplitBrackets(b, p, Opening(style, 0x5B), DumpElements(a, style, inner, true), Closing(style, indent, 0x5D));
    OpeningToken(b, p, style, BeginArray);
    var x := p + |Opening(style, 0x5B)|;
    var q := x + |DumpElements(a, style, inner, true)|;
    ClosingToken(b, q, style, indent, EndArray);
    ElementsParse(b, x, q, a, style, inner, true, []);
    assert [] + ParsedAll(a) == ParsedAll(a);
  }

  lemma {:induction false} ObjectParses(b: Str, p: nat, ms: seq<Member>, style: Style, indent: nat)
    requires Terminated(b) && ms != [] && Sorted(ms) && forall k :: 0 <= k < |ms| ==> Printable(ms[k].value)
    requires At(b, p, Dump(Object(ms), style, indent)) && Ends(b, p + |Dump(Object(ms), style, indent)|)
    ensures NextToken(b, p).token == BeginObject
    ensures ParseValue(b, NextToken(b, p))
      == Ok((Object(ParsedMembers(ms)), NextToken(b, p + |Dump(Object(ms), style, indent)|)))
    decreases ms, 2
  {
    hide NextToken, TokenAt, DumpMembers, ParseMembers, Closing, Opening, Deeper, StringOf, NumberOf,
         ParsedMembers, Sorted, Ends, Printable, Punctuation;
    BracketBytes();
    var inner := Deeper(style, indent);
    SplitBrackets(b, p, Opening(style, 0x7B), DumpMembers(ms, style, inner, true), Closing(style, indent, 0x7D));
    OpeningToken(b, p, style, BeginObject);
    var x := p + |Opening(style, 0x7B)|;
    var q := x + |DumpMembers(ms, style, inner, true)|;
    ClosingToken(b, q, style, indent, EndObject);
    assert [] + ms == ms;
    NoMembers();
    MembersParse(b, x, q, ms, style, inner, true, []);
  }

  lemma BracketBytes()
    ensures Punctuation(BeginObject) == Some(0x7B as byte) && Punctuation(EndObject) == Some(0x7D as byte)
    ensures Punctuation(BeginArray) == Some(0x5B as byte) && Punctuation(EndArray) == Some(0x5D as byte)
  {
  }

  lemma NoMembers()
    ensures ParsedMembers([]) == []
  {
  }

  lemma EmptyBrackets(b: Str, p: nat, open: Token, close: Token)
    requires Terminated(b) && open in {BeginArray, BeginObject} && close in {EndArray, EndObject}
    requires At(b, p, [Punctuation(open).value, Punctuation(close).value])
    ensures NextToken(b, p) == Lexeme(open, p, p + 1)
    ensures NextToken(b, p + 1) == Lexeme(close, p + 1, p + 2)
  {
    AtSplit(b, p, [Punctuation(open).value], [Punctuation(close).value]);
    PunctuationAt(b, p, open);
    PunctuationAt(b, p + 1, close);
  }

  lemma SplitBrackets(b: Str, p: nat, opening: Str, body: Str, closing: Str)
    requires At(b, p, opening + (body + closing))
    ensures At(b, p, opening) && At(b, p + |opening|, body) && At(b, p + |opening| + |body|, closing)
  {
    AtSplit(b, p, opening, body + closing);
    AtSplit(b, p + |opening|, body, closing);
  }

  /** The token after an opening bracket. */
  lemma OpeningToken(b: Str, p: nat, style: Style, open: Token)
    requires Terminated(b) && open in {BeginArray, BeginObject}
    requires At(b, p, Opening(style, Punctuation(open).value)) && p + |Opening(style, Punctuation(open).value)| < |b|
    ensures NextToken(b, p) == Lexeme(open, p, p + 1)
    ensures NextToken(b, p + 1) == NextToken(b, p + |Opening(style, Punctuation(open).value)|)
  {
    hide NextToken;
    AtSplit(b, p, [Punctuation(open).value], LineBreak(style));
    PunctuationAt(b, p, open);
    SkipBlank(b, p + 1, LineBreak(style));
  }

  /** The separator and indentation before the element or key that starts at `x`. */
  lemma LeadToken(b: Str, p: nat, x: nat, style: Style, indent: nat, first: bool)
    requires Terminated(b) && At(b, p, Lead(style, indent, first))
    requires x == p + |Lead(style, indent, first)| < |b|
    ensures if first then NextToken(b, p) == NextToken(b, x)
      else NextToken(b, p) == Lexeme(ValueSeparator, p, p + 1) && NextToken(b, p + 1) == NextToken(b, x)
  {
    hide NextToken, TokenAt;
    if first {
      assert Lead(style, indent, first) == Spaces(indent);
      SkipBlank(b, p, Spaces(indent));
    } else {
      var w := LineBreak(style) + Spaces(indent);
      assert Lead(style, indent, first) == [COMMA] + w;
      AtSplit(b, p, [COMMA], w);
      PunctuationAt(b, p, ValueSeparator);
      SkipBlank(b, p + 1, w);
    }
  }

  /** A later element or key starts with its comma, which ends whatever stands before. */
  lemma LeadEnds(b: Str, q: nat, style: Style, indent: nat)
    requires At(b, q, Lead(style, indent, false))
    ensures Ends(b, q)
  {
    AtByte(b, q, Lead(style, indent, false), 0);
  }

  lemma SplitElements(b: Str, p: nat, a: seq<Json>, style: Style, indent: nat, first: bool) returns (v: nat, q: nat)
    requires a != [] && At(b, p, DumpElements(a, style, indent, first))
    ensures At(b, p, Lead(style, indent, first)) && v == p + |Lead(style, indent, first)| <= |b|
    ensures At(b, v, Dump(a[0], style, indent)) && q == v + |Dump(a[0], style, indent)| <= |b|
    ensures At(b, q, DumpElements(a[1..], style, indent, false))
    ensures p + |DumpElements(a, style, indent, first)| == q + |DumpElements(a[1..], style, indent, false)|
    ensures a[1..] == [] ==> q == p + |DumpElements(a, style, indent, first)|
  {
    hide Dump, Lead;
    var lead, value, rest := Lead(style, indent, first), Dump(a[0], style, indent), DumpElements(a[1..], style,
      indent, false);
    AtSplit(b, p, lead, value + rest);
    AtSplit(b, p + |lead|, value, rest);
    v, q := p + |lead|, p + |lead| + |value|;
  }

  /** One turn of the loop over elements. */
  lemma ElementStep(b: Str, cur: Lexeme, start: Lexeme, acc: seq<Json>, value: Json, next: Lexeme)
    requires IsLexeme(b, cur) && start == (if cur.token == ValueSeparator then After(b, cur) else cur)
    requires ParseValue(b, start) == Ok((value, next))
    ensures IsLexeme(b, next)
    ensures next.token == ValueSeparator ==> ParseElements(b, cur, acc) == ParseElements(b, next, acc + [value])
    ensures next.token == EndArray ==> ParseElements(b, cur, acc) == Ok((Array(acc + [value]), After(b, next)))
  {
    hide ParseValue, TokenAt, NextToken;
  }

  /** The elements from position `p` on, up to the closing bracket's text at `q`. */
  lemma {:induction false} ElementsParse(b: Str, p: nat, q: nat, a: seq<Json>, style: Style, indent: nat,
        first: bool, acc: seq<Json>)
    requires Terminated(b) && a != [] && forall k :: 0 <= k < |a| ==> Printable(a[k])
    requires At(b, p, DumpElements(a, style, indent, first)) && q == p + |DumpElements(a, style, indent, first)|
    requires Ends(b, q) && NextToken(b, q).token == EndArray
    ensures p < |b| && NextToken(b, p).token != EndArray
    ensures NextToken(b, p).token == ValueSeparator <==> !first
    ensures ParseElements(b, NextToken(b, p), acc) == Ok((Array(acc + ParsedAll(a)), NextToken(b, NextToken(b, q).end)))
    decreases a, 1
  {
    hide Dump, NextToken, ParseValue, Lead, TokenAt, DumpElements, ParseElements;
    var v, m := SplitElements(b, p, a, style, indent, first);
    if a[1..] == [] {
      assert m == q;
    } else {
      var v', m' := SplitElements(b, m, a[1..], style, indent, false);
      LeadEnds(b, m, style, indent);
    }
    DumpParses(b, v, a[0], style, indent);
    LeadToken(b, p, v, style, indent, first);
    ElementStep(b, NextToken(b, p), NextToken(b, v), acc, Parsed(a[0]), NextToken(b, m));
    if a[1..] == [] {
      assert acc + [Parsed(a[0])] == acc + ParsedAll(a);
    } else {
      ElementsParse(b, m, q, a[1..], style, indent, false, acc + [Parsed(a[0])]);
      assert acc + [Parsed(a[0])] + ParsedAll(a[1..]) == acc + ParsedAll(a);
    }
  }

  lemma SplitMembers(b: Str, p: nat, ms: seq<Member>, style: Style, indent: nat, first: bool) returns (v: nat, q: nat)
    requires ms != [] && At(b, p, DumpMembers(ms, style, indent, first))
    ensures var lead := KeyText(style, indent, first, ms[0].key); At(b, p, lead) && v == p + |lead| <= |b|
    ensures At(b, v, Dump(ms[0].value, style, indent)) && q == v + |Dump(ms[0].value, style, indent)| <= |b|
    ensures At(b, q, DumpMembers(ms[1..], style, indent, false))
    ensures p + |DumpMembers(ms, style, indent, first)| == q + |DumpMembers(ms[1..], style, indent, false)|
    ensures ms[1..] == [] ==> q == p + |DumpMembers(ms, style, indent, first)|
  {
    hide Dump, KeyText;
    var lead, value, rest := KeyText(style, indent, first, ms[0].key), Dump(ms[0].value, style, indent),
      DumpMembers(ms[1..], style, indent, false);
    AtSplit(b, p, lead, value + rest);
    AtSplit(b, p + |lead|, value, rest);
    v, q := p + |lead|, p + |lead| + |value|;
  }

  lemma SplitKey(b: Str, p: nat, style: Style, indent: nat, first: bool, key: Str) returns (x: nat, q: nat)
    requires At(b, p, KeyText(style, indent, first, key))
    ensures At(b, p, Lead(style, indent, first)) && x == p + |Lead(style, indent, first)|
    ensures At(b, x, Quoted(key)) && q == x + |Quoted(key)|
    ensures At(b, q, [COLON]) && At(b, q + 1, Gap(style))
    ensures p + |KeyText(style, indent, first, key)| == q + 1 + |Gap(style)|
  {
    hide Lead, Quoted, Gap;
    var lead := Lead(style, indent, first);
    AtSplit(b, p, lead, Quoted(key) + ([COLON] + Gap(style)));
    AtSplit(b, p + |lead|, Quoted(key), [COLON] + Gap(style));
    AtSplit(b, p + |lead| + |Quoted(key)|, [COLON], Gap(style));
    x, q := p + |lead|, p + |lead| + |Quoted(key)|;
  }

  /** The key of a member and its colon, up to the start of the value at `v`. */
  lemma KeyParses(b: Str, p: nat, v: nat, style: Style, indent: nat, first: bool, key: Str)
    requires Terminated(b) && At(b, p, KeyText(style, indent, first, key))
    requires v == p + |KeyText(style, indent, first, key)| < |b|
    ensures p < |b| && NextToken(b, p).token != EndObject
    ensures NextToken(b, p).token == ValueSeparator <==> !first
    ensures ParseKey(b, NextToken(b, p)) == Ok((key, NextToken(b, v)))
  {
    hide NextToken, TokenAt, Quoted, Lead, StringOf, KeyText;
    var x, q := SplitKey(b, p, style, indent, first, key);
    LeadToken(b, p, x, style, indent, first);
    QuotedToken(b, x, key);
    PunctuationAt(b, q, NameSeparator);
    SkipBlank(b, q + 1, Gap(style));
  }

  /** One turn of the loop over members. */
  lemma MemberStep(b: Str, cur: Lexeme, start: Lexeme, acc: seq<Member>, key: Str, value: Json, next: Lexeme)
    requires IsLexeme(b, cur) && ParseKey(b, cur) == Ok((key, start))
    requires IsLexeme(b, start) && ParseValue(b, start) == Ok((value, next))
    ensures IsLexeme(b, next)
    ensures next.token == ValueSeparator ==> ParseMembers(b, cur, acc) == ParseMembers(b, next, Put(acc, key, value))
    ensures next.token == EndObject ==> ParseMembers(b, cur, acc) == Ok((Object(Put(acc, key, value)), After(b, next)))
  {
    hide ParseValue, ParseKey, TokenAt, NextToken, Put;
  }

  /** The members from position `p` on, up to the closing bracket's text at `q`. */
  lemma {:induction false} MembersParse(b: Str, p: nat, q: nat, ms: seq<Member>, style: Style, indent: nat,
        first: bool, acc: seq<Member>)
    requires Terminated(b) && ms != [] && forall k :: 0 <= k < |ms| ==> Printable(ms[k].value)
    requires Sorted(acc + ms)
    requires At(b, p, DumpMembers(ms, style, indent, first)) && q == p + |DumpMembers(ms, style, indent, first)|
    requires Ends(b, q) && NextToken(b, q).token == EndObject
    ensures p < |b| && NextToken(b, p).token != EndObject
    ensures NextToken(b, p).token == ValueSeparator <==> !first
    ensures ParseMembers(b, NextToken(b, p), ParsedMembers(acc))
      == Ok((Object(ParsedMembers(acc + ms)), NextToken(b, NextToken(b, q).end)))
    decreases ms, 1
  {
    hide Dump, NextToken, ParseValue, KeyText, ParseKey, TokenAt, DumpMembers, ParseMembers, Put, ParsedMembers;
    var v, m := SplitMembers(b, p, ms, style, indent, first);
    if ms[1..] == [] {
      assert m == q;
    } else {
      var v', m' := SplitMembers(b, m, ms[1..], style, indent, false);
      var x, y := SplitKey(b, m, style, indent, false, ms[1..][0].key);
      LeadEnds(b, m, style, indent);
    }
    DumpParses(b, v, ms[0].value, style, indent);
    KeyParses(b, p, v, style, indent, first, ms[0].key);
    MemberStep(b, NextToken(b, p), NextToken(b, v), ParsedMembers(acc), ms[0].key, Parsed(ms[0].value),
      NextToken(b, m));
    AppendMember(acc, ms);
    if ms[1..] == [] {
      assert acc + [ms[0]] == acc + ms;
    } else {
      assert acc + [ms[0]] + ms[1..] == acc + ms;
      MembersParse(b, m, q, ms[1..], style, indent, false, acc + [ms[0]]);
    }
  }

  lemma AppendMember(acc: seq<Member>, ms: seq<Member>)
    requires ms != [] && Sorted(acc + ms)
    ensures Put(ParsedMembers(acc), ms[0].key, Parsed(ms[0].value)) == ParsedMembers(acc + [ms[0]])
  {
    var all := acc + ms;
    forall i | 0 <= i < |acc| ensures Less(acc[i].key, ms[0].key) {
      assert all[i] == acc[i] && all[|acc|] == ms[0];
    }
    PutLast(ParsedMembers(acc), ms[0].key, Parsed(ms[0].value));
    assert ParsedMembers(acc) + [Member(ms[0].key, Parsed(ms[0].value))] == ParsedMembers(acc + [ms[0]]);
  }

  /**
   Print then parse is the identity under operator==, for every float-free value and every indent;
   the value read back is the printed one with its non-negative integers unsigned.
   */
  lemma PrintThenParse(v: Json, indent: int)
    requires Printable(v)
    ensures ParseText(Dump(v, StyleOf(indent), 0)) == Ok(Parsed(v))
    ensures Equal(Parsed(v), v)
  {
    var text := Dump(v, StyleOf(indent), 0);
    var b := text + [0];
    assert b[0..|text|] == text;
    DumpParses(b, 0, v, StyleOf(indent), 0);
    ParsedEqual(v);
    assert TokenAt(b, |text|).token == EndOfInput && SkipEnd(b, |text|) == |text|;
  }

  /** The literals, a negative number and the empty containers, byte by byte. */
  lemma KnownTexts()
    ensures ParseText([0x74, 0x72, 0x75, 0x65]) == Ok(Boolean(true))
    ensures ParseText([0x66, 0x61, 0x6C, 0x73, 0x65]) == Ok(Boolean(false))
    ensures ParseText([0x6E, 0x75, 0x6C, 0x6C]) == Ok(Null)
    ensures ParseText([0x2D, 0x37]) == Ok(IntegerNumber(-7))
    ensures ParseText([0x5B, 0x5D]) == Ok(Array([])) && ParseText([0x7B, 0x7D]) == Ok(Object([]))
  {
    hide ParseText;
    assert PrintInt(-7) == [0x2D, 0x37];
    PrintThenParse(Boolean(true), -1);
    PrintThenParse(Boolean(false), -1);
    PrintThenParse(Null, -1);
    PrintThenParse(IntegerNumber(-7), -1);
    PrintThenParse(Array([]), -1);
    PrintThenParse(Object([]), -1);
  }

  /** The whole trip through the imperative code. */
  method PrintAndParse(v: Json, indent: int) returns (r: Result<Json, JsonError>)
    requires Printable(v)
    ensures r == Ok(Parsed(v)) && Equal(r.value, v)
  {
    var text := DumpText(v, indent);
    var parser := new Parser(text);
    assert (text + [0])[..|text|] == text;
    r := parser.Parse();
    PrintThenParse(v, indent);
  }
}
