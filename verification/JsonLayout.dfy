/**
 The layout of printed text, told by the text alone: where its blanks stand and how many, by a scan that
 knows only strings, brackets, commas and colons.
 */
module JsonLayout {
  import opened Bytes
  import opened JsonStrings
  import opened JsonScanner
  import opened JsonNumbers
  import opened JsonValues
  import opened JsonPrinter

  datatype Mode = Outside | Inside | Escaped

  /** Where a scan of the text is: the number of open brackets, in or out of a string, the byte before. */
  datatype Place = Place(depth: nat, mode: Mode, last: byte)

  const START := Place(0, Outside, 0)

  predicate IsOpening(c: byte) {
    c == 0x5B || c == 0x7B
  }

  predicate IsClosing(c: byte) {
    c == 0x5D || c == 0x7D
  }

  predicate IsBlank(c: byte) {
    c in {0x20, 0x09, 0x0A, 0x0D}
  }

  function Next(p: Place, c: byte): Place {
    match p.mode
    case Escaped => p.(mode := Inside, last := c)
    case Inside => p.(mode := if c == 0x5C then Escaped else if c == 0x22 then Outside else Inside, last := c)
    case Outside =>
      if c == 0x22 then p.(mode := Inside, last := c)
      else if IsOpening(c) then Place(p.depth + 1, Outside, c)
      else if IsClosing(c) then Place(if p.depth > 0 then p.depth - 1 else 0, Outside, c)
      else p.(last := c)
  }

  function Along(p: Place, t: Str): Place
    decreases t
  {
    if t == [] then p else Along(Next(p, t[0]), t[1..])
  }

  /** No blank stands outside a string. */
  predicate Tight(t: Str, p: Place)
    decreases t
  {
    t == [] || (!(p.mode.Outside? && IsBlank(t[0])) && Tight(t[1..], Next(p, t[0])))
  }

  /** A new line that starts with as many spaces as the open brackets ask for, counted by an unsigned int. */
  function NewLine(depth: nat, indent: nat): Str {
    [0x0A] + seq(depth * indent % TWO_TO_32, _ => 0x20)
  }

  /**
   The blanks that belong before a byte: a new line behind an opening bracket and a comma, and before a
   closing bracket, but none between the two brackets of an empty container; a space behind a colon.
   */
  function Before(p: Place, c: byte, indent: nat): Str {
    if !p.mode.Outside? || (IsOpening(p.last) && IsClosing(c)) then []
    else if IsClosing(c) then NewLine(if p.depth > 0 then p.depth - 1 else 0, indent)
    else if IsOpening(p.last) || p.last == 0x2C then NewLine(p.depth, indent)
    else if p.last == 0x3A then [0x20]
    else []
  }

  /** A tight text with the blanks of a pretty print put in. */
  function Respaced(t: Str, p: Place, indent: nat): Str
    decreases t
  {
    if t == [] then [] else Before(p, t[0], indent) + [t[0]] + Respaced(t[1..], Next(p, t[0]), indent)
  }

  lemma {:induction false} AlongConcat(p: Place, s: Str, t: Str)
    ensures Along(p, s + t) == Along(Along(p, s), t)
    decreases s
  {
    if s == [] {
      assert s + t == t;
    } else {
      assert (s + t)[1..] == s[1..] + t;
      AlongConcat(Next(p, s[0]), s[1..], t);
    }
  }

  lemma {:induction false} TightConcat(s: Str, t: Str, p: Place)
    ensures Tight(s + t, p) <==> Tight(s, p) && Tight(t, Along(p, s))
    decreases s
  {
    if s == [] {
      assert s + t == t;
    } else {
      assert (s + t)[1..] == s[1..] + t;
      TightConcat(s[1..], t, Next(p, s[0]));
    }
  }

  lemma {:induction false} RespacedConcat(s: Str, t: Str, p: Place, indent: nat)
    ensures Respaced(s + t, p, indent) == Respaced(s, p, indent) + Respaced(t, Along(p, s), indent)
    decreases s
  {
    if s == [] {
      assert s + t == t;
    } else {
      assert (s + t)[1..] == s[1..] + t;
      RespacedConcat(s[1..], t, Next(p, s[0]), indent);
    }
  }

  // ---------------------------------------------------------------- texts that are laid out

  /** From `p` to `q` the text `c` is tight, and with the blanks put in it is `t`. */
  predicate Laid(c: Str, t: Str, p: Place, q: Place, indent: nat) {
    Tight(c, p) && Along(p, c) == q && Respaced(c, p, indent) == t
  }

  lemma LaidConcat(c: Str, t: Str, c': Str, t': Str, p: Place, q: Place, r: Place, indent: nat)
    requires Laid(c, t, p, q, indent) && Laid(c', t', q, r, indent)
    ensures Laid(c + c', t + t', p, r, indent)
  {
    AlongConcat(p, c, c');
    TightConcat(c, c', p);
    RespacedConcat(c, c', p, indent);
  }

  lemma LaidByte(c: byte, p: Place, indent: nat)
    requires !(p.mode.Outside? && IsBlank(c))
    ensures Laid([c], Before(p, c, indent) + [c], p, Next(p, c), indent)
  {
    assert [c][1..] == [];
    assert Respaced([c], p, indent) == Before(p, c, indent) + [c] + [];
  }

  /** A byte of a number or a literal. */
  predicate IsWordByte(c: byte) {
    !IsBlank(c) && !IsOpening(c) && !IsClosing(c) && c !in {0x22, 0x2C, 0x3A}
  }

  /** What stands behind a value never asks for a blank. */
  predicate IsDone(p: Place, depth: nat) {
    p.depth == depth && p.mode.Outside? && !IsOpening(p.last) && p.last != 0x2C && p.last != 0x3A
  }

  lemma {:induction false} LaidWord(w: Str, p: Place, indent: nat) returns (q: Place)
    requires w != [] && p.mode.Outside? && forall k :: 0 <= k < |w| ==> IsWordByte(w[k])
    ensures Laid(w, Before(p, w[0], indent) + w, p, q, indent) && IsDone(q, p.depth)
    decreases w
  {
    q := Next(p, w[0]);
    LaidByte(w[0], p, indent);
    var rest := w[1..];
    assert w == [w[0]] + rest;
    if rest == [] {
      assert w == [w[0]];
    } else {
      var r := LaidWord(rest, q, indent);
      assert Before(q, rest[0], indent) == [];
      LaidConcat([w[0]], Before(p, w[0], indent) + [w[0]], rest, [] + rest, p, q, r, indent);
      assert Before(p, w[0], indent) + [w[0]] + ([] + rest) == Before(p, w[0], indent) + w;
      q := r;
    }
  }

  /** The bytes of one escape keep the scan inside the string. */
  lemma LaidEscapeByte(c: byte, p: Place, indent: nat) returns (q: Place)
    requires p.mode.Inside?
    ensures Laid(EscapeByte(c), EscapeByte(c), p, q, indent) && q.mode.Inside? && q.depth == p.depth
  {
    var e := EscapeByte(c);
    if |e| == 1 {
      q := Next(p, c);
      LaidByte(c, p, indent);
    } else {
      var p1 := Next(p, 0x5C);
      LaidByte(0x5C, p, indent);
      q := Next(p1, e[1]);
      LaidByte(e[1], p1, indent);
      LaidConcat([0x5C], [0x5C], [e[1]], [e[1]], p, p1, q, indent);
      assert e[..2] == [0x5C] + [e[1]];
      if |e| > 2 {
        q := LaidInside(e[2..], q, indent);
        LaidConcat(e[..2], e[..2], e[2..], e[2..], p, Next(p1, e[1]), q, indent);
        assert e == e[..2] + e[2..];
      } else {
        assert e == e[..2];
      }
    }
  }

  lemma {:induction false} LaidInside(w: Str, p: Place, indent: nat) returns (q: Place)
    requires p.mode.Inside? && forall k :: 0 <= k < |w| ==> w[k] != 0x22 && w[k] != 0x5C
    ensures Laid(w, w, p, q, indent) && q.mode.Inside? && q.depth == p.depth
    decreases w
  {
    q := p;
    if w != [] {
      LaidByte(w[0], p, indent);
      q := LaidInside(w[1..], Next(p, w[0]), indent);
      LaidConcat([w[0]], [w[0]], w[1..], w[1..], p, Next(p, w[0]), q, indent);
      assert w == [w[0]] + w[1..];
    }
  }

  lemma {:induction false} LaidEscape(s: Str, p: Place, indent: nat) returns (q: Place)
    requires p.mode.Inside?
    ensures Laid(Escape(s), Escape(s), p, q, indent) && q.mode.Inside? && q.depth == p.depth
    decreases s
  {
    hide EscapeByte, Laid;
    if s == [] {
      q := LaidInside([], p, indent);
    } else {
      var r := LaidEscapeByte(s[0], p, indent);
      q := LaidEscape(s[1..], r, indent);
      LaidConcat(EscapeByte(s[0]), EscapeByte(s[0]), Escape(s[1..]), Escape(s[1..]), p, r, q, indent);
    }
  }

  lemma LaidQuoted(s: Str, p: Place, indent: nat) returns (q: Place)
    requires p.mode.Outside?
    ensures Laid(Quoted(s), Before(p, 0x22, indent) + Quoted(s), p, q, indent) && IsDone(q, p.depth)
  {
    hide Escape, Laid, Before;
    var inside := Next(p, 0x22);
    LaidByte(0x22, p, indent);
    var r := LaidEscape(s, inside, indent);
    LaidConcat([0x22], Before(p, 0x22, indent) + [0x22], Escape(s), Escape(s), p, inside, r, indent);
    q := Next(r, 0x22);
    LaidByte(0x22, r, indent);
    InsideString(r, 0x22, indent);
    LaidConcat([0x22] + Escape(s), Before(p, 0x22, indent) + [0x22] + Escape(s), [0x22], [] + [0x22], p, r, q, indent);
    assert Before(p, 0x22, indent) + [0x22] + Escape(s) + ([] + [0x22]) == Before(p, 0x22, indent) + Quoted(s);
  }

  lemma InsideString(p: Place, c: byte, indent: nat)
    requires !p.mode.Outside?
    ensures Before(p, c, indent) == []
  {
  }

  // ---------------------------------------------------------------- the printed values

  /** The text of every floating-point number is a word: snprintf writes no blank and no punctuation. */
  predicate Spelt(v: Json)
    decreases v
  {
    match v
    case FloatNumber(text) => text != [] && forall k :: 0 <= k < |text| ==> IsWordByte(text[k])
    case Array(a) => forall k :: 0 <= k < |a| ==> Spelt(a[k])
    case Object(ms) => forall k :: 0 <= k < |ms| ==> Spelt(ms[k].value)
    case _ => true
  }

  const COMPACT := Style(false, 0)

  function Pretty(indent: nat): Style {
    Style(true, indent % TWO_TO_32)
  }

  function Column(depth: nat, indent: nat): nat {
    depth * indent % TWO_TO_32
  }

  lemma AddModulo(x: nat, y: nat)
    ensures (x % TWO_TO_32 + y % TWO_TO_32) % TWO_TO_32 == (x + y) % TWO_TO_32
  {
  }

  /** The column moves by the indent, there and back, as an unsigned int does. */
  lemma Columns(depth: nat, indent: nat)
    ensures Deeper(Pretty(indent), Column(depth, indent)) == Column(depth + 1, indent)
    ensures Shallower(Pretty(indent), Column(depth + 1, indent)) == Column(depth, indent)
  {
    var (x, y) := (depth * indent, indent);
    assert (depth + 1) * indent == x + y;
    AddModulo(x, y);
    Backwards(x % TWO_TO_32, y % TWO_TO_32);
  }

  lemma Backwards(x: nat, y: nat)
    requires x < TWO_TO_32 && y < TWO_TO_32
    ensures ((x + y) % TWO_TO_32 - y) % TWO_TO_32 == x
  {
  }

  /** The blanks before a value. */
  function Gap(p: Place, indent: nat): Str {
    Before(p, 0x22, indent)
  }

  lemma BeforeValue(p: Place, c: byte, indent: nat)
    requires !IsClosing(c)
    ensures Before(p, c, indent) == Gap(p, indent)
  {
  }

  lemma {:induction false} DigitsAreWord(n: nat)
    ensures Decimal(n) != [] && forall k :: 0 <= k < |Decimal(n)| ==> IsWordByte(Decimal(n)[k])
  {
    forall k | 0 <= k < |Decimal(n)| ensures IsWordByte(Decimal(n)[k]) {
      assert IsDigit(Decimal(n)[k]);
    }
  }

  lemma NumberIsWord(i: int)
    ensures PrintInt(i) != [] && forall k :: 0 <= k < |PrintInt(i)| ==> IsWordByte(PrintInt(i)[k])
  {
    hide Decimal;
    DigitsAreWord(if i < 0 then -i else i);
  }

  /** A value that stands alone is laid out from its two texts. */
  predicate LaidValue(v: Json, p: Place, q: Place, indent: nat) {
    && Laid(Dump(v, COMPACT, 0), Gap(p, indent) + Dump(v, Pretty(indent), Column(p.depth, indent)), p, q, indent)
    && IsDone(q, p.depth)
  }

  lemma WordIsLaid(w: Str, p: Place, indent: nat) returns (q: Place)
    requires w != [] && p.mode.Outside? && forall k :: 0 <= k < |w| ==> IsWordByte(w[k])
    ensures Laid(w, Gap(p, indent) + w, p, q, indent) && IsDone(q, p.depth)
  {
    BeforeValue(p, w[0], indent);
    q := LaidWord(w, p, indent);
  }

  /** `[]` and `{}` */
  lemma EmptyIsLaid(open: byte, close: byte, p: Place, indent: nat) returns (q: Place)
    requires p.mode.Outside? && IsOpening(open) && IsClosing(close)
    ensures Laid([open, close], Gap(p, indent) + [open, close], p, q, indent) && IsDone(q, p.depth)
  {
    var r := Next(p, open);
    BeforeValue(p, open, indent);
    LaidByte(open, p, indent);
    LaidByte(close, r, indent);
    q := Next(r, close);
    LaidConcat([open], Gap(p, indent) + [open], [close], [] + [close], p, r, q, indent);
    assert [open] + [close] == [open, close];
    assert Gap(p, indent) + [open] + ([] + [close]) == Gap(p, indent) + [open, close];
  }

  /** What is inside the brackets of a container that is not empty. */
  predicate LaidInner(c: Str, t: Str, p: Place, q: Place, indent: nat) {
    Laid(c, [0x0A] + t, p, q, indent) && IsDone(q, p.depth)
  }

  lemma BracketsAreLaid(open: byte, close: byte, c: Str, t: Str, p: Place, r: Place, indent: nat) returns (q: Place)
    requires p.mode.Outside? && IsOpening(open) && IsClosing(close)
    requires LaidInner(c, t, Next(p, open), r, indent)
    ensures Laid(Opening(COMPACT, open) + (c + Closing(COMPACT, 0, close)),
                 Gap(p, indent)
                   + (Opening(Pretty(indent), open) + (t + Closing(Pretty(indent), Column(p.depth, indent), close))),
                 p, q, indent)
    ensures IsDone(q, p.depth)
  {
    hide Laid, Spaces;
    var column := Column(p.depth, indent);
    BeforeValue(p, open, indent);
    LaidByte(open, p, indent);
    LaidConcat([open], Gap(p, indent) + [open], c, [0x0A] + t, p, Next(p, open), r, indent);
    LaidByte(close, r, indent);
    q := Next(r, close);
    LaidConcat([open] + c, Gap(p, indent) + [open] + ([0x0A] + t), [close], NewLine(p.depth, indent) + [close],
      p, r, q, indent);
    Columns(p.depth, indent);
    NewLineSpaces(p.depth, indent);
    assert Closing(Pretty(indent), column, close) == NewLine(p.depth, indent) + [close];
    assert Closing(COMPACT, 0, close) == [close];
    assert [open] + c + [close] == Opening(COMPACT, open) + (c + Closing(COMPACT, 0, close));
    Rejoin(Gap(p, indent), open, t, NewLine(p.depth, indent) + [close]);
  }

  lemma NewLineSpaces(depth: nat, indent: nat)
    ensures NewLine(depth, indent) == [0x0A] + Spaces(Column(depth, indent))
  {
    assert seq(depth * indent % TWO_TO_32, _ => 0x20) == Spaces(Column(depth, indent));
  }

  lemma Rejoin(gap: Str, open: byte, t: Str, closing: Str)
    ensures gap + [open] + ([0x0A] + t) + closing == gap + ([open] + [0x0A] + (t + closing))
  {
  }

  /** What stands before an element or a key, up to the new line's spaces. */
  lemma LeadIsLaid(first: bool, p: Place, indent: nat) returns (q: Place)
    requires p.mode.Outside? && if first then IsOpening(p.last) else IsDone(p, p.depth)
    ensures Laid(Lead(COMPACT, 0, first), if first then [] else [COMMA], p, q, indent)
    ensures q.mode.Outside? && q.depth == p.depth && Gap(q, indent) == [0x0A] + Spaces(Column(p.depth, indent))
    ensures (if first then [] else [COMMA]) + Gap(q, indent)
         == (if first then [0x0A] else []) + Lead(Pretty(indent), Column(p.depth, indent), first)
  {
    NewLineSpaces(p.depth, indent);
    if first {
      q := p;
      assert Lead(COMPACT, 0, first) == [];
    } else {
      q := Next(p, COMMA);
      LaidByte(COMMA, p, indent);
      assert Lead(COMPACT, 0, first) == [COMMA];
      assert Before(p, COMMA, indent) + [COMMA] == [COMMA];
    }
  }

  lemma {:induction false} ValueIsLaid(v: Json, p: Place, indent: nat) returns (q: Place)
    requires Spelt(v) && p.mode.Outside?
    ensures LaidValue(v, p, q, indent)
    decreases v, 0
  {
    hide Laid, Gap, PrintInt, Opening, Closing, DumpElements, DumpMembers, Column;
    match v {
      case Null => q := WordIsLaid(NULL_TEXT, p, indent);
      case Boolean(b) => q := WordIsLaid(if b then TRUE_TEXT else FALSE_TEXT, p, indent);
      case IntegerNumber(i) =>
        NumberIsWord(i);
        q := WordIsLaid(PrintInt(i), p, indent);
      case UnsignedNumber(u) =>
        NumberIsWord(u);
        q := WordIsLaid(PrintInt(u), p, indent);
      case FloatNumber(text) => q := WordIsLaid(text, p, indent);
      case String(s) =>
        BeforeValue(p, 0x22, indent);
        q := LaidQuoted(s, p, indent);
      case Array(a) =>
        if a == [] {
          q := EmptyIsLaid(0x5B, 0x5D, p, indent);
        } else {
          Columns(p.depth, indent);
          var r := ElementsAreLaid(a, true, Next(p, 0x5B), indent);
          q := BracketsAreLaid(0x5B, 0x5D, DumpElements(a, COMPACT, 0, true),
            DumpElements(a, Pretty(indent), Column(p.depth + 1, indent), true), p, r, indent);
        }
      case Object(ms) =>
        if ms == [] {
          q := EmptyIsLaid(0x7B, 0x7D, p, indent);
        } else {
          Columns(p.depth, indent);
          var r := MembersAreLaid(ms, true, Next(p, 0x7B), indent);
          q := BracketsAreLaid(0x7B, 0x7D, DumpMembers(ms, COMPACT, 0, true),
            DumpMembers(ms, Pretty(indent), Column(p.depth + 1, indent), true), p, r, indent);
        }
    }
  }

  lemma {:induction false} ElementsAreLaid(a: seq<Json>, first: bool, p: Place, indent: nat) returns (q: Place)
    requires a != [] && forall k :: 0 <= k < |a| ==> Spelt(a[k])
    requires p.mode.Outside? && if first then IsOpening(p.last) else IsDone(p, p.depth)
    ensures Laid(DumpElements(a, COMPACT, 0, first),
                 (if first then [0x0A] else [])
                   + DumpElements(a, Pretty(indent), Column(p.depth, indent), first),
                 p, q, indent)
    ensures IsDone(q, p.depth)
    decreases a, 1
  {
    hide Laid, Gap, Dump, Lead, Column, Spelt;
    var (column, nl) := (Column(p.depth, indent), if first then [0x0A] else []);
    var r := LeadIsLaid(first, p, indent);
    var m := ValueIsLaid(a[0], r, indent);
    var (lead, c, t) := (if first then [] else [COMMA], Dump(a[0], COMPACT, 0), Dump(a[0], Pretty(indent), column));
    LaidConcat(Lead(COMPACT, 0, first), lead, c, Gap(r, indent) + t, p, r, m, indent);
    LeadJoins(lead, Gap(r, indent), nl, Lead(Pretty(indent), column, first), t);
    var rest := a[1..];
    q := m;
    if rest == [] {
      LaidNothing(m, indent);
    } else {
      q := ElementsAreLaid(rest, false, m, indent);
    }
    LaidConcat(Lead(COMPACT, 0, first) + c, nl + (Lead(Pretty(indent), column, first) + t),
      DumpElements(rest, COMPACT, 0, false), [] + DumpElements(rest, Pretty(indent), column, false), p, m, q, indent);
    Regroup2(Lead(COMPACT, 0, first), c, DumpElements(rest, COMPACT, 0, false));
    Regroup3(nl, Lead(Pretty(indent), column, first), t, DumpElements(rest, Pretty(indent), column, false));
  }

  lemma LaidNothing(p: Place, indent: nat)
    ensures Laid([], [] + [], p, p, indent)
    ensures DumpElements([], COMPACT, 0, false) == [] && DumpMembers([], COMPACT, 0, false) == []
    ensures forall column: nat :: DumpElements([], Pretty(indent), column, false) == []
    ensures forall column: nat :: DumpMembers([], Pretty(indent), column, false) == []
  {
  }

  lemma LeadJoins(lead: Str, gap: Str, nl: Str, pretty: Str, t: Str)
    requires lead + gap == nl + pretty
    ensures lead + (gap + t) == nl + (pretty + t)
  {
    assert lead + (gap + t) == (lead + gap) + t;
  }

  lemma Regroup2(lead: Str, c: Str, rest: Str)
    ensures lead + c + rest == lead + (c + rest)
  {
  }

  lemma Regroup3(nl: Str, lead: Str, t: Str, rest: Str)
    ensures nl + (lead + t) + ([] + rest) == nl + (lead + (t + rest))
  {
  }

  lemma KeyIsLaid(key: Str, first: bool, p: Place, indent: nat) returns (q: Place)
    requires p.mode.Outside? && if first then IsOpening(p.last) else IsDone(p, p.depth)
    ensures q.mode.Outside? && q.depth == p.depth && Gap(q, indent) == [SPACE]
    ensures var nl := if first then [0x0A] else [];
            Laid(KeyText(COMPACT, 0, first, key),
                 nl + (Lead(Pretty(indent), Column(p.depth, indent), first) + (Quoted(key) + [COLON])), p, q, indent)
  {
    hide Laid, Lead, Quoted;
    var (column, nl) := (Column(p.depth, indent), if first then [0x0A] else []);
    var lead := if first then [] else [COMMA];
    var r := LeadIsLaid(first, p, indent);
    BeforeValue(r, 0x22, indent);
    var m := LaidQuoted(key, r, indent);
    LaidConcat(Lead(COMPACT, 0, first), lead, Quoted(key), Gap(r, indent) + Quoted(key), p, r, m, indent);
    LaidByte(COLON, m, indent);
    q := Next(m, COLON);
    assert Before(m, COLON, indent) + [COLON] == [COLON];
    LaidConcat(Lead(COMPACT, 0, first) + Quoted(key), lead + (Gap(r, indent) + Quoted(key)), [COLON], [COLON],
      p, m, q, indent);
    CompactKey(first, key);
    LeadJoins(lead, Gap(r, indent), nl, Lead(Pretty(indent), column, first), Quoted(key));
    Regroup2(nl, Lead(Pretty(indent), column, first) + Quoted(key), [COLON]);
    Regroup2(Lead(Pretty(indent), column, first), Quoted(key), [COLON]);
  }

  lemma CompactKey(first: bool, key: Str)
    ensures KeyText(COMPACT, 0, first, key) == Lead(COMPACT, 0, first) + Quoted(key) + [COLON]
  {
    hide Lead, Quoted;
  }

  lemma {:induction false} MembersAreLaid(ms: seq<Member>, first: bool, p: Place, indent: nat) returns (q: Place)
    requires ms != [] && forall k :: 0 <= k < |ms| ==> Spelt(ms[k].value)
    requires p.mode.Outside? && if first then IsOpening(p.last) else IsDone(p, p.depth)
    ensures Laid(DumpMembers(ms, COMPACT, 0, first),
                 (if first then [0x0A] else [])
                   + DumpMembers(ms, Pretty(indent), Column(p.depth, indent), first),
                 p, q, indent)
    ensures IsDone(q, p.depth)
    decreases ms, 1
  {
    hide Laid, Gap, Dump, Lead, Column, Spelt, KeyText, Quoted;
    var (column, nl) := (Column(p.depth, indent), if first then [0x0A] else []);
    var key := ms[0].key;
    var r := KeyIsLaid(key, first, p, indent);
    var m := ValueIsLaid(ms[0].value, r, indent);
    var head := Lead(Pretty(indent), column, first) + (Quoted(key) + [COLON]);
    var (c, t) := (Dump(ms[0].value, COMPACT, 0), Dump(ms[0].value, Pretty(indent), column));
    LaidConcat(KeyText(COMPACT, 0, first, key), nl + head, c, Gap(r, indent) + t, p, r, m, indent);
    PrettyKey(indent, column, first, key);
    Regroup4(nl, head, [SPACE], t);
    var rest := ms[1..];
    q := m;
    if rest == [] {
      LaidNothing(m, indent);
    } else {
      q := MembersAreLaid(rest, false, m, indent);
    }
    LaidConcat(KeyText(COMPACT, 0, first, key) + c, nl + (KeyText(Pretty(indent), column, first, key) + t),
      DumpMembers(rest, COMPACT, 0, false), [] + DumpMembers(rest, Pretty(indent), column, false), p, m, q, indent);
    Regroup2(KeyText(COMPACT, 0, first, key), c, DumpMembers(rest, COMPACT, 0, false));
    Regroup3(nl, KeyText(Pretty(indent), column, first, key), t, DumpMembers(rest, Pretty(indent), column, false));
  }

  lemma Regroup4(nl: Str, head: Str, space: Str, t: Str)
    ensures nl + head + (space + t) == nl + ((head + space) + t)
  {
  }

  lemma PrettyKey(indent: nat, column: nat, first: bool, key: Str)
    ensures KeyText(Pretty(indent), column, first, key)
         == Lead(Pretty(indent), column, first) + (Quoted(key) + [COLON]) + [SPACE]
  {
    hide Lead, Quoted;
  }

  /**
   A negative indent prints no blank outside strings; any other prints the very same text with its blanks
   put in: one line per element, key and closing bracket, each as far in as it is deep, a space behind each
   colon, and no other blank.
   */
  lemma DumpLayout(v: Json, indent: int)
    requires Spelt(v)
    ensures indent < 0 ==> Tight(Dump(v, StyleOf(indent), 0), START)
    ensures indent >= 0 ==> Dump(v, StyleOf(indent), 0) == Respaced(Dump(v, StyleOf(-1), 0), START, indent)
  {
    var step := if indent < 0 then 0 else indent;
    var q := ValueIsLaid(v, START, step);
    assert Column(0, step) == 0 && Gap(START, step) == [];
    assert [] + Dump(v, Pretty(step), 0) == Dump(v, Pretty(step), 0);
    hide Dump, Respaced, Tight;
  }
}
