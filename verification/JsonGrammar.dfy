/**
 The texts that the parser accepts, by the value grammar over tokens (RFC 7159, sections 2 to 5): a text
 parses exactly if its tokens are those of a tree of the grammar and every string in it can be unescaped,
 and then to the value of that tree.
 */
module JsonGrammar {
  import opened Bytes
  import opened JsonStrings
  import opened JsonScanner
  import opened JsonNumbers
  import opened JsonValues
  import opened JsonParser
  import opened JsonFlatten

  // ---------------------------------------------------------------- the grammar

  /** A value as the grammar derives it: single tokens, lists, and records of keys and values. */
  datatype Tree = Leaf(lexeme: Lexeme) | List(items: seq<Tree>) | Record(fields: seq<Field>)

  datatype Field = Field(key: Lexeme, value: Tree)

  predicate IsWord(t: Token) {
    t == LiteralNull || t == LiteralTrue || t == LiteralFalse || t == ValueString || t == ValueNumber
  }

  /** Words are tokens of the text. */
  predicate IsTree(b: Str, t: Tree) {
    match t
    case Leaf(x) => IsWord(x.token) && IsLexeme(b, x)
    case List(items) => forall k :: 0 <= k < |items| ==> IsTree(b, items[k])
    case Record(fields) => forall k :: 0 <= k < |fields| ==> IsField(b, fields[k])
  }

  predicate IsField(b: Str, f: Field) {
    f.key.token == ValueString && IsLexeme(b, f.key) && IsTree(b, f.value)
  }

  /** A token that is no word, wherever it stands. */
  function Sign(t: Token): Lexeme {
    Lexeme(t, 0, 0)
  }

  function Yield(t: Tree): (l: seq<Lexeme>)
    ensures |l| > 0
    decreases t, 0
  {
    match t
    case Leaf(x) => [x]
    case List(items) => [Sign(BeginArray)] + YieldItems(items) + [Sign(EndArray)]
    case Record(fields) => [Sign(BeginObject)] + YieldFields(fields) + [Sign(EndObject)]
  }

  function YieldItems(items: seq<Tree>): seq<Lexeme>
    decreases items, 1
  {
    if items == [] then []
    else if |items| == 1 then Yield(items[0])
    else Yield(items[0]) + [Sign(ValueSeparator)] + YieldItems(items[1..])
  }

  function YieldField(f: Field): seq<Lexeme>
    decreases f, 1
  {
    [f.key, Sign(NameSeparator)] + Yield(f.value)
  }

  function YieldFields(fields: seq<Field>): seq<Lexeme>
    decreases fields, 2
  {
    if fields == [] then []
    else if |fields| == 1 then YieldField(fields[0])
    else YieldField(fields[0]) + [Sign(ValueSeparator)] + YieldFields(fields[1..])
  }

  // ---------------------------------------------------------------- what a tree means

  function WordValue(b: Str, x: Lexeme): Result<Json, JsonError>
    requires IsWord(x.token) && IsLexeme(b, x)
  {
    match x.token
    case LiteralNull => Ok(Null)
    case LiteralTrue => Ok(Boolean(true))
    case LiteralFalse => Ok(Boolean(false))
    case ValueString => (match StringOf(b, x) case Ok(s) => Ok(String(s)) case Err(error) => Err(error))
    case ValueNumber => NumberLexeme(b, x); Ok(NumberValue(NumberOf(b, x.start, x.end)))
  }

  /** The value, or the error of the first string that cannot be unescaped. Later members replace earlier ones. */
  function Meaning(b: Str, t: Tree): Result<Json, JsonError>
    requires IsTree(b, t)
    decreases t, 0
  {
    match t
    case Leaf(x) => WordValue(b, x)
    case List(items) => (match ItemsMean(b, items, []) case Ok(vs) => Ok(Array(vs)) case Err(error) => Err(error))
    case Record(fields) => (match FieldsMean(b, fields, []) case Ok(ms) => Ok(Object(ms)) case Err(error) => Err(error))
  }

  function ItemsMean(b: Str, items: seq<Tree>, acc: seq<Json>): Result<seq<Json>, JsonError>
    requires forall k :: 0 <= k < |items| ==> IsTree(b, items[k])
    decreases items, 1
  {
    if items == [] then Ok(acc)
    else
      match Meaning(b, items[0])
      case Err(error) => Err(error)
      case Ok(v) => ItemsMean(b, items[1..], acc + [v])
  }

  function FieldMeans(b: Str, f: Field): Result<(Str, Json), JsonError>
    requires IsField(b, f)
    decreases f, 1
  {
    match StringOf(b, f.key)
    case Err(error) => Err(error)
    case Ok(key) =>
      match Meaning(b, f.value)
      case Err(error) => Err(error)
      case Ok(v) => Ok((key, v))
  }

  function FieldsMean(b: Str, fields: seq<Field>, acc: seq<Member>): Result<seq<Member>, JsonError>
    requires forall k :: 0 <= k < |fields| ==> IsField(b, fields[k])
    decreases fields, 2
  {
    if fields == [] then Ok(acc)
    else
      match FieldMeans(b, fields[0])
      case Err(error) => Err(error)
      case Ok((key, v)) => FieldsMean(b, fields[1..], Put(acc, key, v))
  }

  /** Field `k` has this key and value, and no field behind it has the same key. */
  ghost predicate IsLastField(b: Str, fields: seq<Field>, k: nat, key: Str, v: Json)
    requires forall i :: 0 <= i < |fields| ==> IsField(b, fields[i])
  {
    && k < |fields| && FieldMeans(b, fields[k]) == Ok((key, v))
    && forall i, w | k < i < |fields| :: FieldMeans(b, fields[i]) != Ok((key, w))
  }

  ghost predicate HasLastField(b: Str, fields: seq<Field>, key: Str, v: Json)
    requires forall i :: 0 <= i < |fields| ==> IsField(b, fields[i])
  {
    exists k: nat :: IsLastField(b, fields, k, key, v)
  }

  ghost predicate HasField(b: Str, fields: seq<Field>, key: Str)
    requires forall i :: 0 <= i < |fields| ==> IsField(b, fields[i])
  {
    exists k, v :: 0 <= k < |fields| && FieldMeans(b, fields[k]) == Ok((key, v))
  }

  /** An object's members are ordered by their keys, and each has the value of the last field with its key. */
  lemma {:induction false} LastFieldCounts(b: Str, fields: seq<Field>, acc: seq<Member>, key: Str)
    requires forall i :: 0 <= i < |fields| ==> IsField(b, fields[i])
    requires Sorted(acc) && FieldsMean(b, fields, acc).Ok?
    ensures var ms := FieldsMean(b, fields, acc).value;
            && Sorted(ms)
            && (if HasField(b, fields, key) then
                  exists v :: HasLastField(b, fields, key, v) && Lookup(ms, key) == Some(v)
                else Lookup(ms, key) == Lookup(acc, key))
    decreases fields
  {
    hide FieldMeans, Put, Sorted, Lookup, IsField;
    if fields != [] {
      var (k, v) := FieldMeans(b, fields[0]).value;
      var rest := fields[1..];
      PutSorted(acc, k, v);
      LookupPut(acc, k, v, key);
      LastFieldCounts(b, rest, Put(acc, k, v), key);
      if HasField(b, rest, key) {
        var w :| HasLastField(b, rest, key, w) && Lookup(FieldsMean(b, fields, acc).value, key) == Some(w);
        var i: nat :| IsLastField(b, rest, i, key, w);
        LastOfMore(b, fields, i, key, w);
      } else if k == key {
        assert IsLastField(b, fields, 0, key, v);
        assert HasLastField(b, fields, key, v) && FieldMeans(b, fields[0]) == Ok((key, v));
      } else {
        FieldOfRest(b, fields, key);
      }
    }
  }

  lemma FieldOfRest(b: Str, fields: seq<Field>, key: Str)
    requires fields != [] && forall i :: 0 <= i < |fields| ==> IsField(b, fields[i])
    requires FieldMeans(b, fields[0]).Ok? && FieldMeans(b, fields[0]).value.0 != key
    ensures HasField(b, fields, key) ==> HasField(b, fields[1..], key)
  {
    if HasField(b, fields, key) {
      var i, w :| 0 <= i < |fields| && FieldMeans(b, fields[i]) == Ok((key, w));
      assert FieldMeans(b, fields[1..][i - 1]) == Ok((key, w));
    }
  }

  lemma LastOfMore(b: Str, fields: seq<Field>, i: nat, key: Str, w: Json)
    requires fields != [] && forall j :: 0 <= j < |fields| ==> IsField(b, fields[j])
    requires IsLastField(b, fields[1..], i, key, w)
    ensures HasLastField(b, fields, key, w) && HasField(b, fields, key)
  {
    assert FieldMeans(b, fields[i + 1]) == Ok((key, w));
    forall j, x | i + 1 < j < |fields| ensures FieldMeans(b, fields[j]) != Ok((key, x)) {
      assert fields[j] == fields[1..][j - 1];
    }
    assert IsLastField(b, fields, i + 1, key, w);
  }

  // ---------------------------------------------------------------- the tokens of a text

  function Terminal(x: Lexeme): (y: Lexeme)
    ensures y.token == x.token
  {
    if IsWord(x.token) then x else Sign(x.token)
  }

  /** The tokens from `cur` up to the first end of input. */
  function Terminals(b: Str, cur: Lexeme): seq<Lexeme>
    requires IsLexeme(b, cur)
    decreases |b| - cur.end
  {
    if cur.token == EndOfInput then [] else [Terminal(cur)] + Terminals(b, After(b, cur))
  }

  function Tokens(s: Str): seq<Lexeme> {
    Terminals(s + [0], NextToken(s + [0], 0))
  }

  lemma FirstTerminal(b: Str, cur: Lexeme, x: Lexeme, rest: seq<Lexeme>)
    requires IsLexeme(b, cur) && Terminals(b, cur) == [x] + rest
    ensures cur.token == x.token != EndOfInput && Terminal(cur) == x && Terminals(b, After(b, cur)) == rest
    ensures IsWord(x.token) ==> cur == x
  {
    assert Terminals(b, cur)[0] == x && Terminals(b, cur)[1..] == rest;
  }

  /** A value starts with a word or an opening bracket. */
  lemma YieldStarts(b: Str, t: Tree)
    requires IsTree(b, t)
    ensures var first := Yield(t)[0].token;
            IsWord(first) || first == BeginArray || first == BeginObject
  {
  }

  lemma ItemsStart(b: Str, items: seq<Tree>)
    requires items != [] && forall k :: 0 <= k < |items| ==> IsTree(b, items[k])
    ensures YieldItems(items) != []
    ensures var first := YieldItems(items)[0].token;
            IsWord(first) || first == BeginArray || first == BeginObject
  {
    YieldStarts(b, items[0]);
  }

  // ---------------------------------------------------------------- the tokens of a tree parse

  /** Parsing gives the value or the error, and on success goes on with `rest`. */
  predicate Parsed(b: Str, r: Result<(Json, Lexeme), JsonError>, expected: Result<Json, JsonError>, rest: seq<Lexeme>) {
    match expected
    case Err(error) => r == Err(error)
    case Ok(v) => r.Ok? && r.value.0 == v && IsLexeme(b, r.value.1) && Terminals(b, r.value.1) == rest
  }

  function AsArray(r: Result<seq<Json>, JsonError>): Result<Json, JsonError> {
    match r case Ok(vs) => Ok(Array(vs)) case Err(error) => Err(error)
  }

  function AsObject(r: Result<seq<Member>, JsonError>): Result<Json, JsonError> {
    match r case Ok(ms) => Ok(Object(ms)) case Err(error) => Err(error)
  }

  lemma {:induction false} TreeParses(b: Str, cur: Lexeme, t: Tree, rest: seq<Lexeme>)
    requires IsLexeme(b, cur) && IsTree(b, t) && Terminals(b, cur) == Yield(t) + rest
    ensures Parsed(b, ParseValue(b, cur), Meaning(b, t), rest)
    decreases t, 1
  {
    match t {
      case Leaf(x) =>
        hide ParseValue, Meaning, Parsed, Terminals, IsLexeme;
        WordParses(b, cur, x, rest);
      case List(items) =>
        hide ParseValue, Meaning, Parsed, Terminals, Yield, IsLexeme;
        ListParses(b, cur, t, rest);
      case Record(fields) =>
        hide ParseValue, Meaning, Parsed, Terminals, Yield, IsLexeme;
        RecordParses(b, cur, t, rest);
    }
  }

  lemma WordParses(b: Str, cur: Lexeme, x: Lexeme, rest: seq<Lexeme>)
    requires IsLexeme(b, cur) && IsTree(b, Leaf(x)) && Terminals(b, cur) == [x] + rest
    ensures Parsed(b, ParseValue(b, cur), Meaning(b, Leaf(x)), rest)
  {
    FirstTerminal(b, cur, x, rest);
    hide Terminals, TokenAt, NextToken, StringOf, NumberOf, NumberValue, NumberEnd;
  }

  lemma {:induction false} ListParses(b: Str, cur: Lexeme, t: Tree, rest: seq<Lexeme>)
    requires IsLexeme(b, cur) && t.List? && IsTree(b, t) && Terminals(b, cur) == Yield(t) + rest
    ensures Parsed(b, ParseValue(b, cur), Meaning(b, t), rest)
    decreases t, 0
  {
    hide *;
    var items, closed := t.items, [Sign(EndArray)] + rest;
    ListIs(b, t, rest);
    SignIs(BeginArray);
    SignIs(EndArray);
    FirstTerminal(b, cur, Sign(BeginArray), YieldItems(items) + closed);
    BracketParses(b, cur);
    var first := After(b, cur);
    if items == [] {
      assert [] + closed == closed;
      FirstTerminal(b, first, Sign(EndArray), rest);
      EmptyParsed(b, After(b, first), rest);
    } else {
      ItemsStart(b, items);
      StartsWith(b, first, YieldItems(items) + closed);
      WordsAreNoSigns(first.token);
      ItemsParse(b, first, items, [], rest);
    }
  }

  lemma ListIs(b: Str, t: Tree, rest: seq<Lexeme>)
    requires t.List? && IsTree(b, t)
    ensures forall k :: 0 <= k < |t.items| ==> IsTree(b, t.items[k])
    ensures Yield(t) + rest == [Sign(BeginArray)] + (YieldItems(t.items) + ([Sign(EndArray)] + rest))
    ensures Meaning(b, t) == AsArray(ItemsMean(b, t.items, []))
    ensures t.items == [] ==> YieldItems(t.items) == [] && Meaning(b, t) == Ok(Array([]))
  {
    hide IsLexeme;
  }

  lemma BracketParses(b: Str, cur: Lexeme)
    requires IsLexeme(b, cur) && (cur.token == BeginArray || cur.token == BeginObject)
    ensures var first := After(b, cur);
            ParseValue(b, cur) ==
            if cur.token == BeginArray then
              if first.token == EndArray then Ok((Array([]), After(b, first)))
              else if first.token == ValueSeparator then Err(UnexpectedToken)
              else ParseElements(b, first, [])
            else
              if first.token == EndObject then Ok((Object([]), After(b, first)))
              else if first.token == ValueSeparator then Err(UnexpectedToken)
              else ParseMembers(b, first, [])
  {
    hide TokenAt, NextToken, ParseElements, ParseMembers, IsLexeme;
  }

  lemma EmptyParsed(b: Str, next: Lexeme, rest: seq<Lexeme>)
    requires IsLexeme(b, next) && Terminals(b, next) == rest
    ensures Parsed(b, Ok((Array([]), next)), Ok(Array([])), rest)
    ensures Parsed(b, Ok((Object([]), next)), Ok(Object([])), rest)
  {
    hide IsLexeme, Terminals;
  }

  lemma WordsAreNoSigns(t: Token)
    requires IsWord(t) || t == BeginArray || t == BeginObject
    ensures t != EndArray && t != EndObject && t != ValueSeparator
  {
  }

  lemma {:induction false} RecordParses(b: Str, cur: Lexeme, t: Tree, rest: seq<Lexeme>)
    requires IsLexeme(b, cur) && t.Record? && IsTree(b, t) && Terminals(b, cur) == Yield(t) + rest
    ensures Parsed(b, ParseValue(b, cur), Meaning(b, t), rest)
    decreases t, 0
  {
    hide *;
    var fields, closed := t.fields, [Sign(EndObject)] + rest;
    RecordIs(b, t, rest);
    SignIs(BeginObject);
    SignIs(EndObject);
    FirstTerminal(b, cur, Sign(BeginObject), YieldFields(fields) + closed);
    BracketParses(b, cur);
    var first := After(b, cur);
    if fields == [] {
      assert [] + closed == closed;
      FirstTerminal(b, first, Sign(EndObject), rest);
      EmptyParsed(b, After(b, first), rest);
    } else {
      FieldsParse(b, first, fields, [], rest);
    }
  }

  lemma RecordIs(b: Str, t: Tree, rest: seq<Lexeme>)
    requires t.Record? && IsTree(b, t)
    ensures forall k :: 0 <= k < |t.fields| ==> IsField(b, t.fields[k])
    ensures Yield(t) + rest == [Sign(BeginObject)] + (YieldFields(t.fields) + ([Sign(EndObject)] + rest))
    ensures Meaning(b, t) == AsObject(FieldsMean(b, t.fields, []))
    ensures t.fields == [] ==> YieldFields(t.fields) == [] && Meaning(b, t) == Ok(Object([]))
  {
    hide IsLexeme, IsField;
  }

  lemma StartsWith(b: Str, cur: Lexeme, l: seq<Lexeme>)
    requires IsLexeme(b, cur) && Terminals(b, cur) == l && l != []
    ensures cur.token == l[0].token
  {
    assert l == [l[0]] + l[1..];
    FirstTerminal(b, cur, l[0], l[1..]);
  }

  /** Elements, from the first one's token; the loop also accepts the comma before it. */
  lemma {:induction false} ItemsParse(b: Str, cur: Lexeme, items: seq<Tree>, acc: seq<Json>, rest: seq<Lexeme>)
    requires IsLexeme(b, cur) && items != [] && forall k :: 0 <= k < |items| ==> IsTree(b, items[k])
    requires Terminals(b, cur) == YieldItems(items) + ([Sign(EndArray)] + rest)
    ensures cur.token != ValueSeparator
    ensures Parsed(b, ParseElements(b, cur, acc), AsArray(ItemsMean(b, items, acc)), rest)
    decreases items, 1
  {
    hide TokenAt, NextToken, Terminals, ParseValue, Meaning, IsLexeme;
    ItemsStart(b, items);
    StartsWith(b, cur, YieldItems(items) + ([Sign(EndArray)] + rest));
    if |items| == 1 {
      assert items[1..] == [];
      TreeParses(b, cur, items[0], [Sign(EndArray)] + rest);
      if Meaning(b, items[0]).Ok? {
        FirstTerminal(b, ParseValue(b, cur).value.1, Sign(EndArray), rest);
      }
    } else {
      var more := YieldItems(items[1..]) + ([Sign(EndArray)] + rest);
      assert YieldItems(items) + ([Sign(EndArray)] + rest) == Yield(items[0]) + ([Sign(ValueSeparator)] + more);
      TreeParses(b, cur, items[0], [Sign(ValueSeparator)] + more);
      if Meaning(b, items[0]).Ok? {
        var (v, comma) := ParseValue(b, cur).value;
        FirstTerminal(b, comma, Sign(ValueSeparator), more);
        ItemsParse(b, After(b, comma), items[1..], acc + [v], rest);
        CommaIsSkipped(b, comma, acc + [v]);
      }
    }
  }

  lemma CommaIsSkipped(b: Str, comma: Lexeme, acc: seq<Json>)
    requires IsLexeme(b, comma) && comma.token == ValueSeparator && After(b, comma).token != ValueSeparator
    ensures ParseElements(b, comma, acc) == ParseElements(b, After(b, comma), acc)
  {
  }

  lemma MemberCommaIsSkipped(b: Str, comma: Lexeme, acc: seq<Member>)
    requires IsLexeme(b, comma) && comma.token == ValueSeparator && After(b, comma).token != ValueSeparator
    ensures ParseMembers(b, comma, acc) == ParseMembers(b, After(b, comma), acc)
  {
  }

  lemma {:induction false} FieldsParse(b: Str, cur: Lexeme, fields: seq<Field>, acc: seq<Member>, rest: seq<Lexeme>)
    requires IsLexeme(b, cur) && fields != [] && forall k :: 0 <= k < |fields| ==> IsField(b, fields[k])
    requires Terminals(b, cur) == YieldFields(fields) + ([Sign(EndObject)] + rest)
    ensures cur.token == ValueString
    ensures Parsed(b, ParseMembers(b, cur, acc), AsObject(FieldsMean(b, fields, acc)), rest)
    decreases fields, 2
  {
    hide TokenAt, NextToken, Terminals, ParseValue, ParseKey, Meaning, IsLexeme, IsField, FieldMeans, YieldField;
    if |fields| == 1 {
      FieldParses(b, cur, fields[0], [Sign(EndObject)] + rest);
      assert fields[1..] == [];
      if FieldMeans(b, fields[0]).Ok? {
        FirstTerminal(b, ParseValue(b, ParseKey(b, cur).value.1).value.1, Sign(EndObject), rest);
      }
    } else {
      var more := YieldFields(fields[1..]) + ([Sign(EndObject)] + rest);
      assert Terminals(b, cur) == YieldField(fields[0]) + ([Sign(ValueSeparator)] + more);
      FieldParses(b, cur, fields[0], [Sign(ValueSeparator)] + more);
      if FieldMeans(b, fields[0]).Ok? {
        var (key, first) := ParseKey(b, cur).value;
        var (v, comma) := ParseValue(b, first).value;
        FirstTerminal(b, comma, Sign(ValueSeparator), more);
        FieldsParse(b, After(b, comma), fields[1..], Put(acc, key, v), rest);
        MemberCommaIsSkipped(b, comma, Put(acc, key, v));
      }
    }
  }

  /** One member: its key, the colon and its value. */
  lemma {:induction false} FieldParses(b: Str, cur: Lexeme, f: Field, rest: seq<Lexeme>)
    requires IsLexeme(b, cur) && IsField(b, f) && Terminals(b, cur) == YieldField(f) + rest
    ensures cur.token == ValueString
    ensures match FieldMeans(b, f)
            case Ok((key, v)) =>
              && ParseKey(b, cur).Ok? && ParseKey(b, cur).value.0 == key
              && Parsed(b, ParseValue(b, ParseKey(b, cur).value.1), Ok(v), rest)
            case Err(error) =>
              ParseKey(b, cur) == Err(error)
              || (ParseKey(b, cur).Ok? && ParseValue(b, ParseKey(b, cur).value.1) == Err(error))
    decreases f, 2
  {
    hide IsLexeme, IsTree, StringOf, ParseKey, ParseValue, Meaning, Terminals, Yield, YieldField;
    KeyParses(b, cur, f, rest);
    if StringOf(b, f.key).Ok? {
      TreeParses(b, ParseKey(b, cur).value.1, f.value, rest);
    }
  }

  lemma KeyParses(b: Str, cur: Lexeme, f: Field, rest: seq<Lexeme>)
    requires IsLexeme(b, cur) && IsField(b, f) && Terminals(b, cur) == YieldField(f) + rest
    ensures cur.token == f.key.token == ValueString && IsLexeme(b, f.key) && IsTree(b, f.value)
    ensures match StringOf(b, f.key)
            case Err(error) => ParseKey(b, cur) == Err(error)
            case Ok(key) =>
              && ParseKey(b, cur).Ok? && ParseKey(b, cur).value.0 == key && IsLexeme(b, ParseKey(b, cur).value.1)
              && Terminals(b, ParseKey(b, cur).value.1) == Yield(f.value) + rest
  {
    hide *;
    FieldIs(b, f);
    FieldTokens(f, rest);
    FirstTerminal(b, cur, f.key, [Sign(NameSeparator)] + (Yield(f.value) + rest));
    WordIsString(f.key);
    FirstTerminal(b, After(b, cur), Sign(NameSeparator), Yield(f.value) + rest);
    SignIs(NameSeparator);
    KeyIs(b, cur);
  }

  lemma FieldIs(b: Str, f: Field)
    requires IsField(b, f)
    ensures f.key.token == ValueString && IsLexeme(b, f.key) && IsTree(b, f.value)
  {
    hide IsLexeme, IsTree;
  }

  lemma FieldTokens(f: Field, rest: seq<Lexeme>)
    ensures YieldField(f) + rest == [f.key] + ([Sign(NameSeparator)] + (Yield(f.value) + rest))
  {
    hide Yield;
  }

  lemma WordIsString(x: Lexeme)
    requires x.token == ValueString
    ensures IsWord(x.token)
  {
  }

  lemma SignIs(t: Token)
    ensures Sign(t).token == t
  {
  }

  lemma KeyIs(b: Str, cur: Lexeme)
    requires IsLexeme(b, cur) && cur.token == ValueString && After(b, cur).token == NameSeparator
    ensures match StringOf(b, cur)
            case Err(error) => ParseKey(b, cur) == Err(error)
            case Ok(key) => ParseKey(b, cur) == Ok((key, After(b, After(b, cur))))
  {
    hide TokenAt, NextToken, StringOf, IsLexeme;
  }

  // ---------------------------------------------------------------- what parses has a tree

  lemma TerminalStep(b: Str, cur: Lexeme)
    requires IsLexeme(b, cur)
    ensures cur.end <= |b|
    ensures cur.token != EndOfInput ==> Terminals(b, cur) == [Terminal(cur)] + Terminals(b, After(b, cur))
    ensures Terminal(cur) == if IsWord(cur.token) then cur else Sign(cur.token)
  {
  }

  /** `t` has the tokens from `cur` up to `next`. */
  ghost predicate Spans(b: Str, cur: Lexeme, l: seq<Lexeme>, next: Lexeme) {
    IsLexeme(b, cur) && IsLexeme(b, next) && Terminals(b, cur) == l + Terminals(b, next)
  }

  lemma {:induction false} TreeOf(b: Str, cur: Lexeme) returns (t: Tree)
    requires IsLexeme(b, cur) && ParseValue(b, cur).Ok?
    ensures IsTree(b, t) && Spans(b, cur, Yield(t), ParseValue(b, cur).value.1)
    decreases |b| - cur.end, 0
  {
    hide *;
    TerminalStep(b, cur);
    if cur.token == BeginArray {
      BracketParses(b, cur);
      var first := After(b, cur);
      TerminalStep(b, first);
      NoWords();
      var items := [];
      if first.token != EndArray {
        items := ItemsOf(b, first, []);
      }
      t := List(items);
      TreeIs(b, t);
      ListIs(b, t, Terminals(b, ParseValue(b, cur).value.1));
      SpansSo(b, cur, Yield(t), ParseValue(b, cur).value.1);
    } else if cur.token == BeginObject {
      BracketParses(b, cur);
      var first := After(b, cur);
      TerminalStep(b, first);
      NoWords();
      var fields := [];
      if first.token != EndObject {
        fields := FieldsOf(b, first, []);
      }
      t := Record(fields);
      TreeIs(b, t);
      RecordIs(b, t, Terminals(b, ParseValue(b, cur).value.1));
      SpansSo(b, cur, Yield(t), ParseValue(b, cur).value.1);
    } else {
      t := Leaf(cur);
      WordSpans(b, cur);
    }
  }

  lemma NoWords()
    ensures !IsWord(BeginArray) && !IsWord(EndArray) && !IsWord(BeginObject) && !IsWord(EndObject)
    ensures !IsWord(ValueSeparator) && !IsWord(NameSeparator)
    ensures forall x: seq<Lexeme> :: [] + x == x
  {
  }

  lemma TreeIs(b: Str, t: Tree)
    requires t.List? ==> forall k :: 0 <= k < |t.items| ==> IsTree(b, t.items[k])
    requires t.Record? ==> forall k :: 0 <= k < |t.fields| ==> IsField(b, t.fields[k])
    ensures !t.Leaf? ==> IsTree(b, t)
  {
    hide IsLexeme, IsField;
  }

  lemma SpansSo(b: Str, cur: Lexeme, l: seq<Lexeme>, next: Lexeme)
    requires IsLexeme(b, cur) && IsLexeme(b, next) && Terminals(b, cur) == l + Terminals(b, next)
    ensures Spans(b, cur, l, next)
  {
    hide IsLexeme, Terminals;
  }

  lemma SpansIs(b: Str, cur: Lexeme, l: seq<Lexeme>, next: Lexeme)
    requires Spans(b, cur, l, next)
    ensures IsLexeme(b, cur) && IsLexeme(b, next) && Terminals(b, cur) == l + Terminals(b, next)
  {
    hide IsLexeme, Terminals;
  }

  lemma WordSpans(b: Str, cur: Lexeme)
    requires IsLexeme(b, cur) && ParseValue(b, cur).Ok? && cur.token != BeginArray && cur.token != BeginObject
    ensures IsTree(b, Leaf(cur)) && Spans(b, cur, Yield(Leaf(cur)), ParseValue(b, cur).value.1)
  {
    TerminalStep(b, cur);
    hide TokenAt, NextToken, StringOf, NumberOf, NumberValue, NumberEnd, IsLexeme, Terminals;
  }

  /** The elements from the first one's token, or from the comma before it. */
  lemma YieldOne(item: Tree)
    ensures YieldItems([item]) == Yield(item)
  {
    hide Yield;
  }

  lemma YieldMore(item: Tree, more: seq<Tree>, rest: seq<Lexeme>)
    requires more != []
    ensures YieldItems([item] + more) + rest
         == Yield(item) + ([Sign(ValueSeparator)] + (YieldItems(more) + rest))
  {
    hide Yield;
    assert ([item] + more)[1..] == more;
  }

  lemma {:induction false} ItemsOf(b: Str, cur: Lexeme, acc: seq<Json>) returns (items: seq<Tree>)
    requires IsLexeme(b, cur) && ParseElements(b, cur, acc).Ok?
    ensures items != [] && forall k :: 0 <= k < |items| ==> IsTree(b, items[k])
    ensures var first := if cur.token == ValueSeparator then After(b, cur) else cur;
            Terminals(b, first) ==
            YieldItems(items) + ([Sign(EndArray)] + Terminals(b, ParseElements(b, cur, acc).value.1))
    decreases |b| - cur.end, 1
  {
    hide TokenAt, NextToken, IsLexeme, Terminals, ParseValue, Yield, YieldItems, IsTree;
    var first := if cur.token == ValueSeparator then After(b, cur) else cur;
    var item := TreeOf(b, first);
    var (v, next) := ParseValue(b, first).value;
    TerminalStep(b, next);
    var rest := [Sign(EndArray)] + Terminals(b, ParseElements(b, cur, acc).value.1);
    if next.token == ValueSeparator {
      var more := ItemsOf(b, next, acc + [v]);
      items := [item] + more;
      YieldMore(item, more, rest);
    } else {
      items := [item];
      YieldOne(item);
    }
  }

  lemma {:induction false} FieldsOf(b: Str, cur: Lexeme, acc: seq<Member>) returns (fields: seq<Field>)
    requires IsLexeme(b, cur) && ParseMembers(b, cur, acc).Ok?
    ensures fields != [] && forall k :: 0 <= k < |fields| ==> IsField(b, fields[k])
    ensures var first := if cur.token == ValueSeparator then After(b, cur) else cur;
            Terminals(b, first) ==
            YieldFields(fields) + ([Sign(EndObject)] + Terminals(b, ParseMembers(b, cur, acc).value.1))
    decreases |b| - cur.end, 1
  {
    hide *;
    var first := if cur.token == ValueSeparator then After(b, cur) else cur;
    MembersStep(b, cur, acc);
    var (key, start) := ParseKey(b, cur).value;
    KeyTokens(b, cur);
    TerminalStep(b, start);
    var value := TreeOf(b, start);
    var field := Field(first, value);
    FieldIsSo(b, field);
    var (v, next) := ParseValue(b, start).value;
    SpansIs(b, start, Yield(value), next);
    TerminalStep(b, next);
    NoWords();
    var end := ParseMembers(b, cur, acc).value.1;
    var more := [];
    if next.token == ValueSeparator {
      more := FieldsOf(b, next, Put(acc, key, v));
    }
    fields := [field] + more;
    FieldsYield(field, more, [Sign(EndObject)] + Terminals(b, end));
  }

  lemma FieldIsSo(b: Str, f: Field)
    requires f.key.token == ValueString && IsLexeme(b, f.key) && IsTree(b, f.value)
    ensures IsField(b, f)
  {
    hide IsLexeme, IsTree;
  }

  /** One turn of the loop over members. */
  lemma MembersStep(b: Str, cur: Lexeme, acc: seq<Member>)
    requires IsLexeme(b, cur) && ParseMembers(b, cur, acc).Ok?
    ensures ParseKey(b, cur).Ok? && IsLexeme(b, ParseKey(b, cur).value.1)
    ensures var (key, start) := ParseKey(b, cur).value;
            && ParseValue(b, start).Ok? && IsLexeme(b, ParseValue(b, start).value.1)
            && var (v, next) := ParseValue(b, start).value;
               && cur.end < start.end < next.end
               && (next.token == ValueSeparator || next.token == EndObject)
               && (next.token == ValueSeparator ==>
                     ParseMembers(b, cur, acc) == ParseMembers(b, next, Put(acc, key, v)))
               && (next.token == EndObject ==> ParseMembers(b, cur, acc).value.1 == After(b, next))
  {
    hide TokenAt, NextToken, ParseKey, ParseValue, IsLexeme;
  }

  lemma FieldsYield(field: Field, more: seq<Field>, rest: seq<Lexeme>)
    ensures YieldFields([field] + more) + rest ==
            [field.key, Sign(NameSeparator)] +
            (Yield(field.value) +
             (if more == [] then rest else [Sign(ValueSeparator)] + (YieldFields(more) + rest)))
  {
    hide Yield;
    assert ([field] + more)[1..] == more;
  }

  lemma KeyTokens(b: Str, cur: Lexeme)
    requires IsLexeme(b, cur) && ParseKey(b, cur).Ok?
    ensures var first := if cur.token == ValueSeparator then After(b, cur) else cur;
            && first.token == ValueString && IsLexeme(b, first)
            && Terminals(b, first) == [first, Sign(NameSeparator)] + Terminals(b, ParseKey(b, cur).value.1)
  {
    hide TokenAt, NextToken, IsLexeme, Terminals, StringOf;
    var first := if cur.token == ValueSeparator then After(b, cur) else cur;
    TerminalStep(b, first);
    TerminalStep(b, After(b, first));
  }

  // ---------------------------------------------------------------- exactly what parses

  /** The string token has no high surrogate without a low one behind it. */
  predicate IsReadable(b: Str, x: Lexeme)
    requires x.token == ValueString && IsLexeme(b, x)
  {
    StringLexeme(b, x);
    !HasLoneHigh(b, x.start + 1, x.end - 1)
  }

  lemma ReadableIff(b: Str, x: Lexeme)
    requires x.token == ValueString && IsLexeme(b, x)
    ensures StringOf(b, x).Ok? <==> IsReadable(b, x)
  {
    StringLexeme(b, x);
    hide TokenAt, Unescape, HasLoneHigh;
    UnescapeFails(b, x.start + 1, x.end - 1);
  }

  /** Every string among the tokens is readable. */
  ghost predicate StringsRead(b: Str, l: seq<Lexeme>) {
    forall x | x in l && x.token == ValueString && IsLexeme(b, x) :: IsReadable(b, x)
  }

  lemma StringsReadBoth(b: Str, k: seq<Lexeme>, l: seq<Lexeme>)
    ensures StringsRead(b, k + l) <==> StringsRead(b, k) && StringsRead(b, l)
  {
    hide IsLexeme, IsReadable;
    if StringsRead(b, k + l) {
      forall x | x in k || x in l ensures x in k + l {
      }
    }
  }

  lemma StringsReadOne(b: Str, x: Lexeme)
    ensures StringsRead(b, [x]) <==> (x.token == ValueString && IsLexeme(b, x) ==> StringOf(b, x).Ok?)
  {
    hide IsLexeme, StringOf, IsReadable;
    assert x in [x];
    if x.token == ValueString && IsLexeme(b, x) {
      ReadableIff(b, x);
    }
  }

  /** A tree has a value exactly if its strings can be read. */
  lemma {:induction false} MeaningIff(b: Str, t: Tree)
    requires IsTree(b, t)
    ensures Meaning(b, t).Ok? <==> StringsRead(b, Yield(t))
    decreases t, 0
  {
    hide IsLexeme, StringOf, StringsRead, ItemsMean, FieldsMean;
    match t {
      case Leaf(x) =>
        StringsReadOne(b, x);
      case List(items) =>
        ItemsMeanIff(b, items, []);
        Bracketed(b, Sign(BeginArray), YieldItems(items), Sign(EndArray));
      case Record(fields) =>
        FieldsMeanIff(b, fields, []);
        Bracketed(b, Sign(BeginObject), YieldFields(fields), Sign(EndObject));
    }
  }

  lemma Bracketed(b: Str, open: Lexeme, l: seq<Lexeme>, close: Lexeme)
    requires open.token != ValueString && close.token != ValueString
    ensures StringsRead(b, [open] + l + [close]) <==> StringsRead(b, l)
  {
    hide StringsRead;
    StringsReadBoth(b, [open] + l, [close]);
    StringsReadBoth(b, [open], l);
    StringsReadOne(b, open);
    StringsReadOne(b, close);
  }

  lemma NoStrings(b: Str)
    ensures StringsRead(b, [])
  {
  }

  lemma {:induction false} ItemsMeanIff(b: Str, items: seq<Tree>, acc: seq<Json>)
    requires forall k :: 0 <= k < |items| ==> IsTree(b, items[k])
    ensures ItemsMean(b, items, acc).Ok? <==> StringsRead(b, YieldItems(items))
    decreases items, 1
  {
    hide IsLexeme, StringsRead, Meaning, Yield;
    if items == [] {
      NoStrings(b);
    } else {
      MeaningIff(b, items[0]);
      if |items| == 1 {
        assert items[1..] == [];
      } else {
        StringsReadBoth(b, Yield(items[0]) + [Sign(ValueSeparator)], YieldItems(items[1..]));
        StringsReadBoth(b, Yield(items[0]), [Sign(ValueSeparator)]);
        StringsReadOne(b, Sign(ValueSeparator));
      }
      if Meaning(b, items[0]).Ok? {
        ItemsMeanIff(b, items[1..], acc + [Meaning(b, items[0]).value]);
      }
    }
  }

  lemma {:induction false} FieldMeansIff(b: Str, f: Field)
    requires IsField(b, f)
    ensures FieldMeans(b, f).Ok? <==> StringsRead(b, YieldField(f))
    decreases f, 1
  {
    hide IsLexeme, StringsRead, Meaning, Yield, StringOf;
    MeaningIff(b, f.value);
    assert [f.key, Sign(NameSeparator)] == [f.key] + [Sign(NameSeparator)];
    StringsReadBoth(b, [f.key, Sign(NameSeparator)], Yield(f.value));
    StringsReadBoth(b, [f.key], [Sign(NameSeparator)]);
    StringsReadOne(b, f.key);
    StringsReadOne(b, Sign(NameSeparator));
  }

  lemma {:induction false} FieldsMeanIff(b: Str, fields: seq<Field>, acc: seq<Member>)
    requires forall k :: 0 <= k < |fields| ==> IsField(b, fields[k])
    ensures FieldsMean(b, fields, acc).Ok? <==> StringsRead(b, YieldFields(fields))
    decreases fields, 2
  {
    hide IsLexeme, StringsRead, FieldMeans, YieldField, IsField;
    if fields == [] {
      NoStrings(b);
    } else {
      FieldMeansIff(b, fields[0]);
      if |fields| == 1 {
        assert fields[1..] == [];
      } else {
        StringsReadBoth(b, YieldField(fields[0]) + [Sign(ValueSeparator)], YieldFields(fields[1..]));
        StringsReadBoth(b, YieldField(fields[0]), [Sign(ValueSeparator)]);
        StringsReadOne(b, Sign(ValueSeparator));
      }
      if FieldMeans(b, fields[0]).Ok? {
        var (key, v) := FieldMeans(b, fields[0]).value;
        FieldsMeanIff(b, fields[1..], Put(acc, key, v));
      }
    }
  }

  /** The text's tokens are those of a value. */
  ghost predicate IsValueText(s: Str) {
    exists t: Tree :: IsTreeOf(s, t)
  }

  predicate IsTreeOf(s: Str, t: Tree) {
    IsTree(s + [0], t) && Yield(t) == Tokens(s)
  }

  lemma EndsThere(b: Str, cur: Lexeme)
    requires IsLexeme(b, cur)
    ensures Terminals(b, cur) == [] <==> cur.token == EndOfInput
  {
  }

  /** A text with a tree parses to what the tree means: its value, or the error of its first bad string. */
  lemma ParsesToMeaning(s: Str, t: Tree)
    requires IsTreeOf(s, t)
    ensures ParseText(s) == Meaning(s + [0], t)
  {
    var b := s + [0];
    var first := NextToken(b, 0);
    hide ParseValue, Meaning, TokenAt, NextToken, IsTree, Yield, Terminals;
    assert Yield(t) + [] == Terminals(b, first);
    TreeParses(b, first, t, []);
    if ParseValue(b, first).Ok? {
      EndsThere(b, ParseValue(b, first).value.1);
    }
  }

  /** A text parses if and only if its tokens are those of a value, and no string has a lone high surrogate. */
  lemma ParsesIff(s: Str)
    ensures ParseText(s).Ok? <==> IsValueText(s) && StringsRead(s + [0], Tokens(s))
  {
    var b := s + [0];
    var first := NextToken(b, 0);
    hide ParseValue, Meaning, TokenAt, NextToken, IsTree, Yield, Terminals, StringsRead;
    if ParseText(s).Ok? {
      var t := TreeOf(b, first);
      EndsThere(b, ParseValue(b, first).value.1);
      assert Yield(t) + [] == Yield(t);
      assert IsTreeOf(s, t);
      ParsesToMeaning(s, t);
      MeaningIff(b, t);
    }
    if IsValueText(s) && StringsRead(b, Tokens(s)) {
      var t :| IsTreeOf(s, t);
      ParsesToMeaning(s, t);
      MeaningIff(b, t);
    }
  }
}
