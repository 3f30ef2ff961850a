/** The recursive-descent parser and the function it computes. */
module JsonParser {
  import opened Bytes
  import opened JsonStrings
  import opened JsonScanner
  import opened JsonNumbers
  import opened JsonValues

  datatype JsonError = UnexpectedToken | BadString(error: StringError)

  /** `cur` is the token that stands at its start. */
  predicate IsLexeme(b: Str, cur: Lexeme) {
    Terminated(b) && cur.start < |b| && cur == TokenAt(b, cur.start)
  }

  function After(b: Str, cur: Lexeme): (next: Lexeme)
    requires IsLexeme(b, cur) && cur.token != EndOfInput
    ensures IsLexeme(b, next) && next.end > cur.end
  {
    NextToken(b, cur.end)
  }

  function NumberValue(n: Number): Json {
    match n
    case Unsigned(u) => UnsignedNumber(u)
    case Integer(i) => IntegerNumber(i)
    case Float(text) => FloatNumber(text)
  }

  lemma StringLexeme(b: Str, cur: Lexeme)
    requires IsLexeme(b, cur) && cur.token == ValueString
    ensures cur.end < |b| && IsStringToken(b, cur.start, cur.end)
  {
    LongestMatch(b, cur.start);
  }

  lemma NumberLexeme(b: Str, cur: Lexeme)
    requires IsLexeme(b, cur) && cur.token == ValueNumber
    ensures NumberEnd(b, cur.start) == Some(cur.end)
  {
  }

  function Lift(r: Result<Str, StringError>): Result<Str, JsonError> {
    match r
    case Ok(s) => Ok(s)
    case Err(error) => Err(BadString(error))
  }

  function StringOf(b: Str, cur: Lexeme): Result<Str, JsonError>
    requires IsLexeme(b, cur) && cur.token == ValueString
  {
    StringLexeme(b, cur);
    Lift(Unescape(b, cur.start + 1, cur.end - 1))
  }

  /** parse_internal: the value that starts at token `cur`, and the token after it. */
  function ParseValue(b: Str, cur: Lexeme): (r: Result<(Json, Lexeme), JsonError>)
    requires IsLexeme(b, cur)
    ensures r.Ok? ==> IsLexeme(b, r.value.1) && r.value.1.end > cur.end
    decreases |b| - cur.end, 0
  {
    match cur.token
    case BeginObject =>
      var first := After(b, cur);
      if first.token == EndObject then Ok((Object([]), After(b, first)))
      else if first.token == ValueSeparator then Err(UnexpectedToken)
      else ParseMembers(b, first, [])
    case BeginArray =>
      var first := After(b, cur);
      if first.token == EndArray then Ok((Array([]), After(b, first)))
      else if first.token == ValueSeparator then Err(UnexpectedToken)
      else ParseElements(b, first, [])
    case LiteralNull => Ok((Null, After(b, cur)))
    case LiteralTrue => Ok((Boolean(true), After(b, cur)))
    case LiteralFalse => Ok((Boolean(false), After(b, cur)))
    case ValueString =>
      (match StringOf(b, cur)
       case Ok(s) => Ok((String(s), After(b, cur)))
       case Err(error) => Err(error))
    case ValueNumber =>
      NumberLexeme(b, cur);
      Ok((NumberValue(NumberOf(b, cur.start, cur.end)), After(b, cur)))
    case _ => Err(UnexpectedToken)
  }

  /** The loop over elements, entered on the first element's token or on a comma. */
  function ParseElements(b: Str, cur: Lexeme, acc: seq<Json>): (r: Result<(Json, Lexeme), JsonError>)
    requires IsLexeme(b, cur)
    ensures r.Ok? ==> IsLexeme(b, r.value.1) && r.value.1.end > cur.end
    decreases |b| - cur.end, 1
  {
    var first := if cur.token == ValueSeparator then After(b, cur) else cur;
    match ParseValue(b, first)
    case Err(error) => Err(error)
    case Ok((value, next)) =>
      if next.token == ValueSeparator then ParseElements(b, next, acc + [value])
      else if next.token == EndArray then Ok((Array(acc + [value]), After(b, next)))
      else Err(UnexpectedToken)
  }

  /** The key and the first token of the value of a member, from its first token or a comma. */
  function ParseKey(b: Str, cur: Lexeme): (r: Result<(Str, Lexeme), JsonError>)
    requires IsLexeme(b, cur)
    ensures r.Ok? ==> IsLexeme(b, r.value.1) && r.value.1.end > cur.end
  {
    var first := if cur.token == ValueSeparator then After(b, cur) else cur;
    if first.token != ValueString then Err(UnexpectedToken)
    else match StringOf(b, first)
    case Err(error) => Err(error)
    case Ok(key) =>
      var separator := After(b, first);
      if separator.token != NameSeparator then Err(UnexpectedToken) else Ok((key, After(b, separator)))
  }

  function ParseMembers(b: Str, cur: Lexeme, acc: seq<Member>): (r: Result<(Json, Lexeme), JsonError>)
    requires IsLexeme(b, cur)
    ensures r.Ok? ==> IsLexeme(b, r.value.1) && r.value.1.end > cur.end
    decreases |b| - cur.end, 1
  {
    match ParseKey(b, cur)
    case Err(error) => Err(error)
    case Ok((key, first)) =>
      match ParseValue(b, first)
      case Err(error) => Err(error)
      case Ok((value, next)) =>
        var members := Put(acc, key, value);
        if next.token == ValueSeparator then ParseMembers(b, next, members)
        else if next.token == EndObject then Ok((Object(members), After(b, next)))
        else Err(UnexpectedToken)
  }

  /** parser::parse on a string, without a callback. */
  function ParseText(s: Str): Result<Json, JsonError> {
    var b := s + [0];
    match ParseValue(b, NextToken(b, 0))
    case Err(error) => Err(error)
    case Ok((value, last)) => if last.token == EndOfInput then Ok(value) else Err(UnexpectedToken)
  }

  class Parser {
    const lexer: Lexer
    var lastToken: Token

    ghost predicate Valid()
      reads this, lexer
    {
      lexer.Valid() && IsLexeme(lexer.content, Current())
    }

    ghost function Current(): Lexeme
      reads this, lexer
    {
      Lexeme(lastToken, lexer.start, lexer.cursor)
    }

    constructor (s: Str)
      ensures Valid() && fresh(lexer) && lexer.content == s + [0]
      ensures Current() == NextToken(lexer.content, 0)
    {
      lexer := new Lexer(s);
      lastToken := Uninitialized;
      new;
      lastToken := lexer.Scan();
    }

    /** No token is read past the first end_of_input. */
    method GetToken()
      requires Valid() && lastToken != EndOfInput
      modifies this, lexer
      ensures Valid() && Current() == old(After(lexer.content, Current()))
    {
      lastToken := lexer.Scan();
    }

    method CurrentString() returns (r: Result<Str, JsonError>)
      requires Valid() && lastToken == ValueString
      ensures r == StringOf(lexer.content, Current())
    {
      StringLexeme(lexer.content, Current());
      hide Unescape, TokenAt, IsBody;
      var s := GetString(lexer.content, lexer.start, lexer.cursor, lexer.limit);
      r := Lift(s);
    }

    method Parse() returns (r: Result<Json, JsonError>)
      requires Valid() && Current() == NextToken(lexer.content, 0)
      modifies this, lexer
      ensures r == ParseText(lexer.content[..lexer.limit])
    {
      assert lexer.content == lexer.content[..lexer.limit] + [0];
      r := ParseInternal();
      if r.Ok? && lastToken != EndOfInput {
        r := Err(UnexpectedToken);
      }
    }

    method ParseInternal() returns (r: Result<Json, JsonError>)
      requires Valid()
      modifies this, lexer
      ensures Outcome(old(ParseValue(lexer.content, Current())), r)
      decreases |lexer.content| - lexer.cursor, 0
    {
      ghost var b, first := lexer.content, Current();
      match lastToken {
        case BeginObject =>
          GetToken();
          if lastToken == EndObject {
            GetToken();
            return Ok(Object([]));
          }
          if lastToken == ValueSeparator {
            return Err(UnexpectedToken);
          }
          r := ParseObject();
        case BeginArray =>
          GetToken();
          if lastToken == EndArray {
            GetToken();
            return Ok(Array([]));
          }
          if lastToken == ValueSeparator {
            return Err(UnexpectedToken);
          }
          r := ParseArray();
        case LiteralNull =>
          GetToken();
          r := Ok(Null);
        case ValueString =>
          var s := CurrentString();
          if s.Err? {
            return Err(s.error);
          }
          GetToken();
          r := Ok(String(s.value));
        case LiteralTrue =>
          GetToken();
          r := Ok(Boolean(true));
        case LiteralFalse =>
          GetToken();
          r := Ok(Boolean(false));
        case ValueNumber =>
          NumberLexeme(lexer.content, Current());
          var n := GetNumber(lexer.content, lexer.start, lexer.cursor);
          GetToken();
          r := Ok(NumberValue(n));
        case _ =>
          r := Err(UnexpectedToken);
      }
    }

    /** What a method leaves behind, against the function: on success also the next token. */
    ghost predicate Outcome(spec: Result<(Json, Lexeme), JsonError>, r: Result<Json, JsonError>)
      reads this, lexer
    {
      match spec
      case Ok((value, next)) => r == Ok(value) && Valid() && Current() == next
      case Err(error) => r == Err(error)
    }

    /** The do-while loop over array elements. */
    method ParseArray() returns (r: Result<Json, JsonError>)
      requires Valid()
      modifies this, lexer
      ensures Outcome(old(ParseElements(lexer.content, Current(), [])), r)
      decreases |lexer.content| - lexer.cursor, 1
    {
      ghost var b, first := lexer.content, Current();
      var result: seq<Json> := [];
      var more := true;
      while more
        invariant Valid() && Current().end >= first.end
        invariant more ==> ParseElements(b, Current(), result) == ParseElements(b, first, [])
        invariant !more ==> lastToken != ValueSeparator
        invariant !more ==>
          ParseElements(b, first, [])
          == (if lastToken == EndArray then Ok((Array(result), After(b, Current()))) else Err(UnexpectedToken))
        decreases more, |b| - lexer.cursor
      {
        if lastToken == ValueSeparator {
          GetToken();
        }
        var value := ParseInternal();
        if value.Err? {
          return Err(value.error);
        }
        result := result + [value.value];
        more := lastToken == ValueSeparator;
      }
      if lastToken != EndArray {
        return Err(UnexpectedToken);
      }
      GetToken();
      return Ok(Array(result));
    }

    /** The do-while loop over object members. */
    method ParseObject() returns (r: Result<Json, JsonError>)
      requires Valid()
      modifies this, lexer
      ensures Outcome(old(ParseMembers(lexer.content, Current(), [])), r)
      decreases |lexer.content| - lexer.cursor, 1
    {
      ghost var b, first := lexer.content, Current();
      var result: seq<Member> := [];
      var more := true;
      while more
        invariant Valid() && Current().end >= first.end
        invariant more ==> ParseMembers(b, Current(), result) == ParseMembers(b, first, [])
        invariant !more ==> lastToken != ValueSeparator
        invariant !more ==>
          ParseMembers(b, first, [])
          == (if lastToken == EndObject then Ok((Object(result), After(b, Current()))) else Err(UnexpectedToken))
        decreases more, |b| - lexer.cursor
      {
        if lastToken == ValueSeparator {
          GetToken();
        }
        if lastToken != ValueString {
          return Err(UnexpectedToken);
        }
        var key := CurrentString();
        if key.Err? {
          return Err(key.error);
        }
        GetToken();
        if lastToken != NameSeparator {
          return Err(UnexpectedToken);
        }
        GetToken();
        var value := ParseInternal();
        if value.Err? {
          return Err(value.error);
        }
        result := Put(result, key.value, value.value);
        more := lastToken == ValueSeparator;
      }
      if lastToken != EndObject {
        return Err(UnexpectedToken);
      }
      GetToken();
      return Ok(Object(result));
    }
  }
}
