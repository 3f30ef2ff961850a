/**
 JSON Pointer (RFC 6901): reference tokens and their escaping, and splitting a pointer undoes
 joining one.
 */
module JsonPointers {
  import opened Bytes

  datatype PointerError = DomainError | InvalidArgument | OutOfRange | LengthError

  const TILDE_ZERO: Str := [TILDE, ZERO]
  const TILDE_ONE: Str := [TILDE, ONE]

  /** All occurrences of `f` in `s`, found from the left, replaced by `t`. */
  function Replace(s: Str, f: Str, t: Str): Str
    requires f != []
  {
    if |s| < |f| then s
    else if s[..|f|] == f then t + Replace(s[|f|..], f, t)
    else [s[0]] + Replace(s[1..], f, t)
  }

  /** std::string::find; None is npos. */
  method Find(s: Str, f: Str, from: nat) returns (pos: Option<nat>)
    requires f != []
    ensures pos.Some? ==> from <= pos.value && At(s, pos.value, f)
    ensures forall k :: from <= k < (if pos.Some? then pos.value else |s|) ==> !At(s, k, f)
  {
    var i := from;
    while i + |f| <= |s|
      invariant from <= i
      invariant forall k :: from <= k < i ==> !At(s, k, f)
    {
      if s[i..i + |f|] == f {
        return Some(i);
      }
      i := i + 1;
    }
    return None;
  }

  lemma ReplaceStep(s: Str, f: Str, t: Str)
    requires f != [] && s != [] && !At(s, 0, f)
    ensures Replace(s, f, t) == [s[0]] + Replace(s[1..], f, t)
  {
    if |s| < |f| {
      assert s == [s[0]] + s[1..];
    } else {
      assert s[0..|f|] == s[..|f|];
    }
  }

  lemma AtTail(s: Str, k: nat, f: Str)
    requires s != []
    ensures At(s[1..], k, f) <==> At(s, k + 1, f)
  {
    if k + |f| <= |s[1..]| {
      assert s[1..][k..k + |f|] == s[k + 1..k + 1 + |f|];
    }
  }

  /** Bytes at which `f` does not stand are copied. */
  lemma {:induction false} ReplaceSkips(s: Str, f: Str, t: Str, n: nat)
    requires f != [] && n <= |s| && forall k :: 0 <= k < n ==> !At(s, k, f)
    ensures Replace(s, f, t) == s[..n] + Replace(s[n..], f, t)
    decreases n
  {
    if n > 0 {
      ReplaceStep(s, f, t);
      hide Replace, At;
      forall k | 0 <= k < n - 1 ensures !At(s[1..], k, f) {
        AtTail(s, k, f);
      }
      ReplaceSkips(s[1..], f, t, n - 1);
      var rest := Replace(s[n..], f, t);
      assert s[1..][n - 1..] == s[n..];
      assert [s[0]] + (s[1..][..n - 1] + rest) == s[..n] + rest;
    }
  }

  /** json_pointer::replace_substring */
  method ReplaceSubstring(s0: Str, f: Str, t: Str) returns (s: Str)
    requires f != []
    ensures s == Replace(s0, f, t)
  {
    s := s0;
    ghost var done: nat := 0;
    var pos := Find(s, f, 0);
    while pos.Some?
      invariant done <= |s|
      invariant s[..done] + Replace(s[done..], f, t) == Replace(s0, f, t)
      invariant pos.Some? ==> done <= pos.value && At(s, pos.value, f)
      invariant forall k :: done <= k < (if pos.Some? then pos.value else |s|) ==> !At(s, k, f)
      decreases |s| - done
    {
      var p := pos.value;
      ghost var before, rest := s, s[p + |f|..];
      CopiedTo(s, done, p, f, t);
      OccurrenceAt(s, p, f, t);
      assert s[..p] + (t + Replace(rest, f, t)) == s[..p] + t + Replace(rest, f, t);
      s := s[..p] + t + s[p + |f|..];
      assert s[..p + |t|] == before[..p] + t && s[p + |t|..] == rest;
      pos := Find(s, f, p + |t|);
      done := p + |t|;
    }
    CopiedTo(s, done, |s|, f, t);
  }

  /** Nothing to replace up to `p`: those bytes are copied. */
  lemma CopiedTo(s: Str, done: nat, p: nat, f: Str, t: Str)
    requires f != [] && done <= p <= |s| && forall k :: done <= k < p ==> !At(s, k, f)
    ensures s[..done] + Replace(s[done..], f, t) == s[..p] + Replace(s[p..], f, t)
  {
    NoneBefore(s, done, p, f);
    ReplaceSkips(s[done..], f, t, p - done);
    hide Replace, At;
    assert s[done..][p - done..] == s[p..];
    Glue(s, done, p, Replace(s[p..], f, t));
  }

  lemma Glue(s: Str, done: nat, p: nat, rest: Str)
    requires done <= p <= |s|
    ensures s[..done] + (s[done..][..p - done] + rest) == s[..p] + rest
  {
    assert s[..done] + s[done..][..p - done] == s[..p];
  }

  lemma NoneBefore(s: Str, done: nat, p: nat, f: Str)
    requires done <= p <= |s| && forall k :: done <= k < p ==> !At(s, k, f)
    ensures forall k :: 0 <= k < p - done ==> !At(s[done..], k, f)
  {
    forall k | 0 <= k < p - done ensures !At(s[done..], k, f) {
      assert !At(s, done + k, f);
      if k + |f| <= |s[done..]| {
        assert s[done..][k..k + |f|] == s[done + k..done + k + |f|];
      }
    }
  }

  lemma OccurrenceAt(s: Str, p: nat, f: Str, t: Str)
    requires f != [] && At(s, p, f)
    ensures Replace(s[p..], f, t) == t + Replace(s[p + |f|..], f, t)
  {
    assert s[p..][..|f|] == s[p..p + |f|] && s[p..][|f|..] == s[p + |f|..];
  }

  // ---------------------------------------------------------------- tokens

  function EscapeTokenByte(c: byte): Str {
    if c == TILDE then TILDE_ZERO else if c == SLASH then TILDE_ONE else [c]
  }

  /** A reference token as a pointer shows it. */
  function EscapeToken(token: Str): Str {
    if token == [] then [] else EscapeTokenByte(token[0]) + EscapeToken(token[1..])
  }

  /** Every tilde is followed by 0 or 1. */
  predicate WellEscaped(s: Str) {
    forall k :: 0 <= k < |s| && s[k] == TILDE ==> k + 1 < |s| && s[k + 1] in {ZERO, ONE}
  }

  /** RFC 6901, section 4, read in one pass. */
  function DecodeToken(s: Str): Str {
    if s == [] then []
    else if s[0] == TILDE && |s| >= 2 then [if s[1] == ONE then SLASH else TILDE] + DecodeToken(s[2..])
    else [s[0]] + DecodeToken(s[1..])
  }

  /** The two replacements of split. */
  function UnescapeToken(s: Str): Str {
    Replace(Replace(s, TILDE_ONE, [SLASH]), TILDE_ZERO, [TILDE])
  }

  /** Replacing ~1 before ~0 decodes every well-escaped token as a single pass would. */
  lemma {:induction false} TwoPassesAreOne(s: Str)
    requires WellEscaped(s)
    ensures UnescapeToken(s) == DecodeToken(s)
    decreases s
  {
    if s != [] {
      var once := Replace(s, TILDE_ONE, [SLASH]);
      if s[0] == TILDE {
        assert s[1] in {ZERO, ONE};
        Suffixed(s, 2);
        TwoPassesAreOne(s[2..]);
        var rest := Replace(s[2..], TILDE_ONE, [SLASH]);
        if s[1] == ONE {
          assert s[..2] == TILDE_ONE;
          assert once == [SLASH] + rest;
          ReplaceHead(SLASH, rest, TILDE_ZERO, [TILDE]);
        } else {
          assert s[..2] == TILDE_ZERO;
          assert s[1..][1..] == s[2..];
          ReplaceHead(s[1], s[2..], TILDE_ONE, [SLASH]);
          assert s[1..] == [s[1]] + s[2..];
          assert once == [TILDE] + ([ZERO] + rest);
          assert once == TILDE_ZERO + rest;
          assert once[..2] == TILDE_ZERO && once[2..] == rest;
        }
      } else {
        Suffixed(s, 1);
        TwoPassesAreOne(s[1..]);
        assert s == [s[0]] + s[1..];
        ReplaceHead(s[0], s[1..], TILDE_ONE, [SLASH]);
        ReplaceHead(s[0], Replace(s[1..], TILDE_ONE, [SLASH]), TILDE_ZERO, [TILDE]);
      }
    }
  }

  lemma Suffixed(s: Str, n: nat)
    requires WellEscaped(s) && n <= |s|
    ensures WellEscaped(s[n..])
  {
    forall k | 0 <= k < |s[n..]| && s[n..][k] == TILDE
      ensures k + 1 < |s[n..]| && s[n..][k + 1] in {ZERO, ONE}
    {
      assert s[n + k] == TILDE;
    }
  }

  /** A first byte that is not a tilde is copied by both replacements. */
  lemma ReplaceHead(c: byte, rest: Str, f: Str, t: Str)
    requires c != TILDE && |f| == 2 && f[0] == TILDE
    ensures Replace([c] + rest, f, t) == [c] + Replace(rest, f, t)
  {
    var s := [c] + rest;
    assert s[1..] == rest;
    if |s| >= 2 {
      assert s[..2][0] == c;
    }
  }

  lemma EscapedToken(token: Str)
    ensures WellEscaped(EscapeToken(token)) && DecodeToken(EscapeToken(token)) == token
    ensures SLASH !in EscapeToken(token)
    ensures token != [] ==> EscapeToken(token) != []
  {
    EscapedIsWellEscaped(token);
    DecodeEscaped(token);
    NoSlash(token);
  }

  lemma {:induction false} EscapedIsWellEscaped(token: Str)
    ensures WellEscaped(EscapeToken(token))
  {
    if token != [] {
      EscapedIsWellEscaped(token[1..]);
      WellEscapedHead(token[0], EscapeToken(token[1..]));
    }
  }

  lemma {:induction false} DecodeEscaped(token: Str)
    ensures DecodeToken(EscapeToken(token)) == token
  {
    if token != [] {
      DecodeEscaped(token[1..]);
      var head, tail := EscapeTokenByte(token[0]), EscapeToken(token[1..]);
      assert (head + tail)[|head|..] == tail;
      assert token == [token[0]] + token[1..];
    }
  }

  lemma {:induction false} NoSlash(token: Str)
    ensures SLASH !in EscapeToken(token)
    ensures token != [] ==> EscapeToken(token) != []
  {
    if token != [] {
      NoSlash(token[1..]);
      assert SLASH !in EscapeTokenByte(token[0]);
    }
  }

  lemma WellEscapedHead(c: byte, tail: Str)
    requires WellEscaped(tail)
    ensures WellEscaped(EscapeTokenByte(c) + tail)
  {
    var head := EscapeTokenByte(c);
    var s := head + tail;
    forall k | 0 <= k < |s| && s[k] == TILDE ensures k + 1 < |s| && s[k + 1] in {ZERO, ONE} {
      if k >= |head| {
        assert tail[k - |head|] == TILDE;
      }
    }
  }

  /** Undoing the escaping gives every token back. */
  lemma UnescapeEscapedToken(token: Str)
    ensures UnescapeToken(EscapeToken(token)) == token
  {
    EscapedToken(token);
    TwoPassesAreOne(EscapeToken(token));
  }

  /** flatten's two replacements, ~ before /, escape a key byte by byte. */
  lemma {:induction false} ReplacementsEscape(key: Str)
    ensures Replace(Replace(key, [TILDE], TILDE_ZERO), [SLASH], TILDE_ONE) == EscapeToken(key)
  {
    if key != [] {
      ReplacementsEscape(key[1..]);
      var rest := Replace(key[1..], [TILDE], TILDE_ZERO);
      assert key[..1] == [key[0]];
      var once := Replace(key, [TILDE], TILDE_ZERO);
      if key[0] == TILDE {
        assert once == TILDE_ZERO + rest;
        assert once[..1] == [TILDE] && once[1..] == [ZERO] + rest;
        assert once[1..][..1] == [ZERO] && once[1..][1..] == rest;
        assert [TILDE] + ([ZERO] + EscapeToken(key[1..])) == TILDE_ZERO + EscapeToken(key[1..]);
      } else {
        assert once == [key[0]] + rest;
        assert once[..1] == [key[0]] && once[1..] == rest;
      }
    }
  }

  // ---------------------------------------------------------------- pointers

  /** The pointer with these reference tokens. */
  function Join(tokens: seq<Str>): Str {
    if tokens == [] then [] else [SLASH] + EscapeToken(tokens[0]) + Join(tokens[1..])
  }

  function SlashFrom(s: Str, i: nat): (e: nat)
    requires i <= |s|
    ensures i <= e <= |s| && SLASH !in s[i..e] && (e < |s| ==> s[e] == SLASH)
    decreases |s| - i
  {
    if i == |s| || s[i] == SLASH then i
    else
      var e := SlashFrom(s, i + 1);
      assert s[i..e] == [s[i]] + s[i + 1..e];
      e
  }

  /** The tokens of a pointer whose next token begins at `start`. */
  function TokensFrom(s: Str, start: nat): Result<seq<Str>, PointerError>
    requires start <= |s|
    decreases |s| - start
  {
    var e := SlashFrom(s, start);
    if !WellEscaped(s[start..e]) then Err(DomainError)
    else if e == |s| then Ok([UnescapeToken(s[start..e])])
    else match TokensFrom(s, e + 1)
    case Err(error) => Err(error)
    case Ok(rest) => Ok([UnescapeToken(s[start..e])] + rest)
  }

  /** json_pointer::split, as a function. */
  function Tokens(s: Str): Result<seq<Str>, PointerError> {
    if s == [] then Ok([])
    else if s[0] != SLASH then Err(DomainError)
    else TokensFrom(s, 1)
  }

  method CheckEscapes(token: Str) returns (ok: bool)
    ensures ok <==> WellEscaped(token)
  {
    var pos := 0;
    while pos < |token|
      invariant 0 <= pos <= |token|
      invariant forall k :: 0 <= k < pos && token[k] == TILDE ==> k + 1 < |token| && token[k + 1] in {ZERO, ONE}
    {
      if token[pos] == TILDE && (pos == |token| - 1 || (token[pos + 1] != ZERO && token[pos + 1] != ONE)) {
        return false;
      }
      pos := pos + 1;
    }
    return true;
  }

  /** find_first_of("/", start); the end of the string stands for npos. */
  method FindSlash(s: Str, start: nat) returns (slash: nat)
    requires start <= |s|
    ensures slash == SlashFrom(s, start)
  {
    slash := start;
    while slash < |s| && s[slash] != SLASH
      invariant start <= slash <= |s| && SlashFrom(s, slash) == SlashFrom(s, start)
    {
      slash := slash + 1;
    }
  }

  /** split's two calls of replace_substring. */
  method UnescapeInPlace(token: Str) returns (r: Str)
    ensures r == UnescapeToken(token)
  {
    r := ReplaceSubstring(token, TILDE_ONE, [SLASH]);
    r := ReplaceSubstring(r, TILDE_ZERO, [TILDE]);
  }

  /** json_pointer::split; `start` past the end stands for npos + 1 == 0. */
  method Split(s: Str) returns (r: Result<seq<Str>, PointerError>)
    ensures r == Tokens(s)
  {
    var result: seq<Str> := [];
    if s == [] {
      return Ok(result);
    }
    if s[0] != SLASH {
      return Err(DomainError);
    }
    var start := 1;
    ExtendNothing(TokensFrom(s, start));
    hide WellEscaped, UnescapeToken;
    while start <= |s|
      invariant 1 <= start <= |s| + 1
      invariant start <= |s| ==> Tokens(s) == Extend(result, TokensFrom(s, start))
      invariant start > |s| ==> Tokens(s) == Ok(result)
      decreases |s| + 1 - start
    {
      var slash := FindSlash(s, start);
      var token := s[start..slash];
      var ok := CheckEscapes(token);
      if !ok {
        return Err(DomainError);
      }
      token := UnescapeInPlace(token);
      ghost var rest := if slash == |s| then Ok([]) else TokensFrom(s, slash + 1);
      ExtendTwice(result, [token], rest);
      result := result + [token];
      start := slash + 1;
    }
    return Ok(result);
  }

  function Extend(a: seq<Str>, r: Result<seq<Str>, PointerError>): Result<seq<Str>, PointerError> {
    match r
    case Ok(rest) => Ok(a + rest)
    case Err(_) => r
  }

  lemma ExtendNothing(r: Result<seq<Str>, PointerError>)
    ensures Extend([], r) == r
  {
    if r.Ok? {
      assert [] + r.value == r.value;
    }
  }

  lemma ExtendTwice(a: seq<Str>, b: seq<Str>, r: Result<seq<Str>, PointerError>)
    ensures Extend(a, Extend(b, r)) == Extend(a + b, r)
    ensures Extend(a + b, Ok([])) == Ok(a + b)
  {
    assert a + b + [] == a + b;
    if r.Ok? {
      assert a + (b + r.value) == a + b + r.value;
    }
  }

  lemma {:induction false} SlashAt(s: Str, i: nat, e: nat)
    requires i <= e <= |s| && SLASH !in s[i..e] && (e < |s| ==> s[e] == SLASH)
    ensures SlashFrom(s, i) == e
    decreases e - i
  {
    if i < e {
      assert s[i..e][0] == s[i];
      assert s[i + 1..e] == s[i..e][1..];
      SlashAt(s, i + 1, e);
    }
  }

  /** A pointer's first token ends where the rest of the pointer begins. */
  lemma FirstToken(s: Str, p: nat, text: Str, rest: Str) returns (e: nat)
    requires p <= |s| && s[p..] == [SLASH] + text + rest && SLASH !in text && (rest != [] ==> rest[0] == SLASH)
    ensures e == p + 1 + |text| <= |s| && s[p + 1..e] == text && s[e..] == rest && SlashFrom(s, p + 1) == e
  {
    e := p + 1 + |text|;
    assert s[p + 1..e] == s[p..][1..1 + |text|] == text;
    assert s[e..] == s[p..][1 + |text|..] == rest;
    if e < |s| {
      assert s[e] == s[e..][0];
    }
    SlashAt(s, p + 1, e);
  }

  lemma {:induction false} TokensOfJoin(s: Str, p: nat, tokens: seq<Str>)
    requires tokens != [] && p <= |s| && s[p..] == Join(tokens)
    ensures p < |s| && TokensFrom(s, p + 1) == Ok(tokens)
    decreases tokens
  {
    hide EscapeToken, UnescapeToken, WellEscaped, SlashFrom;
    EscapedToken(tokens[0]);
    UnescapeEscapedToken(tokens[0]);
    var e := FirstToken(s, p, EscapeToken(tokens[0]), Join(tokens[1..]));
    if tokens[1..] == [] {
      assert tokens == [tokens[0]];
    } else {
      TokensOfJoin(s, e, tokens[1..]);
      assert tokens == [tokens[0]] + tokens[1..];
    }
  }

  /** Splitting undoes joining, for every list of tokens; so no two lists share a pointer. */
  lemma SplitJoin(tokens: seq<Str>)
    ensures Tokens(Join(tokens)) == Ok(tokens)
  {
    if tokens != [] {
      var s := Join(tokens);
      assert s[0..] == s;
      TokensOfJoin(s, 0, tokens);
    }
  }

  lemma {:induction false} EscapeDecoded(t: Str)
    requires WellEscaped(t) && SLASH !in t
    ensures EscapeToken(DecodeToken(t)) == t
    decreases t
  {
    if t != [] {
      var n := if t[0] == TILDE then 2 else 1;
      assert t[0] == TILDE ==> t[1] in {ZERO, ONE};
      Suffixed(t, n);
      EscapeDecoded(t[n..]);
      var c := if t[0] != TILDE then t[0] else if t[1] == ONE then SLASH else TILDE;
      assert DecodeToken(t) == [c] + DecodeToken(t[n..]);
      assert ([c] + DecodeToken(t[n..]))[1..] == DecodeToken(t[n..]);
      assert EscapeTokenByte(c) == t[..n] && t == t[..n] + t[n..];
    }
  }

  lemma {:induction false} JoinOfTokens(s: Str, start: nat)
    requires start <= |s| && TokensFrom(s, start).Ok?
    ensures [SLASH] + s[start..] == Join(TokensFrom(s, start).value)
    ensures TokensFrom(s, start).value != []
    decreases |s| - start
  {
    hide EscapeToken, UnescapeToken, WellEscaped;
    var e := SlashFrom(s, start);
    var token := s[start..e];
    EscapedOnce(token);
    if e == |s| {
      assert s[start..] == token;
      JoinOne(UnescapeToken(token), []);
    } else {
      JoinOfTokens(s, e + 1);
      JoinOne(UnescapeToken(token), TokensFrom(s, e + 1).value);
      assert s[start..] == token + ([SLASH] + s[e + 1..]);
      assert [SLASH] + s[start..] == [SLASH] + token + ([SLASH] + s[e + 1..]);
    }
  }

  lemma EscapedOnce(token: Str)
    requires WellEscaped(token) && SLASH !in token
    ensures EscapeToken(UnescapeToken(token)) == token
  {
    TwoPassesAreOne(token);
    EscapeDecoded(token);
  }

  lemma JoinOne(token: Str, rest: seq<Str>)
    ensures Join([token] + rest) == [SLASH] + EscapeToken(token) + Join(rest)
    ensures Join([token]) == [SLASH] + EscapeToken(token)
  {
    assert ([token] + rest)[1..] == rest && [token][1..] == [];
    assert [SLASH] + EscapeToken(token) + [] == [SLASH] + EscapeToken(token);
  }

  lemma {:induction false} OnlyDomainErrors(s: Str, start: nat)
    requires start <= |s|
    ensures TokensFrom(s, start).Err? ==> TokensFrom(s, start).error == DomainError
    decreases |s| - start
  {
    hide WellEscaped, UnescapeToken;
    var e := SlashFrom(s, start);
    if e < |s| {
      OnlyDomainErrors(s, e + 1);
    }
  }

  lemma TokensJoin(s: Str)
    ensures Tokens(s).Ok? ==> Join(Tokens(s).value) == s
    ensures Tokens(s).Err? ==> Tokens(s) == Err(DomainError)
  {
    if s != [] && s[0] == SLASH {
      OnlyDomainErrors(s, 1);
      if TokensFrom(s, 1).Ok? {
        JoinOfTokens(s, 1);
        assert [SLASH] + s[1..] == s;
      }
    }
    hide TokensFrom;
  }

  /** A string splits exactly into the tokens it joins; it fails exactly when it is no pointer at all. */
  lemma SplitIff(s: Str)
    ensures forall tokens: seq<Str> :: Tokens(s) == Ok(tokens) <==> Join(tokens) == s
    ensures Tokens(s) == Err(DomainError) <==> forall tokens: seq<Str> :: Join(tokens) != s
  {
    hide *;
    TokensJoin(s);
    forall tokens: seq<Str> | Join(tokens) == s ensures Tokens(s) == Ok(tokens) {
      SplitJoin(tokens);
    }
  }

  lemma EscapedFirst(c: byte, rest: Str)
    ensures EscapeToken([c] + rest) == EscapeTokenByte(c) + EscapeToken(rest)
  {
    assert ([c] + rest)[1..] == rest;
  }

  lemma EscapedInside(x: byte, c: byte, y: byte)
    requires x !in {0x2F, 0x7E} && y !in {0x2F, 0x7E} && c in {0x2F, 0x7E}
    ensures EscapeToken([x, c, y]) == [x, 0x7E, if c == 0x2F then 0x31 else 0x30, y]
  {
    EscapedFirst(y, []);
    EscapedFirst(c, [y]);
    EscapedFirst(x, [c, y]);
    assert [y] + [] == [y] && [c] + [y] == [c, y] && [x] + [c, y] == [x, c, y];
    assert EscapeTokenByte(c) == [0x7E, if c == 0x2F then 0x31 else 0x30];
    assert EscapeTokenByte(x) == [x] && EscapeTokenByte(y) == [y];
  }

  /** The tokens a/b and m~n, in the letters of RFC 6901, section 5. */
  lemma KnownPointer(s: Str, a: Str, m: Str)
    requires s == [0x2F, 0x61, 0x7E, 0x31, 0x62, 0x2F, 0x6D, 0x7E, 0x30, 0x6E]
    requires a == [0x61, 0x2F, 0x62] && m == [0x6D, 0x7E, 0x6E]
    ensures Tokens(s) == Ok([a, m])
  {
    hide EscapeToken, UnescapeToken, Tokens, Join;
    EscapedInside(0x61, 0x2F, 0x62);
    EscapedInside(0x6D, 0x7E, 0x6E);
    JoinOne(a, [m]);
    JoinOne(m, []);
    assert [a] + [m] == [a, m];
    assert Join([a, m]) == [0x2F] + [0x61, 0x7E, 0x31, 0x62] + ([0x2F] + [0x6D, 0x7E, 0x30, 0x6E]);
    assert Join([a, m]) == s;
    SplitJoin([a, m]);
  }
}
