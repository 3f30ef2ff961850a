/**
 How a command goes out: a header made once for each command name, and length-prefixed arguments,
 written into a buffer of fixed size that refuses what might not fit.
 */
module RespCommand {
  import opened Bytes
  import opened RedisWire

  // ---------------------------------------------------------------- what is sent

  /** One length-prefixed byte string; the length is cut to an unsigned int. */
  function EncodeArg(arg: Str): Str {
    [DOLLAR] + Decimal(|arg| % TWO_TO_32) + CRLF + arg + CRLF
  }

  function EncodeArgs(args: seq<Str>): Str {
    if args == [] then [] else EncodeArgs(args[..|args| - 1]) + EncodeArg(args[|args| - 1])
  }

  /** Command's constructor. */
  function Header(name: Str, numArgs: nat): Str {
    [STAR] + Decimal(numArgs + 1) + CRLF + [DOLLAR] + Decimal(|name|) + CRLF + name + CRLF
  }

  function EncodeCommand(name: Str, args: seq<Str>): Str {
    Header(name, |args|) + EncodeArgs(args)
  }

  // ---------------------------------------------------------------- the buffer

  /** What writeArg checks space for: a dollar sign, 11 for the length, and two line endings. */
  const ARG_OVERHEAD: nat := 1 + 11 + 4

  class Buffer {
    const buffer: array<byte>
    var spot: nat
    var marked: nat

    ghost predicate Valid()
      reads this
    {
      marked <= spot <= buffer.Length
    }

    ghost function Contents(): Str
      reads this, buffer
      requires Valid()
    {
      buffer[..spot]
    }

    constructor (bufferSize: nat)
      ensures Valid() && fresh(buffer) && buffer.Length == bufferSize && Contents() == [] && marked == 0
    {
      buffer := new byte[bufferSize](_ => 0);
      spot := 0;
      marked := 0;
    }

    /** checkSpace, where false is the exception: one byte must stay free. */
    method CheckSpace(needed: nat) returns (ok: bool)
      ensures ok <==> spot + needed < buffer.Length
    {
      return !(spot + needed >= buffer.Length);
    }

    /** memcpy to the current spot. */
    method Put(str: Str)
      requires Valid() && spot + |str| <= buffer.Length
      modifies this`spot, buffer
      ensures Valid() && Contents() == old(Contents()) + str && spot == old(spot) + |str|
    {
      forall i | 0 <= i < |str| {
        buffer[spot + i] := str[i];
      }
      spot := spot + |str|;
      assert buffer[..spot] == old(buffer[..spot]) + str;
    }

    method Write(str: Str) returns (ok: bool)
      requires Valid()
      modifies this`spot, buffer
      ensures Valid() && (ok <==> old(spot) + |str| < buffer.Length)
      ensures Contents() == if ok then old(Contents()) + str else old(Contents())
    {
      ok := CheckSpace(|str|);
      if ok {
        Put(str);
      }
    }

    method WriteArg(arg: Str) returns (ok: bool)
      requires Valid()
      modifies this`spot, buffer
      ensures Valid() && (ok <==> old(spot) + |arg| + ARG_OVERHEAD < buffer.Length)
      ensures Contents() == if ok then old(Contents()) + EncodeArg(arg) else old(Contents())
    {
      hide Decimal, EncodeArg;
      ok := CheckSpace(|arg| + ARG_OVERHEAD);
      if ok {
        LengthFits(|arg| % TWO_TO_32);
        ArgParts(Contents(), arg);
        Put([DOLLAR]);
        Put(Decimal(|arg| % TWO_TO_32));
        Put(CRLF);
        Put(arg);
        Put(CRLF);
      }
    }

    method Mark()
      requires Valid()
      modifies this`marked
      ensures Valid() && marked == spot
    {
      marked := spot;
    }

    method ResetToMark()
      requires Valid()
      modifies this`spot
      ensures Valid() && Contents() == old(buffer[..marked]) && spot == marked
    {
      spot := marked;
    }

    /** Command::execute behind resetToMark; false at the first piece that does not fit into the buffer. */
    method Execute(header: Str, args: seq<Str>) returns (ok: bool)
      requires Valid()
      modifies this`spot, buffer
      ensures Valid() && (ok ==> Contents() == old(buffer[..marked]) + header + EncodeArgs(args))
      ensures ok <==> PiecesFit(marked, header, args, buffer.Length)
      ensures |header| + Room(args) + marked < buffer.Length ==> ok
    {
      hide EncodeArgs, EncodeArg, Room;
      ResetToMark();
      ok := Write(header);
      if !ok {
        return;
      }
      ghost var start := Contents();
      NoArgs();
      assert start + [] == start;
      var i := 0;
      assert args[..0] == [];
      while i < |args|
        invariant i <= |args| && Valid() && Contents() == start + EncodeArgs(args[..i])
        invariant spot <= marked + |header| + Room(args[..i])
        invariant spot == marked + |header| + |EncodeArgs(args[..i])|
        invariant forall j :: 0 <= j < i ==> PieceFits(marked, header, args, j, buffer.Length)
      {
        var arg := args[i];
        assert PieceFits(marked, header, args, i, buffer.Length) <==> spot + |arg| + ARG_OVERHEAD < buffer.Length;
        ok := WriteArg(arg);
        RoomGrows(args, i);
        Appending(start, EncodeArgs(args[..i]), EncodeArg(arg));
        if !ok {
          return;
        }
        i := i + 1;
      }
      assert args[..i] == args;
    }
  }

  /** What is checked before the i-th argument: its bytes and sixteen more stay below the end of the buffer. */
  predicate PieceFits(at: nat, header: Str, args: seq<Str>, i: nat, size: nat)
    requires i < |args|
  {
    at + |header| + |EncodeArgs(args[..i])| + |args[i]| + 16 < size
  }

  predicate PiecesFit(at: nat, header: Str, args: seq<Str>, size: nat) {
    at + |header| < size && forall i :: 0 <= i < |args| ==> PieceFits(at, header, args, i, size)
  }

  lemma ArgParts(before: Str, arg: Str)
    ensures before + [DOLLAR] + Decimal(|arg| % TWO_TO_32) + CRLF + arg + CRLF == before + EncodeArg(arg)
  {
    hide Decimal;
    var length := Decimal(|arg| % TWO_TO_32);
    Appending(before, [DOLLAR], length);
    Appending(before, [DOLLAR] + length, CRLF);
    Appending(before, [DOLLAR] + length + CRLF, arg);
    Appending(before, [DOLLAR] + length + CRLF + arg, CRLF);
  }

  lemma Appending(a: Str, b: Str, c: Str)
    ensures (a + b) + c == a + (b + c)
  {
  }

  /** Enough space for the arguments. */
  function Room(args: seq<Str>): nat {
    if args == [] then 0 else Room(args[..|args| - 1]) + |args[|args| - 1]| + ARG_OVERHEAD
  }

  lemma NoArgs()
    ensures EncodeArgs([]) == [] && Room([]) == 0
  {
  }

  lemma RoomGrows(args: seq<Str>, i: nat)
    requires i < |args|
    ensures Room(args[..i + 1]) == Room(args[..i]) + |args[i]| + ARG_OVERHEAD <= Room(args)
    ensures EncodeArgs(args[..i + 1]) == EncodeArgs(args[..i]) + EncodeArg(args[i])
    ensures |EncodeArg(args[i])| <= |args[i]| + ARG_OVERHEAD
  {
    assert args[..i + 1][..i] == args[..i];
    LengthFits(|args[i]| % TWO_TO_32);
    RoomIsMonotone(args, i + 1);
    hide Decimal;
  }

  lemma {:induction false} RoomIsMonotone(args: seq<Str>, i: nat)
    requires i <= |args|
    ensures Room(args[..i]) <= Room(args)
  {
    if i == |args| {
      assert args[..i] == args;
    } else {
      RoomIsMonotone(args[..|args| - 1], i);
      assert args[..|args| - 1][..i] == args[..i];
    }
  }

  /** An unsigned int has at most ten digits, so the eleven checked for are enough. */
  lemma LengthFits(n: nat)
    requires n < TWO_TO_32
    ensures |Decimal(n)| <= 10
  {
    DigitsBound(n, 10);
  }

  lemma {:induction false} DigitsBound(n: nat, d: nat)
    requires d > 0 && n < Power10(d)
    ensures |Decimal(n)| <= d
  {
    if n >= 10 {
      DigitsBound(n / 10, d - 1);
    }
  }

  function Power10(d: nat): nat {
    if d == 0 then 1 else 10 * Power10(d - 1)
  }

  // ---------------------------------------------------------------- reading it back

  /** A count behind its code byte, up to the end of its line. */
  function TakeCount(s: Str, code: byte): Option<(nat, Str)> {
    if s == [] || s[0] != code then None
    else
      match ExtractDigits(s[1..])
      case None => None
      case Some((n, rest)) => if |rest| >= 2 && rest[..2] == CRLF then Some((n, rest[2..])) else None
  }

  function TakeString(s: Str): Option<(Str, Str)> {
    match TakeCount(s, DOLLAR)
    case None => None
    case Some((n, rest)) =>
      if |rest| >= n + 2 && rest[n..n + 2] == CRLF then Some((rest[..n], rest[n + 2..])) else None
  }

  function TakeStrings(s: Str, n: nat): Option<(seq<Str>, Str)> {
    if n == 0 then Some(([], s))
    else
      match TakeString(s)
      case None => None
      case Some((first, rest)) =>
        match TakeStrings(rest, n - 1)
        case None => None
        case Some((more, end)) => Some(([first] + more, end))
  }

  /** A server's reading of a command: an array of byte strings. */
  function Decode(s: Str): Option<(seq<Str>, Str)> {
    match TakeCount(s, STAR)
    case None => None
    case Some((n, rest)) => TakeStrings(rest, n)
  }

  lemma CountIsTaken(n: nat, code: byte, s: Str)
    ensures TakeCount([code] + Decimal(n) + CRLF + s, code) == Some((n, s))
  {
    hide Decimal, ExtractDigits;
    DigitsAreRead(n, CRLF + s);
    var t := [code] + Decimal(n) + CRLF + s;
    assert t[0] == code && t[1..] == Decimal(n) + (CRLF + s);
    assert (CRLF + s)[..2] == CRLF && (CRLF + s)[2..] == s;
  }

  function LengthPrefixed(text: Str): Str {
    [DOLLAR] + Decimal(|text|) + CRLF + text + CRLF
  }

  lemma StringIsTaken(text: Str, s: Str)
    ensures TakeString(LengthPrefixed(text) + s) == Some((text, s))
  {
    var rest := text + CRLF + s;
    CountIsTaken(|text|, DOLLAR, rest);
    hide Decimal, TakeCount;
    assert LengthPrefixed(text) + s == [DOLLAR] + Decimal(|text|) + CRLF + rest;
    assert rest[..|text|] == text && rest[|text|..|text| + 2] == CRLF && rest[|text| + 2..] == s;
  }

  function AllPrefixed(texts: seq<Str>): Str {
    if texts == [] then [] else LengthPrefixed(texts[0]) + AllPrefixed(texts[1..])
  }

  lemma {:induction false} StringsAreTaken(texts: seq<Str>, s: Str)
    ensures TakeStrings(AllPrefixed(texts) + s, |texts|) == Some((texts, s))
  {
    hide TakeString, LengthPrefixed;
    if texts == [] {
      assert AllPrefixed(texts) + s == s;
    } else {
      var rest := AllPrefixed(texts[1..]) + s;
      assert AllPrefixed(texts) + s == LengthPrefixed(texts[0]) + rest;
      StringIsTaken(texts[0], rest);
      StringsAreTaken(texts[1..], s);
      assert [texts[0]] + texts[1..] == texts;
    }
  }

  lemma {:induction false} PrefixedSnoc(texts: seq<Str>, last: Str)
    ensures AllPrefixed(texts + [last]) == AllPrefixed(texts) + LengthPrefixed(last)
  {
    hide LengthPrefixed;
    if texts == [] {
      assert texts + [last] == [last] && [last][1..] == [];
      assert LengthPrefixed(last) + [] == LengthPrefixed(last);
    } else {
      assert (texts + [last])[1..] == texts[1..] + [last];
      PrefixedSnoc(texts[1..], last);
    }
  }

  lemma {:induction false} ArgsArePrefixed(name: Str, args: seq<Str>)
    requires forall k :: 0 <= k < |args| ==> |args[k]| < TWO_TO_32
    ensures LengthPrefixed(name) + EncodeArgs(args) == AllPrefixed([name] + args)
  {
    hide LengthPrefixed;
    if args == [] {
      assert [name] + args == [name] && [name][1..] == [];
      assert LengthPrefixed(name) + [] == LengthPrefixed(name);
    } else {
      var front, last := args[..|args| - 1], args[|args| - 1];
      ArgsArePrefixed(name, front);
      assert [name] + args == ([name] + front) + [last];
      PrefixedSnoc([name] + front, last);
      ArgIsPrefixed(last);
    }
  }

  lemma ArgIsPrefixed(arg: Str)
    requires |arg| < TWO_TO_32
    ensures EncodeArg(arg) == LengthPrefixed(arg)
  {
    hide Decimal;
  }

  /** Every command is read back: its name and each binary argument, and nothing more. */
  lemma CommandRoundTrip(name: Str, args: seq<Str>, s: Str)
    requires forall k :: 0 <= k < |args| ==> |args[k]| < TWO_TO_32
    ensures Decode(EncodeCommand(name, args) + s) == Some(([name] + args, s))
  {
    var count, all := [STAR] + Decimal(|args| + 1) + CRLF, [name] + args;
    ArgsArePrefixed(name, args);
    HeaderParts(name, |args|);
    hide *;
    assert EncodeCommand(name, args) + s == count + (AllPrefixed(all) + s) by { CommandParts(name, args); }
    CountIsTaken(|args| + 1, STAR, AllPrefixed(all) + s);
    StringsAreTaken(all, s);
    DecodeParts(EncodeCommand(name, args) + s);
  }

  /** The command LLEN of one argument, byte by byte: the example of the Redis protocol specification. */
  lemma KnownCommand(name: Str, arg: Str)
    requires name == [0x4C, 0x4C, 0x45, 0x4E] && arg == [0x6D, 0x79, 0x6C, 0x69, 0x73, 0x74]
    ensures EncodeCommand(name, [arg])
         == [0x2A, 0x32, 0x0D, 0x0A, 0x24, 0x34, 0x0D, 0x0A] + name + [0x0D, 0x0A]
            + [0x24, 0x36, 0x0D, 0x0A] + arg + [0x0D, 0x0A]
  {
    assert Decimal(2) == [0x32] && Decimal(4) == [0x34] && Decimal(6) == [0x36];
    assert [arg][..0] == [];
    assert EncodeArgs([arg]) == [] + EncodeArg(arg);
    hide Decimal;
  }

  lemma HeaderParts(name: Str, n: nat)
    ensures Header(name, n) == [STAR] + Decimal(n + 1) + CRLF + LengthPrefixed(name)
  {
    hide Decimal;
  }

  lemma CommandParts(name: Str, args: seq<Str>)
    ensures EncodeCommand(name, args) == Header(name, |args|) + EncodeArgs(args)
  {
  }

  lemma DecodeParts(s: Str)
    ensures TakeCount(s, STAR).Some? ==>
      Decode(s) == TakeStrings(TakeCount(s, STAR).value.1, TakeCount(s, STAR).value.0)
  {
  }
}
