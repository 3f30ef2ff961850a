/**
 The hash slot of a key: the checksum of the key's bytes, or of its hash tag (Redis Cluster
 specification, "Key distribution model" and "Hash tags").
 */
module SlotHash {
  import opened Bytes
  import opened CrcRegister

  // ---------------------------------------------------------------- the remainder of the message's bits

  /** The first `n` bits of `y`, from the top. */
  function TopBits(y: bv16, n: nat): seq<bool>
    decreases n
  {
    if n == 0 then [] else [y & 0x8000 != 0] + TopBits(y << 1, n - 1)
  }

  /** (unsigned char) */
  function Unsigned(b: byte): (x: bv16)
    ensures x < 0x100
  {
    b as bv16
  }

  /** A message's bits, most significant first in each byte. */
  function Bits(s: Str): seq<bool> {
    if s == [] then [] else Bits(s[..|s| - 1]) + TopBits(High(Unsigned(s[|s| - 1])), 8)
  }

  /** The remainder of the message's bits, with initial value 0. */
  function Remainder(bits: seq<bool>): bv16 {
    if bits == [] then 0 else Feed(Remainder(bits[..|bits| - 1]), bits[|bits| - 1])
  }

  method Crc16(buf: Str) returns (crc: bv16)
    ensures crc == Remainder(Bits(buf))
  {
    hide Bits, Remainder, FeedBits, Next, High, Unsigned;
    Empty();
    crc := 0;
    var counter := 0;
    assert buf[..0] == [];
    while counter < |buf|
      invariant counter <= |buf| && crc == Remainder(Bits(buf[..counter]))
    {
      assert buf[..counter + 1] == buf[..counter] + [buf[counter]];
      ByteIn(buf[..counter], buf[counter]);
      ByteAtOnce(crc, Unsigned(buf[counter]));
      crc := Next(crc, Unsigned(buf[counter]));
      counter := counter + 1;
    }
    assert buf[..|buf|] == buf;
  }

  lemma Empty()
    ensures Remainder(Bits([])) == 0
  {
  }

  lemma RemainderSnoc(bits: seq<bool>, bit: bool)
    ensures Remainder(bits + [bit]) == Feed(Remainder(bits), bit)
  {
    assert (bits + [bit])[..|bits|] == bits;
  }

  lemma {:induction false} BitsIn(bits: seq<bool>, y: bv16, n: nat)
    ensures Remainder(bits + TopBits(y, n)) == FeedBits(Remainder(bits), y, n)
    decreases n
  {
    hide Feed;
    if n == 0 {
      assert bits + [] == bits;
    } else {
      var bit := y & 0x8000 != 0;
      assert bits + TopBits(y, n) == bits + [bit] + TopBits(y << 1, n - 1);
      RemainderSnoc(bits, bit);
      BitsIn(bits + [bit], y << 1, n - 1);
    }
  }

  lemma ByteIn(s: Str, b: byte)
    ensures Remainder(Bits(s + [b])) == FeedBits(Remainder(Bits(s)), High(Unsigned(b)), 8)
  {
    hide Feed, Remainder, FeedBits, TopBits, High, Unsigned;
    assert (s + [b])[..|s|] == s;
    BitsIn(Bits(s), High(Unsigned(b)), 8);
  }

  // ---------------------------------------------------------------- hash tags and slots

  const OPEN_BRACE: byte := 0x7B
  const CLOSE_BRACE: byte := 0x7D
  const SLOTS: nat := 0x4000

  /** The hash slot of the hashed part of a key. */
  function SlotOf(s: Str): (slot: nat)
    ensures slot < SLOTS
  {
    Masked(Remainder(Bits(s)))
  }

  /** The lowest 14 bits. */
  function Masked(x: bv16): (n: nat)
    ensures n < SLOTS
  {
    LowBits(x);
    (x & 0x3FFF) as nat
  }

  lemma LowBits(x: bv16)
    ensures ((x & 0x3FFF) as nat) < SLOTS
  {
    assert x & 0x3FFF < 0x4000;
  }

  lemma LowAndHighBits(x: bv16)
    ensures x as nat
         == (x & 0x3FFF) as nat + (if x & 0x4000 != 0 then 0x4000 else 0) + (if x & 0x8000 != 0 then 0x8000 else 0)
  {
  }

  lemma Modulo(n: nat, low: nat, fourteenth: bool, fifteenth: bool)
    requires n == low + (if fourteenth then 0x4000 else 0) + (if fifteenth then 0x8000 else 0) && low < 0x4000
    ensures low == n % 16384
  {
  }

  /** The slot is the checksum modulo 16384. */
  lemma SlotIsRemainder(s: Str)
    ensures SlotOf(s) == (Remainder(Bits(s)) as nat) % 16384
  {
    hide Remainder, Bits, Masked;
    MaskIsModulo(Remainder(Bits(s)));
  }

  lemma MaskIsModulo(x: bv16)
    ensures Masked(x) == (x as nat) % 16384
  {
    LowBits(x);
    LowAndHighBits(x);
    Modulo(x as nat, (x & 0x3FFF) as nat, x & 0x4000 != 0, x & 0x8000 != 0);
  }

  lemma ByteTaken(s: Str, crc: bv16, b: byte, crc': bv16)
    requires Remainder(Bits(s)) == crc && Next(crc, Unsigned(b)) == crc'
    ensures Remainder(Bits(s + [b])) == crc'
  {
    hide Remainder, Bits, Next, FeedBits, High, Unsigned;
    ByteIn(s, b);
    ByteAtOnce(crc, Unsigned(b));
  }

  lemma CheckSteps0()
    ensures Next(0x0000, 0x31) == 0x2672 && Unsigned(0x31) == 0x31
    ensures Next(0x2672, 0x32) == 0x20B5 && Unsigned(0x32) == 0x32
    ensures Next(0x20B5, 0x33) == 0x9752 && Unsigned(0x33) == 0x33
  {
  }

  lemma CheckSteps1()
    ensures Next(0x9752, 0x34) == 0xD789 && Unsigned(0x34) == 0x34
    ensures Next(0xD789, 0x35) == 0x546C && Unsigned(0x35) == 0x35
    ensures Next(0x546C, 0x36) == 0x20E4 && Unsigned(0x36) == 0x36
  {
  }

  lemma CheckSteps2()
    ensures Next(0x20E4, 0x37) == 0x86D6 && Unsigned(0x37) == 0x37
    ensures Next(0x86D6, 0x38) == 0x9015 && Unsigned(0x38) == 0x38
    ensures Next(0x9015, 0x39) == 0x31C3 && Unsigned(0x39) == 0x39
  {
  }

  /** The check value of this checksum: the nine digits give 0x31C3, and with it slot 12739. */
  lemma CheckValue(digits: Str)
    requires digits == [0x31, 0x32, 0x33, 0x34, 0x35, 0x36, 0x37, 0x38, 0x39]
    ensures Remainder(Bits(digits)) == 0x31C3 && SlotOf(digits) == 12739
  {
    CheckSteps0();
    CheckSteps1();
    CheckSteps2();
    hide Remainder, Bits, Next, Unsigned;
    Empty();
    ByteTaken([], 0x0000, 0x31, 0x2672);
    assert [] + [0x31] == [0x31];
    ByteTaken([0x31], 0x2672, 0x32, 0x20B5);
    assert [0x31] + [0x32] == [0x31, 0x32];
    ByteTaken([0x31, 0x32], 0x20B5, 0x33, 0x9752);
    assert [0x31, 0x32] + [0x33] == [0x31, 0x32, 0x33];
    ByteTaken([0x31, 0x32, 0x33], 0x9752, 0x34, 0xD789);
    assert [0x31, 0x32, 0x33] + [0x34] == [0x31, 0x32, 0x33, 0x34];
    ByteTaken([0x31, 0x32, 0x33, 0x34], 0xD789, 0x35, 0x546C);
    assert [0x31, 0x32, 0x33, 0x34] + [0x35] == [0x31, 0x32, 0x33, 0x34, 0x35];
    ByteTaken([0x31, 0x32, 0x33, 0x34, 0x35], 0x546C, 0x36, 0x20E4);
    assert [0x31, 0x32, 0x33, 0x34, 0x35] + [0x36] == [0x31, 0x32, 0x33, 0x34, 0x35, 0x36];
    ByteTaken([0x31, 0x32, 0x33, 0x34, 0x35, 0x36], 0x20E4, 0x37, 0x86D6);
    assert [0x31, 0x32, 0x33, 0x34, 0x35, 0x36] + [0x37] == [0x31, 0x32, 0x33, 0x34, 0x35, 0x36, 0x37];
    ByteTaken([0x31, 0x32, 0x33, 0x34, 0x35, 0x36, 0x37], 0x86D6, 0x38, 0x9015);
    assert [0x31, 0x32, 0x33, 0x34, 0x35, 0x36, 0x37] + [0x38] == [0x31, 0x32, 0x33, 0x34, 0x35, 0x36, 0x37, 0x38];
    ByteTaken([0x31, 0x32, 0x33, 0x34, 0x35, 0x36, 0x37, 0x38], 0x9015, 0x39, 0x31C3);
    assert [0x31, 0x32, 0x33, 0x34, 0x35, 0x36, 0x37, 0x38] + [0x39] == digits;
    SlotIsRemainder(digits);
  }

  /** The first place of `b` in `s` at `p` or later, or the end. */
  function Find(s: Str, p: nat, b: byte): (k: nat)
    requires p <= |s|
    ensures p <= k <= |s| && (k < |s| ==> s[k] == b) && forall i :: p <= i < k ==> s[i] != b
    decreases |s| - p
  {
    if p == |s| || s[p] == b then p else Find(s, p + 1, b)
  }

  /** What is hashed: the part in the first braces, or the whole key. */
  function Hashed(key: Str): Str {
    var s := Find(key, 0, OPEN_BRACE);
    if s == |key| then key
    else
      var e := Find(key, s + 1, CLOSE_BRACE);
      if e == |key| || e == s + 1 then key else key[s + 1..e]
  }

  method SlotByKey(key: Str) returns (slot: nat)
    ensures slot == SlotOf(Hashed(key)) && slot < SLOTS
  {
    hide SlotOf, Remainder, Bits;
    var s := 0;
    while s < |key| && key[s] != OPEN_BRACE
      invariant s <= |key| && Find(key, 0, OPEN_BRACE) == Find(key, s, OPEN_BRACE)
    {
      s := s + 1;
    }
    if s == |key| {
      slot := MaskedCrc(key);
      return;
    }
    var e := s + 1;
    while e < |key| && key[e] != CLOSE_BRACE
      invariant s < e <= |key| && Find(key, s + 1, CLOSE_BRACE) == Find(key, e, CLOSE_BRACE)
    {
      e := e + 1;
    }
    if e == |key| || e == s + 1 {
      slot := MaskedCrc(key);
      return;
    }
    slot := MaskedCrc(key[s + 1..e]);
  }

  /** crc16(buf, len) & 0x3FFF */
  method MaskedCrc(buf: Str) returns (slot: nat)
    ensures slot == SlotOf(buf) && slot < SLOTS
  {
    hide Remainder, Bits, Masked;
    var crc := Crc16(buf);
    slot := Masked(crc);
  }

  /** A hash tag: the first opening brace, the first closing brace behind it, and something in between. */
  predicate TagAt(key: Str, s: nat, e: nat) {
    && s + 1 < e < |key| && key[s] == 0x7B && key[e] == 0x7D
    && (forall i :: 0 <= i < s ==> key[i] != 0x7B)
    && (forall i :: s < i < e ==> key[i] != 0x7D)
  }

  /** The tag is hashed if there is one, and otherwise the key. */
  lemma HashedIsTagOrKey(key: Str)
    ensures forall s: nat, e: nat | TagAt(key, s, e) :: Hashed(key) == key[s + 1..e]
    ensures (forall s: nat, e: nat :: !TagAt(key, s, e)) ==> Hashed(key) == key
  {
    var s := Find(key, 0, OPEN_BRACE);
    forall s': nat, e: nat | TagAt(key, s', e) ensures Hashed(key) == key[s' + 1..e] {
      TagIsFound(key, s', e);
    }
    if s < |key| {
      var e := Find(key, s + 1, CLOSE_BRACE);
      if e < |key| && e > s + 1 {
        assert TagAt(key, s, e);
      }
    }
  }

  lemma TagIsFound(key: Str, s: nat, e: nat)
    requires TagAt(key, s, e)
    ensures Find(key, 0, OPEN_BRACE) == s && Find(key, s + 1, CLOSE_BRACE) == e
  {
    var k, l := Find(key, 0, OPEN_BRACE), Find(key, s + 1, CLOSE_BRACE);
    assert key[s] == OPEN_BRACE && key[e] == CLOSE_BRACE;
    assert !(s < k) && !(e < l);
  }

  /** Keys with the same tag share their slot, whatever surrounds the braces. */
  lemma SameTagSameSlot(a: Str, s: nat, e: nat, b: Str, t: nat, f: nat)
    requires TagAt(a, s, e) && TagAt(b, t, f) && a[s + 1..e] == b[t + 1..f]
    ensures SlotOf(Hashed(a)) == SlotOf(Hashed(b))
  {
    hide SlotOf, Hashed;
    HashedIsTagOrKey(a);
    HashedIsTagOrKey(b);
  }
}
