/**
 The 16-bit register of the checksum: the table's entries against the division by x^16 + x^12 + x^5 + 1,
 one bit at a time (Redis Cluster specification, "Appendix A: CRC16 reference implementation").
 */
module CrcRegister {

  function Xor(x: bv16, y: bv16): bv16 {
    x ^ y
  }

  /** One step of the division by x^16 + x^12 + x^5 + 1: the next bit of the message comes in. */
  function Feed(r: bv16, bit: bool): bv16 {
    if (r & 0x8000 != 0) != bit then Xor(r << 1, 0x1021) else r << 1
  }

  /** The register after the first `n` bits of `y`, from the top. */
  function FeedBits(r: bv16, y: bv16, n: nat): bv16
    decreases n
  {
    if n == 0 then r else FeedBits(Feed(r, y & 0x8000 != 0), y << 1, n - 1)
  }

  // ---------------------------------------------------------------- the table

  /** One line of the table, of which the last three bits of `i` choose an entry. */
  function Pick(i: bv16, a: bv16, b: bv16, c: bv16, d: bv16, e: bv16, f: bv16, g: bv16, h: bv16): bv16 {
    if i & 4 == 0 then
      if i & 2 == 0 then (if i & 1 == 0 then a else b) else (if i & 1 == 0 then c else d)
    else
      if i & 2 == 0 then (if i & 1 == 0 then e else f) else (if i & 1 == 0 then g else h)
  }

  /** crc16tab[i] for i below 256 */
  function Crc16Tab(i: bv16): bv16 {
    match i >> 3
    case 0 => Pick(i, 0x0000, 0x1021, 0x2042, 0x3063, 0x4084, 0x50a5, 0x60c6, 0x70e7)
    case 1 => Pick(i, 0x8108, 0x9129, 0xa14a, 0xb16b, 0xc18c, 0xd1ad, 0xe1ce, 0xf1ef)
    case 2 => Pick(i, 0x1231, 0x0210, 0x3273, 0x2252, 0x52b5, 0x4294, 0x72f7, 0x62d6)
    case 3 => Pick(i, 0x9339, 0x8318, 0xb37b, 0xa35a, 0xd3bd, 0xc39c, 0xf3ff, 0xe3de)
    case 4 => Pick(i, 0x2462, 0x3443, 0x0420, 0x1401, 0x64e6, 0x74c7, 0x44a4, 0x5485)
    case 5 => Pick(i, 0xa56a, 0xb54b, 0x8528, 0x9509, 0xe5ee, 0xf5cf, 0xc5ac, 0xd58d)
    case 6 => Pick(i, 0x3653, 0x2672, 0x1611, 0x0630, 0x76d7, 0x66f6, 0x5695, 0x46b4)
    case 7 => Pick(i, 0xb75b, 0xa77a, 0x9719, 0x8738, 0xf7df, 0xe7fe, 0xd79d, 0xc7bc)
    case 8 => Pick(i, 0x48c4, 0x58e5, 0x6886, 0x78a7, 0x0840, 0x1861, 0x2802, 0x3823)
    case 9 => Pick(i, 0xc9cc, 0xd9ed, 0xe98e, 0xf9af, 0x8948, 0x9969, 0xa90a, 0xb92b)
    case 10 => Pick(i, 0x5af5, 0x4ad4, 0x7ab7, 0x6a96, 0x1a71, 0x0a50, 0x3a33, 0x2a12)
    case 11 => Pick(i, 0xdbfd, 0xcbdc, 0xfbbf, 0xeb9e, 0x9b79, 0x8b58, 0xbb3b, 0xab1a)
    case 12 => Pick(i, 0x6ca6, 0x7c87, 0x4ce4, 0x5cc5, 0x2c22, 0x3c03, 0x0c60, 0x1c41)
    case 13 => Pick(i, 0xedae, 0xfd8f, 0xcdec, 0xddcd, 0xad2a, 0xbd0b, 0x8d68, 0x9d49)
    case 14 => Pick(i, 0x7e97, 0x6eb6, 0x5ed5, 0x4ef4, 0x3e13, 0x2e32, 0x1e51, 0x0e70)
    case 15 => Pick(i, 0xff9f, 0xefbe, 0xdfdd, 0xcffc, 0xbf1b, 0xaf3a, 0x9f59, 0x8f78)
    case 16 => Pick(i, 0x9188, 0x81a9, 0xb1ca, 0xa1eb, 0xd10c, 0xc12d, 0xf14e, 0xe16f)
    case 17 => Pick(i, 0x1080, 0x00a1, 0x30c2, 0x20e3, 0x5004, 0x4025, 0x7046, 0x6067)
    case 18 => Pick(i, 0x83b9, 0x9398, 0xa3fb, 0xb3da, 0xc33d, 0xd31c, 0xe37f, 0xf35e)
    case 19 => Pick(i, 0x02b1, 0x1290, 0x22f3, 0x32d2, 0x4235, 0x5214, 0x6277, 0x7256)
    case 20 => Pick(i, 0xb5ea, 0xa5cb, 0x95a8, 0x8589, 0xf56e, 0xe54f, 0xd52c, 0xc50d)
    case 21 => Pick(i, 0x34e2, 0x24c3, 0x14a0, 0x0481, 0x7466, 0x6447, 0x5424, 0x4405)
    case 22 => Pick(i, 0xa7db, 0xb7fa, 0x8799, 0x97b8, 0xe75f, 0xf77e, 0xc71d, 0xd73c)
    case 23 => Pick(i, 0x26d3, 0x36f2, 0x0691, 0x16b0, 0x6657, 0x7676, 0x4615, 0x5634)
    case 24 => Pick(i, 0xd94c, 0xc96d, 0xf90e, 0xe92f, 0x99c8, 0x89e9, 0xb98a, 0xa9ab)
    case 25 => Pick(i, 0x5844, 0x4865, 0x7806, 0x6827, 0x18c0, 0x08e1, 0x3882, 0x28a3)
    case 26 => Pick(i, 0xcb7d, 0xdb5c, 0xeb3f, 0xfb1e, 0x8bf9, 0x9bd8, 0xabbb, 0xbb9a)
    case 27 => Pick(i, 0x4a75, 0x5a54, 0x6a37, 0x7a16, 0x0af1, 0x1ad0, 0x2ab3, 0x3a92)
    case 28 => Pick(i, 0xfd2e, 0xed0f, 0xdd6c, 0xcd4d, 0xbdaa, 0xad8b, 0x9de8, 0x8dc9)
    case 29 => Pick(i, 0x7c26, 0x6c07, 0x5c64, 0x4c45, 0x3ca2, 0x2c83, 0x1ce0, 0x0cc1)
    case 30 => Pick(i, 0xef1f, 0xff3e, 0xcf5d, 0xdf7c, 0xaf9b, 0xbfba, 0x8fd9, 0x9ff8)
    case _ => Pick(i, 0x6e17, 0x7e36, 0x4e55, 0x5e74, 0x2e93, 0x3eb2, 0x0ed1, 0x1ef0)
  }

  // ---------------------------------------------------------------- why the table works

  /** A step without a new bit. */
  function Shift(c: bv16): bv16 {
    if c & 0x8000 != 0 then Xor(c << 1, 0x1021) else c << 1
  }

  function ShiftBy(c: bv16, n: nat): bv16
    decreases n
  {
    if n == 0 then c else ShiftBy(Shift(c), n - 1)
  }

  function LeftBy(y: bv16, n: nat): bv16
    decreases n
  {
    if n == 0 then y else LeftBy(y << 1, n - 1)
  }

  lemma XorAssociates(x: bv16, y: bv16, z: bv16)
    ensures Xor(x, Xor(y, z)) == Xor(Xor(x, y), z)
  {
  }

  lemma XorCommutes(x: bv16, y: bv16)
    ensures Xor(x, y) == Xor(y, x)
  {
  }

  lemma XorCancels(x: bv16)
    ensures Xor(Xor(x, 0x1021), 0x1021) == x
  {
  }

  lemma PolynomialMoves(x: bv16, y: bv16)
    ensures Xor(x, Xor(y, 0x1021)) == Xor(Xor(x, 0x1021), y) == Xor(Xor(x, y), 0x1021)
  {
    hide *;
    XorAssociates(x, y, 0x1021);
    XorAssociates(x, 0x1021, y);
    XorCommutes(y, 0x1021);
  }

  lemma XorShifts(x: bv16, y: bv16)
    ensures Xor(x, y) << 1 == Xor(x << 1, y << 1)
  {
  }

  lemma XorTopBit(x: bv16, y: bv16)
    ensures (Xor(x, y) & 0x8000 != 0) == ((x & 0x8000 != 0) != (y & 0x8000 != 0))
  {
  }

  lemma ShiftIsLinear(x: bv16, y: bv16)
    ensures Shift(Xor(x, y)) == Xor(Shift(x), Shift(y))
  {
    hide Xor;
    XorShifts(x, y);
    XorTopBit(x, y);
    PolynomialMoves(x << 1, y << 1);
    PolynomialMoves(Xor(x << 1, 0x1021), y << 1);
    XorCancels(Xor(x << 1, y << 1));
  }

  lemma {:induction false} ShiftsAreLinear(x: bv16, y: bv16, n: nat)
    ensures ShiftBy(Xor(x, y), n) == Xor(ShiftBy(x, n), ShiftBy(y, n))
    decreases n
  {
    hide Shift, Xor;
    if n > 0 {
      ShiftIsLinear(x, y);
      ShiftsAreLinear(Shift(x), Shift(y), n - 1);
    }
  }

  /** Feeding a bit is shifting, and then putting the polynomial in if the bit is set. */
  lemma FeedIsShift(r: bv16, bit: bool)
    ensures Feed(r, bit) == if bit then Xor(Shift(r), 0x1021) else Shift(r)
  {
    hide Xor;
    XorCancels(r << 1);
  }

  /** A bit coming in is the same as that bit standing on top of the register. */
  lemma BitOnTop(r: bv16, y: bv16)
    ensures Shift(Xor(r, y)) == Xor(Feed(r, y & 0x8000 != 0), y << 1)
  {
    hide Xor, Feed;
    ShiftIsLinear(r, y);
    FeedIsShift(r, y & 0x8000 != 0);
    PolynomialMoves(Shift(r), y << 1);
  }

  lemma {:induction false} BitsOnTop(r: bv16, y: bv16, n: nat)
    ensures ShiftBy(Xor(r, y), n) == Xor(FeedBits(r, y, n), LeftBy(y, n))
    decreases n
  {
    hide Shift, Xor, Feed;
    if n > 0 {
      BitOnTop(r, y);
      BitsOnTop(Feed(r, y & 0x8000 != 0), y << 1, n - 1);
    }
  }

  function Shift8(c: bv16): bv16 {
    Shift(Shift(Shift(Shift(Shift(Shift(Shift(Shift(c))))))))
  }

  lemma EightShifts(c: bv16)
    ensures ShiftBy(c, 8) == Shift8(c)
  {
    hide Shift;
    assert ShiftBy(c, 8) == ShiftBy(Shift(Shift(c)), 6);
    var c4 := Shift(Shift(Shift(Shift(c))));
    assert ShiftBy(Shift(Shift(c)), 6) == ShiftBy(c4, 4) == ShiftBy(Shift(Shift(c4)), 2);
  }

  lemma NothingLeft(x: bv16)
    requires x < 0x100
    ensures LeftBy(x << 8, 8) == 0
  {
    assert LeftBy(x << 8, 8) == LeftBy(x << 10, 6) == LeftBy(x << 12, 4) == LeftBy(x << 14, 2);
  }

  lemma ByteOnTop(r: bv16, x: bv16)
    requires x < 0x100
    ensures FeedBits(r, High(x), 8) == Shift8(Xor(r, High(x)))
  {
    hide Shift, Feed, Shift8, FeedBits, LeftBy, ShiftBy;
    BitsOnTop(r, x << 8, 8);
    NothingLeft(x);
    EightShifts(Xor(r, x << 8));
  }

  lemma LowByteShifts(x: bv16)
    requires x < 0x100
    ensures Shift8(x) == High(x)
  {
  }

  /** The table holds what eight steps make of a high byte: each eighth by computation. */
  lemma TableEighth0(i: bv16)
    requires i < 0x20
    ensures Crc16Tab(i) == Shift8(i << 8)
  {
  }

  lemma TableEighth1(i: bv16)
    requires 0x20 <= i < 0x40
    ensures Crc16Tab(i) == Shift8(i << 8)
  {
  }

  lemma TableEighth2(i: bv16)
    requires 0x40 <= i < 0x60
    ensures Crc16Tab(i) == Shift8(i << 8)
  {
  }

  lemma TableEighth3(i: bv16)
    requires 0x60 <= i < 0x80
    ensures Crc16Tab(i) == Shift8(i << 8)
  {
  }

  lemma TableEighth4(i: bv16)
    requires 0x80 <= i < 0xA0
    ensures Crc16Tab(i) == Shift8(i << 8)
  {
  }

  lemma TableEighth5(i: bv16)
    requires 0xA0 <= i < 0xC0
    ensures Crc16Tab(i) == Shift8(i << 8)
  {
  }

  lemma TableEighth6(i: bv16)
    requires 0xC0 <= i < 0xE0
    ensures Crc16Tab(i) == Shift8(i << 8)
  {
  }

  lemma TableEighth7(i: bv16)
    requires 0xE0 <= i < 0x100
    ensures Crc16Tab(i) == Shift8(i << 8)
  {
  }

  lemma TableHoldsRemainders(i: bv16)
    requires i < 0x100
    ensures Crc16Tab(i) == Shift8(High(i))
  {
    hide Crc16Tab, Shift8;
    if i < 0x20 {
      TableEighth0(i);
    } else if i < 0x40 {
      TableEighth1(i);
    } else if i < 0x60 {
      TableEighth2(i);
    } else if i < 0x80 {
      TableEighth3(i);
    } else if i < 0xA0 {
      TableEighth4(i);
    } else if i < 0xC0 {
      TableEighth5(i);
    } else if i < 0xE0 {
      TableEighth6(i);
    } else {
      TableEighth7(i);
    }
  }

  /** The loop's index into the table. */
  function Index(r: bv16, x: bv16): bv16 {
    ((r >> 8) ^ x) & 0xFF
  }

  function High(x: bv16): bv16 {
    x << 8
  }

  /** The register with the next byte on top, taken apart as the loop does. */
  lemma RegisterParts(r: bv16, x: bv16)
    requires x < 0x100
    ensures Xor(r, High(x)) == Xor(High(Index(r, x)), r & 0xFF)
  {
    hide *;
    HighPart(r, x);
    TwoBytes(r);
    XorAssociates(r & 0xFF, r & 0xFF00, High(x));
    XorCommutes(r & 0xFF, Xor(r & 0xFF00, High(x)));
  }

  lemma HighPart(r: bv16, x: bv16)
    requires x < 0x100
    ensures High(Index(r, x)) == Xor(r & 0xFF00, High(x))
  {
  }

  lemma TwoBytes(r: bv16)
    ensures Xor(r & 0xFF, r & 0xFF00) == r
  {
  }

  lemma LowPart(r: bv16, x: bv16)
    ensures Index(r, x) < 0x100 && (r & 0xFF) < 0x100 && High(r & 0xFF) == High(r)
  {
  }

  lemma PartsShift(r: bv16, y: bv16, high: bv16, low: bv16)
    requires Xor(r, y) == Xor(high, low) && FeedBits(r, y, 8) == Shift8(Xor(r, y))
    ensures FeedBits(r, y, 8) == Xor(Shift8(high), Shift8(low))
  {
    hide *;
    EightShifts(Xor(high, low));
    ShiftsAreLinear(high, low, 8);
    EightShifts(high);
    EightShifts(low);
  }

  /** The loop's step. */
  function Next(r: bv16, x: bv16): bv16 {
    (r << 8) ^ Crc16Tab(((r >> 8) ^ x) & 0xFF)
  }

  lemma NextParts(r: bv16, x: bv16)
    ensures Next(r, x) == Xor(High(r), Crc16Tab(Index(r, x)))
  {
    hide Crc16Tab;
  }

  /** The loop's step takes in a whole byte. */
  lemma ByteAtOnce(r: bv16, x: bv16)
    requires x < 0x100
    ensures Next(r, x) == FeedBits(r, High(x), 8)
  {
    hide *;
    NextParts(r, x);
    RegisterParts(r, x);
    LowPart(r, x);
    ByteOnTop(r, x);
    PartsShift(r, High(x), High(Index(r, x)), r & 0xFF);
    TableHoldsRemainders(Index(r, x));
    LowByteShifts(r & 0xFF);
    XorCommutes(Crc16Tab(Index(r, x)), High(r));
  }
}
