/**
 * CRC-32C. The table-driven checksum equals the bit-by-bit one and, mirrored, the remainder of the long division
 * by the generator 1EDC6F41 (section 12.1 of RFC 3720); it composes over splits and detects four-byte bursts.
 */
module Crc32c {
  type Word = bv32
  type Octets = seq<bv8>

  const POLY: Word := 0x82F6_3B78
  const GENERATOR: Word := 0x1EDC_6F41
  const ONES: Word := 0xFFFF_FFFF

  // Word operations under names, so that proofs can use their laws without looking at bits.
  function Xor(a: Word, b: Word): Word { a ^ b }
  function Half(a: Word): Word { a >> 1 }
  predicate Odd(a: Word) { a & 1 != 0 }
  function LowByte(a: Word): Word { a & 0xFF }
  function HighBytes(a: Word): Word { a >> 8 }

  lemma XorAssociates(a: Word, b: Word, c: Word)
    ensures Xor(Xor(a, b), c) == Xor(a, Xor(b, c))
  {
  }

  lemma XorSelf(a: Word, b: Word)
    ensures Xor(a, b) == Xor(b, a) && Xor(a, 0) == a && Xor(a, a) == 0
  {
  }

  lemma XorLaws(a: Word, b: Word, c: Word)
    ensures Xor(a, b) == Xor(b, a) && Xor(Xor(a, b), c) == Xor(a, Xor(b, c)) && Xor(a, 0) == a && Xor(a, Xor(a, b)) == b
  {
    hide Xor;
    XorAssociates(a, b, c);
    XorAssociates(a, a, b);
    XorSelf(a, b);
    XorSelf(b, 0);
    XorSelf(0, b);
  }

  lemma XorCancels(a: Word, b: Word, c: Word)
    requires Xor(a, b) == Xor(a, c)
    ensures b == c
  {
    hide Xor;
    XorLaws(a, b, 0);
    XorLaws(a, c, 0);
  }

  lemma XorParts(a: Word, b: Word)
    ensures Half(Xor(a, b)) == Xor(Half(a), Half(b)) && (Odd(Xor(a, b)) <==> Odd(a) != Odd(b))
  {
  }

  /** One step of the shift register: drop the lowest bit, and subtract the polynomial if it was set. */
  function Shift(r: Word): Word {
    if Odd(r) then Xor(Half(r), POLY) else Half(r)
  }

  function Shifts(r: Word, n: nat): Word
    decreases n
  {
    if n == 0 then r else Shifts(Shift(r), n - 1)
  }

  lemma ShiftLinear(a: Word, b: Word)
    ensures Shift(Xor(a, b)) == Xor(Shift(a), Shift(b))
  {
    hide Xor, Half, Odd;
    XorParts(a, b);
    XorLaws(Half(a), Half(b), POLY);
    XorLaws(Half(b), POLY, Half(a));
    XorLaws(POLY, Half(a), Xor(Half(b), POLY));
    XorLaws(POLY, Half(b), Half(a));
    XorLaws(Half(a), POLY, Half(b));
    XorLaws(Half(a), POLY, Xor(Half(b), POLY));
  }

  lemma {:induction false} ShiftsLinear(a: Word, b: Word, n: nat)
    ensures Shifts(Xor(a, b), n) == Xor(Shifts(a, n), Shifts(b, n))
    decreases n
  {
    hide Shift, Xor;
    if n > 0 {
      ShiftLinear(a, b);
      ShiftsLinear(Shift(a), Shift(b), n - 1);
    }
  }

  lemma ShiftInjective(a: Word, b: Word)
    requires Shift(a) == Shift(b)
    ensures a == b
  {
  }

  lemma {:induction false} ShiftsInjective(a: Word, b: Word, n: nat)
    requires Shifts(a, n) == Shifts(b, n)
    ensures a == b
    decreases n
  {
    hide Shift;
    if n > 0 {
      ShiftsInjective(Shift(a), Shift(b), n - 1);
      ShiftInjective(a, b);
    }
  }

  lemma {:induction false} ShiftsAdd(r: Word, m: nat, n: nat)
    ensures Shifts(Shifts(r, m), n) == Shifts(r, m + n)
    decreases m
  {
    hide Shift;
    if m > 0 {
      ShiftsAdd(Shift(r), m - 1, n);
    }
  }

  lemma ShiftsOne(r: Word, n: nat)
    ensures Shifts(r, n + 1) == Shifts(Shift(r), n)
  {
  }

  /** Eight shifts of a word whose low byte is clear just move its other bytes down. */
  lemma CleanShifts(a: Word)
    requires LowByte(a) == 0
    ensures Shifts(a, 8) == HighBytes(a)
  {
    hide Shifts, Xor;
    var a1 := Half(a);
    var a2 := Half(a1);
    var a3 := Half(a2);
    var a4 := Half(a3);
    var a5 := Half(a4);
    var a6 := Half(a5);
    var a7 := Half(a6);
    ShiftsOne(a, 7);
    ShiftsOne(a1, 6);
    ShiftsOne(a2, 5);
    ShiftsOne(a3, 4);
    ShiftsOne(a4, 3);
    ShiftsOne(a5, 2);
    ShiftsOne(a6, 1);
    ShiftsOne(a7, 0);
    ShiftsNone(Half(a7));
  }

  lemma ShiftsNone(r: Word)
    ensures Shifts(r, 0) == r
  {
  }

  // ---- Bit by bit --------------------------------------------------------------------------

  function BitWord(bit: bool): Word {
    if bit then 1 else 0
  }

  /** Feed one bit into the register. */
  function FeedBit(r: Word, bit: bool): Word {
    Shift(Xor(r, BitWord(bit)))
  }

  /** Feed the lowest `n` bits of a word, lowest first. */
  function FeedBits(r: Word, b: Word, n: nat): Word
    decreases n
  {
    if n == 0 then r else FeedBits(FeedBit(r, Odd(b)), Half(b), n - 1)
  }

  function FeedOctetsBitwise(r: Word, data: Octets): Word
    decreases |data|
  {
    if data == [] then r else FeedOctetsBitwise(FeedBits(r, data[0] as Word, 8), data[1..])
  }

  function BitwiseCrc(data: Octets): Word {
    Xor(FeedOctetsBitwise(ONES, data), ONES)
  }

  lemma ShiftSplit(r: Word, b: Word)
    ensures Shift(Xor(r, b)) == Xor(FeedBit(r, Odd(b)), Half(b))
  {
    hide Shift, Half, Xor;
    var low, high := BitWord(Odd(b)), Xor(b, BitWord(Odd(b)));
    HighPart(b);
    XorLaws(r, low, high);
    XorLaws(low, b, 0);
    XorLaws(b, low, 0);
    ShiftLinear(Xor(r, low), high);
  }

  lemma HighPart(b: Word)
    ensures var high := Xor(b, BitWord(Odd(b))); Shift(high) == Half(b) && Xor(BitWord(Odd(b)), high) == b
  {
  }

  /** Feeding bits one at a time is shifting them all in at once. */
  lemma {:induction false} FeedBitsIsShifts(r: Word, b: Word, n: nat)
    requires n <= 8 && Fits(b, n)
    ensures FeedBits(r, b, n) == Shifts(Xor(r, b), n)
    decreases n
  {
    hide Shift, Half, Xor, FeedBit, Odd;
    if n == 0 {
      assert b == 0 by { FitsNone(b); }
      XorLaws(r, 0, 0);
    } else {
      ShiftSplit(r, b);
      FitsHalf(b, n);
      FeedBitsIsShifts(FeedBit(r, Odd(b)), Half(b), n - 1);
    }
  }

  predicate Fits(b: Word, n: nat)
    requires n <= 8
  {
    b >> (n as bv6) == 0
  }

  lemma FitsNone(b: Word)
    requires Fits(b, 0)
    ensures b == 0
  {
  }

  lemma FitsHalf(b: Word, n: nat)
    requires 0 < n <= 8 && Fits(b, n)
    ensures Fits(Half(b), n - 1)
  {
  }

  // ---- Byte by byte ------------------------------------------------------------------------

  /** The table entry for a byte. */
  function Entry(b: Word): Word {
    Shifts(b, 8)
  }

  function FeedOctet(r: Word, b: bv8): Word {
    Xor(Entry(LowByte(Xor(r, b as Word))), HighBytes(r))
  }

  function FeedOctets(r: Word, data: Octets): Word
    decreases |data|
  {
    if data == [] then r else FeedOctets(FeedOctet(r, data[0]), data[1..])
  }

  function Continue(prior: Word, data: Octets): Word {
    Xor(FeedOctets(Xor(prior, ONES), data), ONES)
  }

  function Crc(data: Octets): Word {
    Continue(0, data)
  }

  lemma OctetParts(r: Word, b: bv8)
    ensures var x := Xor(r, b as Word); var high := Xor(x, LowByte(x));
      && Xor(LowByte(x), high) == x && LowByte(high) == 0 && HighBytes(high) == HighBytes(r) && Fits(b as Word, 8)
  {
  }

  /** A table step is eight shifts of the register with the byte added. */
  lemma OctetIsShifts(r: Word, b: bv8)
    ensures FeedOctet(r, b) == Shifts(Xor(r, b as Word), 8)
  {
    hide Shifts, Xor, LowByte, HighBytes, Fits;
    var x := Xor(r, b as Word);
    var high := Xor(x, LowByte(x));
    OctetParts(r, b);
    CleanShifts(high);
    ShiftsLinear(LowByte(x), high, 8);
  }

  lemma {:induction false} TableIsBitwise(r: Word, data: Octets)
    ensures FeedOctets(r, data) == FeedOctetsBitwise(r, data)
    decreases |data|
  {
    hide FeedOctet, FeedBits, Xor, Shifts, Fits;
    if data != [] {
      OctetIsShifts(r, data[0]);
      OctetParts(r, data[0]);
      FeedBitsIsShifts(r, data[0] as Word, 8);
      TableIsBitwise(FeedOctet(r, data[0]), data[1..]);
    }
  }

  /** The table-driven checksum is the bit-by-bit one, for every input. */
  lemma CrcIsBitwise(data: Octets)
    ensures Crc(data) == BitwiseCrc(data)
  {
    hide Xor;
    XorLaws(0, ONES, 0);
    XorLaws(ONES, 0, 0);
    TableIsBitwise(ONES, data);
  }

  // ---- Long division -----------------------------------------------------------------------

  function Mirror(x: Word): Word {
    var a := ((x >> 1) & 0x5555_5555) | ((x & 0x5555_5555) << 1);
    var b := ((a >> 2) & 0x3333_3333) | ((a & 0x3333_3333) << 2);
    var c := ((b >> 4) & 0x0F0F_0F0F) | ((b & 0x0F0F_0F0F) << 4);
    var d := ((c >> 8) & 0x00FF_00FF) | ((c & 0x00FF_00FF) << 8);
    (d >> 16) | (d << 16)
  }

  /** Mirroring reverses the order of the bits. */
  lemma MirrorReverses(a: Word, i: Word)
    requires i < 32
    ensures (Mirror(a) >> i) & 1 == (a >> (31 - i)) & 1
  {
  }

  function Double(a: Word): Word { a << 1 }
  predicate Top(a: Word) { a >> 31 != 0 }

  /** One step of long division by the generator, highest coefficient first. */
  function DivideBit(m: Word, bit: bool): Word {
    if Top(m) != bit then Xor(Double(m), GENERATOR) else Double(m)
  }

  function DivideBits(m: Word, b: Word, n: nat): Word
    decreases n
  {
    if n == 0 then m else DivideBits(DivideBit(m, Odd(b)), Half(b), n - 1)
  }

  function DivideOctets(m: Word, data: Octets): Word
    decreases |data|
  {
    if data == [] then m else DivideOctets(DivideBits(m, data[0] as Word, 8), data[1..])
  }

  /** Divide the message, each byte's lowest bit first, starting from all ones; complement and mirror the remainder. */
  function DivisionCrc(data: Octets): Word {
    Xor(Mirror(DivideOctets(ONES, data)), ONES)
  }

  lemma MirrorLaws(a: Word, b: Word)
    ensures Mirror(Xor(a, b)) == Xor(Mirror(a), Mirror(b)) && Mirror(Half(a)) == Double(Mirror(a))
    ensures (Odd(a) <==> Top(Mirror(a)))
  {
    MirrorXor(a, b);
    MirrorHalf(a);
  }

  lemma MirrorXor(a: Word, b: Word)
    ensures Mirror(Xor(a, b)) == Xor(Mirror(a), Mirror(b))
  {
  }

  lemma MirrorHalf(a: Word)
    ensures Mirror(Half(a)) == Double(Mirror(a)) && (Odd(a) <==> Top(Mirror(a)))
  {
  }

  lemma MirrorConstants()
    ensures Mirror(POLY) == GENERATOR && Mirror(ONES) == ONES
  {
  }

  lemma MirrorTwice(a: Word)
    ensures Mirror(Mirror(a)) == a
  {
  }

  lemma BitAdded(r: Word, bit: bool)
    ensures Half(Xor(r, BitWord(bit))) == Half(r) && (Odd(Xor(r, BitWord(bit))) <==> Odd(r) != bit)
  {
  }

  /** Mirrored, the shift register is the divider. */
  lemma FeedMirrorsDivide(r: Word, bit: bool)
    ensures Mirror(FeedBit(r, bit)) == DivideBit(Mirror(r), bit)
  {
    hide Mirror, Xor, Half, Odd, Double, Top, BitWord;
    BitAdded(r, bit);
    MirrorLaws(r, 0);
    MirrorLaws(Half(r), POLY);
    MirrorConstants();
  }

  lemma {:induction false} FeedBitsMirrorsDivide(r: Word, b: Word, n: nat)
    ensures Mirror(FeedBits(r, b, n)) == DivideBits(Mirror(r), b, n)
    decreases n
  {
    hide Mirror, FeedBit, DivideBit, Half, Odd;
    if n > 0 {
      FeedMirrorsDivide(r, Odd(b));
      FeedBitsMirrorsDivide(FeedBit(r, Odd(b)), Half(b), n - 1);
    }
  }

  lemma {:induction false} OctetsMirrorDivide(r: Word, data: Octets)
    ensures Mirror(FeedOctetsBitwise(r, data)) == DivideOctets(Mirror(r), data)
    decreases |data|
  {
    hide Mirror, FeedBits, DivideBits;
    if data != [] {
      FeedBitsMirrorsDivide(r, data[0] as Word, 8);
      OctetsMirrorDivide(FeedBits(r, data[0] as Word, 8), data[1..]);
    }
  }

  /** The checksum is the mirrored, complemented remainder of the division, for every input. */
  lemma CrcIsDivision(data: Octets)
    ensures Crc(data) == DivisionCrc(data)
  {
    hide Xor, Mirror, FeedOctetsBitwise, DivideOctets;
    CrcIsBitwise(data);
    OctetsMirrorDivide(ONES, data);
    MirrorConstants();
    MirrorTwice(FeedOctetsBitwise(ONES, data));
  }

  // ---- Splits ------------------------------------------------------------------------------

  lemma {:induction false} FeedConcat(r: Word, x: Octets, y: Octets)
    ensures FeedOctets(r, x + y) == FeedOctets(FeedOctets(r, x), y)
    decreases |x|
  {
    hide FeedOctet;
    if x == [] {
      assert x + y == y;
    } else {
      assert (x + y)[1..] == x[1..] + y;
      FeedConcat(FeedOctet(r, x[0]), x[1..], y);
    }
  }

  /** A checksum continued over the rest of the input is the checksum of the whole, at every split. */
  lemma CrcComposes(x: Octets, y: Octets)
    ensures Crc(x + y) == Continue(Crc(x), y)
  {
    hide Xor, FeedOctets;
    var r := Xor(0, ONES);
    FeedConcat(r, x, y);
    XorLaws(FeedOctets(r, x), ONES, ONES);
    XorLaws(ONES, ONES, 0);
    XorLaws(ONES, 0, 0);
  }

  // ---- Bursts ------------------------------------------------------------------------------

  function Up(w: Word): Word { w << 8 }

  /** The word fits in `n` bytes. */
  predicate Within(w: Word, n: nat) {
    match n
    case 0 => w == 0
    case 1 => w >> 8 == 0
    case 2 => w >> 16 == 0
    case 3 => w >> 24 == 0
    case _ => true
  }

  /** Up to four bytes as a word, the first byte lowest. */
  function Packed(a: Octets): Word {
    if a == [] then 0 else Xor(a[0] as Word, Up(Packed(a[1..])))
  }

  lemma UpClean(w: Word)
    requires w >> 24 == 0
    ensures LowByte(Up(w)) == 0 && HighBytes(Up(w)) == w
  {
  }

  lemma PackLow(b: bv8, w: Word)
    ensures LowByte(Xor(b as Word, Up(w))) == b as Word
  {
  }

  lemma PackHigh(b: bv8, w: Word)
    requires w >> 24 == 0
    ensures HighBytes(Xor(b as Word, Up(w))) == w
  {
  }

  lemma WithinGrows(b: bv8, w: Word)
    ensures w == 0 ==> Xor(b as Word, Up(w)) >> 8 == 0
    ensures w >> 8 == 0 ==> Xor(b as Word, Up(w)) >> 16 == 0
    ensures w >> 16 == 0 ==> Xor(b as Word, Up(w)) >> 24 == 0
    ensures (w == 0 || w >> 8 == 0 || w >> 16 == 0) ==> w >> 24 == 0
  {
  }

  lemma PackOne(b: bv8, w: Word, n: nat)
    requires n <= 3 && Within(w, n)
    ensures Within(Xor(b as Word, Up(w)), n + 1) && LowByte(Up(w)) == 0 && HighBytes(Up(w)) == w
    ensures LowByte(Xor(b as Word, Up(w))) == b as Word && HighBytes(Xor(b as Word, Up(w))) == w
  {
    hide Xor, Up, LowByte, HighBytes;
    WithinGrows(b, w);
    UpClean(w);
    PackLow(b, w);
    PackHigh(b, w);
  }

  lemma {:induction false} PackedWithin(a: Octets)
    requires |a| <= 4
    ensures Within(Packed(a), |a|)
  {
    hide Xor, Up;
    if a != [] {
      PackedWithin(a[1..]);
      PackOne(a[0], Packed(a[1..]), |a| - 1);
    }
  }

  lemma SameOctet(x: bv8, y: bv8)
    requires x as Word == y as Word
    ensures x == y
  {
  }

  lemma PackedParts(a: Octets)
    requires 0 < |a| <= 4
    ensures LowByte(Packed(a)) == a[0] as Word && HighBytes(Packed(a)) == Packed(a[1..])
  {
    hide Xor, Up, Within, LowByte, HighBytes;
    PackedWithin(a[1..]);
    PackOne(a[0], Packed(a[1..]), |a| - 1);
  }

  lemma {:induction false} PackedInjective(a: Octets, b: Octets)
    requires |a| == |b| <= 4 && Packed(a) == Packed(b)
    ensures a == b
  {
    hide Packed, LowByte, HighBytes;
    if a != [] {
      PackedParts(a);
      PackedParts(b);
      SameOctet(a[0], b[0]);
      PackedInjective(a[1..], b[1..]);
      assert a == [a[0]] + a[1..] && b == [b[0]] + b[1..];
    }
  }

  /** Feeding up to four bytes is shifting their word in at once. */
  lemma {:induction false} FeedIsPackedShifts(r: Word, a: Octets)
    requires |a| <= 4
    ensures FeedOctets(r, a) == Shifts(Xor(r, Packed(a)), 8 * |a|)
    decreases |a|
  {
    hide Xor, Up, Shifts, FeedOctet, LowByte, HighBytes, Within;
    if a == [] {
      XorLaws(r, 0, 0);
      ShiftsNone(r);
    } else {
      var b, w := a[0] as Word, Packed(a[1..]);
      var r1 := FeedOctet(r, a[0]);
      OctetIsShifts(r, a[0]);
      PackedWithin(a[1..]);
      PackOne(a[0], w, |a| - 1);
      CleanShifts(Up(w));
      FeedIsPackedShifts(r1, a[1..]);
      ShiftsLinear(Xor(r, b), Up(w), 8);
      XorLaws(r, b, Up(w));
      ShiftsAdd(Xor(r, Packed(a)), 8, 8 * (|a| - 1));
    }
  }

  lemma OctetInjective(r: Word, q: Word, b: bv8)
    requires FeedOctet(r, b) == FeedOctet(q, b)
    ensures r == q
  {
    hide FeedOctet, Shifts, Xor;
    OctetIsShifts(r, b);
    OctetIsShifts(q, b);
    ShiftsInjective(Xor(r, b as Word), Xor(q, b as Word), 8);
    XorLaws(r, b as Word, 0);
    XorLaws(q, b as Word, 0);
    XorCancels(b as Word, r, q);
  }

  lemma {:induction false} FeedInjective(r: Word, q: Word, data: Octets)
    requires FeedOctets(r, data) == FeedOctets(q, data)
    ensures r == q
    decreases |data|
  {
    hide FeedOctet;
    if data != [] {
      FeedInjective(FeedOctet(r, data[0]), FeedOctet(q, data[0]), data[1..]);
      OctetInjective(r, q, data[0]);
    }
  }

  /** Two inputs of equal length that differ only within four consecutive bytes have different checksums. */
  lemma BurstIsDetected(x: Octets, a: Octets, b: Octets, y: Octets)
    requires |a| == |b| <= 4 && a != b
    ensures Crc(x + a + y) != Crc(x + b + y)
  {
    hide Xor, FeedOctets, Shifts, Packed;
    var r := FeedOctets(Xor(0, ONES), x);
    FeedConcat(Xor(0, ONES), x + a, y);
    FeedConcat(Xor(0, ONES), x, a);
    FeedConcat(Xor(0, ONES), x + b, y);
    FeedConcat(Xor(0, ONES), x, b);
    if Crc(x + a + y) == Crc(x + b + y) {
      var p, q := FeedOctets(FeedOctets(r, a), y), FeedOctets(FeedOctets(r, b), y);
      XorLaws(p, ONES, 0);
      XorLaws(q, ONES, 0);
      XorCancels(ONES, p, q);
      FeedInjective(FeedOctets(r, a), FeedOctets(r, b), y);
      FeedIsPackedShifts(r, a);
      FeedIsPackedShifts(r, b);
      ShiftsInjective(Xor(r, Packed(a)), Xor(r, Packed(b)), 8 * |a|);
      XorCancels(r, Packed(a), Packed(b));
      PackedInjective(a, b);
    }
  }

  // ---- The code ----------------------------------------------------------------------------

  function TableAt(i: nat): Word
    requires i < 256
  {
    Entry(i as Word)
  }

  lemma IndexRoundTrip(x: Word)
    ensures 0 <= LowByte(x) as int < 256 && TableAt(LowByte(x) as int) == Entry(LowByte(x))
  {
    hide Entry;
    assert (LowByte(x) as int) as Word == LowByte(x);
  }

  lemma {:induction false} ShiftsLast(r: Word, n: nat)
    ensures Shifts(r, n + 1) == Shift(Shifts(r, n))
    decreases n
  {
    hide Shift;
    if n > 0 {
      ShiftsLast(Shift(r), n - 1);
    }
  }

  ghost predicate IsTable(table: seq<Word>) {
    |table| == 256 && forall i :: 0 <= i < 256 ==> table[i] == TableAt(i)
  }

  lemma EntryIs(b: Word)
    ensures Entry(b) == Shifts(b, 8)
  {
  }

  method BuildTable() returns (table: array<Word>)
    ensures IsTable(table[..])
  {
    hide Shifts, Xor, Half, Odd, Entry;
    table := new Word[256];
    for i := 0 to 256
      invariant forall k :: 0 <= k < i ==> table[k] == TableAt(k)
    {
      var crc := i as Word;
      ShiftsNone(crc);
      for j := 0 to 8
        invariant crc == Shifts(i as Word, j)
        invariant forall k :: 0 <= k < i ==> table[k] == TableAt(k)
      {
        ShiftsLast(i as Word, j);
        crc := if Odd(crc) then Xor(Half(crc), POLY) else Half(crc);
      }
      assert crc == TableAt(i) by { EntryIs(i as Word); }
      table[i] := crc;
      assert table[i] == TableAt(i);
    }
  }

  /** The table-driven loop; by `CrcIsBitwise` and `CrcIsDivision` it computes the standard checksum. */
  method ContinueCrc(table: array<Word>, prior: Word, data: Octets) returns (crc: Word)
    requires IsTable(table[..])
    ensures crc == Continue(prior, data)
  {
    hide Entry, LowByte, Xor, HighBytes, TableAt;
    var r := Xor(prior, ONES);
    assert data[0..] == data;
    for i := 0 to |data|
      invariant FeedOctets(r, data[i..]) == FeedOctets(Xor(prior, ONES), data)
    {
      assert data[i..][1..] == data[i + 1..];
      var x := Xor(r, data[i] as Word);
      IndexRoundTrip(x);
      assert table[..][LowByte(x) as int] == TableAt(LowByte(x) as int);
      r := Xor(table[LowByte(x) as int], HighBytes(r));
    }
    assert data[|data|..] == [];
    crc := Xor(r, ONES);
  }

  // ---- The check value ---------------------------------------------------------------------

  lemma OneStep(r: Word, b: bv8, x: Word)
    requires Xor(r, b as Word) == x
    ensures FeedOctet(r, b) == Shift(Shift(Shift(Shift(Shift(Shift(Shift(Shift(x))))))))
  {
    hide Shift, Xor;
    OctetIsShifts(r, b);
    var y := Shift(Shift(Shift(Shift(x))));
    assert Shifts(x, 4) == y && Shifts(y, 4) == Shift(Shift(Shift(Shift(y))));
    assert Shifts(x, 8) == Shifts(y, 4);
  }

  /** The register after each of the digits. */
  lemma CheckSteps()
    ensures FeedOctet(0xFFFF_FFFF, 0x31) == 0x6F0A_661C
    ensures FeedOctet(0x6F0A_661C, 0x32) == 0x8CAA_3B9F
    ensures FeedOctet(0x8CAA_3B9F, 0x33) == 0xEF84_D04D
    ensures FeedOctet(0xEF84_D04D, 0x34) == 0x09C5_0B11
    ensures FeedOctet(0x09C5_0B11, 0x35) == 0xE72E_DCCA
    ensures FeedOctet(0xE72E_DCCA, 0x36) == 0xBECA_8E79
    ensures FeedOctet(0xBECA_8E79, 0x37) == 0xEDBD_6815
    ensures FeedOctet(0xEDBD_6815, 0x38) == 0x9F78_7F65
    ensures FeedOctet(0x9F78_7F65, 0x39) == 0x1CF9_6D7C
  {
    OneStep(0xFFFF_FFFF, 0x31, 0xFFFF_FFCE);
    OneStep(0x6F0A_661C, 0x32, 0x6F0A_662E);
    OneStep(0x8CAA_3B9F, 0x33, 0x8CAA_3BAC);
    OneStep(0xEF84_D04D, 0x34, 0xEF84_D079);
    OneStep(0x09C5_0B11, 0x35, 0x09C5_0B24);
    OneStep(0xE72E_DCCA, 0x36, 0xE72E_DCFC);
    OneStep(0xBECA_8E79, 0x37, 0xBECA_8E4E);
    OneStep(0xEDBD_6815, 0x38, 0xEDBD_682D);
    OneStep(0x9F78_7F65, 0x39, 0x9F78_7F5C);
  }

  lemma FeedOne(r: Word, data: Octets, rest: Octets, after: Word)
    requires data != [] && data[1..] == rest && FeedOctet(r, data[0]) == after
    ensures FeedOctets(r, data) == FeedOctets(after, rest)
  {
  }

  /** The value that identifies this checksum among all others: that of the digits from 1 to 9. */
  lemma CheckValue()
    ensures Crc([0x31, 0x32, 0x33, 0x34, 0x35, 0x36, 0x37, 0x38, 0x39]) == 0xE306_9283
  {
    hide FeedOctet, FeedOctets;
    var d: Octets := [0x31, 0x32, 0x33, 0x34, 0x35, 0x36, 0x37, 0x38, 0x39];
    CheckSteps();
    FeedOne(0xFFFF_FFFF, d[0..], d[1..], 0x6F0A_661C);
    FeedOne(0x6F0A_661C, d[1..], d[2..], 0x8CAA_3B9F);
    FeedOne(0x8CAA_3B9F, d[2..], d[3..], 0xEF84_D04D);
    FeedOne(0xEF84_D04D, d[3..], d[4..], 0x09C5_0B11);
    FeedOne(0x09C5_0B11, d[4..], d[5..], 0xE72E_DCCA);
    FeedOne(0xE72E_DCCA, d[5..], d[6..], 0xBECA_8E79);
    FeedOne(0xBECA_8E79, d[6..], d[7..], 0xEDBD_6815);
    FeedOne(0xEDBD_6815, d[7..], d[8..], 0x9F78_7F65);
    FeedOne(0x9F78_7F65, d[8..], d[9..], 0x1CF9_6D7C);
    assert d[0..] == d && FeedOctets(0x1CF9_6D7C, d[9..]) == 0x1CF9_6D7C by { FeedNone(0x1CF9_6D7C, d[9..]); }
  }

  lemma FeedNone(r: Word, data: Octets)
    requires data == []
    ensures FeedOctets(r, data) == r
  {
  }
}
