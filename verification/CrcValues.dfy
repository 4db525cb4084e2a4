/** Which checksums they are: their published check values, and what the register holds once a message has been
    followed by its own checksum. */
module CrcValues {
  import opened Bytes
  import opened Crc

  // ----- check values -----

  /** The characters `123456789`, for which check values are published. */
  const DIGITS: seq<byte> := [0x31, 0x32, 0x33, 0x34, 0x35, 0x36, 0x37, 0x38, 0x39]

  /** Byte `i` takes the register from `crc` to `next`. */
  lemma Absorbs16(crc: bv16, next: bv16, data: seq<byte>, i: nat)
    requires i < |data| && Update16(crc, data[i]) == next
    ensures Fold16(crc, data[i..]) == Fold16(next, data[i + 1..])
  {
    hide Update16;
    assert data[i..][1..] == data[i + 1..];
  }

  lemma Absorbs32(crc: bv32, next: bv32, data: seq<byte>, i: nat)
    requires i < |data| && Update32(crc, data[i]) == next
    ensures Fold32(crc, data[i..]) == Fold32(next, data[i + 1..])
  {
    hide Update32;
    assert data[i..][1..] == data[i + 1..];
  }

  lemma FoldsAll(data: seq<byte>, x: bv16, y: bv32)
    ensures data[0..] == data && Fold16(x, data[|data|..]) == x && Fold32(y, data[|data|..]) == y
  {}

  lemma DigitBits()
    ensures Bits(0x31) == 0x31 && Bits(0x32) == 0x32 && Bits(0x33) == 0x33 && Bits(0x34) == 0x34 && Bits(0x35) == 0x35
    ensures Bits(0x36) == 0x36 && Bits(0x37) == 0x37 && Bits(0x38) == 0x38 && Bits(0x39) == 0x39
  {}

  lemma CheckRounds16()
    ensures Rounds16(0x3100, 8) == 0x2672 && Rounds16(0x1472, 8) == 0x20b5 && Rounds16(0x13b5, 8) == 0x9752
    ensures Rounds16(0xa352, 8) == 0xd789 && Rounds16(0xe289, 8) == 0x546c && Rounds16(0x626c, 8) == 0x20e4
    ensures Rounds16(0x17e4, 8) == 0x86d6 && Rounds16(0xbed6, 8) == 0x9015 && Rounds16(0xa915, 8) == 0x31c3
  {}

  lemma CheckUpdates16()
    ensures Update16(0x0000, 0x31) == 0x2672 && Update16(0x2672, 0x32) == 0x20b5 && Update16(0x20b5, 0x33) == 0x9752
    ensures Update16(0x9752, 0x34) == 0xd789 && Update16(0xd789, 0x35) == 0x546c && Update16(0x546c, 0x36) == 0x20e4
    ensures Update16(0x20e4, 0x37) == 0x86d6 && Update16(0x86d6, 0x38) == 0x9015 && Update16(0x9015, 0x39) == 0x31c3
  {
    hide Rounds16, Bits;
    DigitBits();
    CheckRounds16();
  }

  /** CRC-16/XMODEM: its check value. */
  lemma CheckValue16()
    ensures Crc16(DIGITS) == 0x31c3
  {
    hide Update16, Fold16;
    CheckUpdates16();
    Absorbs16(0x0000, 0x2672, DIGITS, 0);
    Absorbs16(0x2672, 0x20b5, DIGITS, 1);
    Absorbs16(0x20b5, 0x9752, DIGITS, 2);
    Absorbs16(0x9752, 0xd789, DIGITS, 3);
    Absorbs16(0xd789, 0x546c, DIGITS, 4);
    Absorbs16(0x546c, 0x20e4, DIGITS, 5);
    Absorbs16(0x20e4, 0x86d6, DIGITS, 6);
    Absorbs16(0x86d6, 0x9015, DIGITS, 7);
    Absorbs16(0x9015, 0x31c3, DIGITS, 8);
    FoldsAll(DIGITS, 0x31c3, 0);
  }

  lemma CheckRounds32()
    ensures Rounds32(0xffff_ffce, 8) == 0x7c23_1048 && Rounds32(0x7c23_107a, 8) == 0xb0ac_bb32
    ensures Rounds32(0xb0ac_bb01, 8) == 0x77b7_9c2d && Rounds32(0x77b7_9c19, 8) == 0x641c_1f5c
    ensures Rounds32(0x641c_1f69, 8) == 0x340a_c5e3 && Rounds32(0x340a_c5d5, 8) == 0xf68d_2c9e
    ensures Rounds32(0xf68d_2ca9, 8) == 0xaffc_9660 && Rounds32(0xaffc_9658, 8) == 0x651f_2550
    ensures Rounds32(0x651f_2569, 8) == 0x340b_c6d9
  {}

  lemma CheckUpdates32()
    ensures Update32(0xffff_ffff, 0x31) == 0x7c23_1048 && Update32(0x7c23_1048, 0x32) == 0xb0ac_bb32
    ensures Update32(0xb0ac_bb32, 0x33) == 0x77b7_9c2d && Update32(0x77b7_9c2d, 0x34) == 0x641c_1f5c
    ensures Update32(0x641c_1f5c, 0x35) == 0x340a_c5e3 && Update32(0x340a_c5e3, 0x36) == 0xf68d_2c9e
    ensures Update32(0xf68d_2c9e, 0x37) == 0xaffc_9660 && Update32(0xaffc_9660, 0x38) == 0x651f_2550
    ensures Update32(0x651f_2550, 0x39) == 0x340b_c6d9
  {
    hide Rounds32, Bits;
    DigitBits();
    CheckRounds32();
  }

  /** CRC-32/ISO-HDLC: its check value. */
  lemma CheckValue32()
    ensures Crc32(DIGITS) == 0xcbf4_3926
  {
    hide Update32, Fold32;
    CheckUpdates32();
    Absorbs32(0xffff_ffff, 0x7c23_1048, DIGITS, 0);
    Absorbs32(0x7c23_1048, 0xb0ac_bb32, DIGITS, 1);
    Absorbs32(0xb0ac_bb32, 0x77b7_9c2d, DIGITS, 2);
    Absorbs32(0x77b7_9c2d, 0x641c_1f5c, DIGITS, 3);
    Absorbs32(0x641c_1f5c, 0x340a_c5e3, DIGITS, 4);
    Absorbs32(0x340a_c5e3, 0xf68d_2c9e, DIGITS, 5);
    Absorbs32(0xf68d_2c9e, 0xaffc_9660, DIGITS, 6);
    Absorbs32(0xaffc_9660, 0x651f_2550, DIGITS, 7);
    Absorbs32(0x651f_2550, 0x340b_c6d9, DIGITS, 8);
    FoldsAll(DIGITS, 0, 0x340b_c6d9);
  }

  // ----- residues -----

  lemma EightRounds16(x: bv16)
    ensures Rounds16(x, 8) == Shift16(Shift16(Shift16(Shift16(Shift16(Shift16(Shift16(Shift16(x))))))))
  {
    hide Shift16;
    var y := Shift16(Shift16(x));
    var z := Shift16(Shift16(y));
    var u := Shift16(Shift16(z));
    assert Rounds16(x, 8) == Rounds16(y, 6);
    assert Rounds16(y, 6) == Rounds16(z, 4);
    assert Rounds16(z, 4) == Rounds16(u, 2);
    assert Rounds16(u, 2) == Rounds16(Shift16(Shift16(u)), 0);
  }

  lemma EightRounds32(x: bv32)
    ensures Rounds32(x, 8) == Shift32(Shift32(Shift32(Shift32(Shift32(Shift32(Shift32(Shift32(x))))))))
  {
    hide Shift32;
    var y := Shift32(Shift32(x));
    var z := Shift32(Shift32(y));
    var u := Shift32(Shift32(z));
    assert Rounds32(x, 8) == Rounds32(y, 6);
    assert Rounds32(y, 6) == Rounds32(z, 4);
    assert Rounds32(z, 4) == Rounds32(u, 2);
    assert Rounds32(u, 2) == Rounds32(Shift32(Shift32(u)), 0);
  }

  /** Bits that do not reach the marker in eight rounds are only moved. */
  lemma MovesUp16(x: bv16)
    requires x <= 0xff
    ensures Rounds16(x, 8) == x << 8
  {
    EightRounds16(x);
  }

  lemma MovesDown32(x: bv32)
    requires x & 0xff == 0
    ensures Rounds32(x, 8) == x >> 8
  {
    EightRounds32(x);
  }

  lemma FoldTwo16(crc: bv16, a: byte, b: byte)
    ensures Fold16(crc, [a, b]) == Update16(Update16(crc, a), b)
  {
    hide Update16;
    assert [a, b][1..] == [b] && [b][1..] == [];
    assert Fold16(Update16(Update16(crc, a), b), []) == Update16(Update16(crc, a), b);
  }

  lemma FoldTwo32(crc: bv32, a: byte, b: byte)
    ensures Fold32(crc, [a, b]) == Update32(Update32(crc, a), b)
  {
    hide Update32;
    assert [a, b][1..] == [b] && [b][1..] == [];
    assert Fold32(Update32(Update32(crc, a), b), []) == Update32(Update32(crc, a), b);
  }

  lemma FoldFour32(crc: bv32, a: byte, b: byte, c: byte, d: byte)
    ensures Fold32(crc, [a, b, c, d]) == Update32(Update32(Update32(Update32(crc, a), b), c), d)
  {
    hide Update32, Fold32;
    FoldAppend32(crc, [a, b], [c, d]);
    assert [a, b] + [c, d] == [a, b, c, d];
    FoldTwo32(crc, a, b);
    FoldTwo32(Update32(Update32(crc, a), b), c, d);
  }

  /** A message with its checksum behind it, most significant byte first, empties the register. */
  lemma Residue16(data: seq<byte>)
    ensures Crc16(data + Wire16(Crc16(data))) == 0
  {
    hide Rounds16, Fold16;
    var crc := Crc16(data);
    var hi, lo := (crc >> 8) as bv8, (crc & 0xff) as bv8;
    FoldAppend16(INIT16, data, Wire16(crc));
    FoldTwo16(crc, FromBits(hi), FromBits(lo));
    FromBitsInverse(hi);
    FromBitsInverse(lo);
    SplitBits16(crc);
    MovesUp16(crc & 0xff);
    MovesUp16(0);
  }

  lemma SplitBits16(crc: bv16)
    ensures Absorb16(crc, (crc >> 8) as bv8) == crc & 0xff
    ensures Absorb16((crc & 0xff) << 8, (crc & 0xff) as bv8) == 0
  {}

  lemma XorShift32(x: bv32, y: bv32)
    ensures (x ^ y) >> 1 == (x >> 1) ^ (y >> 1)
    ensures (x ^ y) & 1 == 0 <==> x & 1 == y & 1
    ensures x & 1 == 0 || x & 1 == 1
  {}

  lemma XorTwice32(x: bv32, y: bv32, p: bv32)
    ensures (x ^ y) ^ p == (x ^ p) ^ y == x ^ (y ^ p)
    ensures (x ^ p) ^ (y ^ p) == x ^ y
  {}

  function Sum32(x: bv32, y: bv32): bv32 { x ^ y }

  function LowByte32(w: bv32): bv8 { (w & 0xff) as bv8 }

  function Next32(w: bv32): bv32 { w >> 8 }

  function Rest32(w: bv32): bv32 { w & 0xffff_ff00 }

  lemma LinearShift32(x: bv32, y: bv32)
    ensures Shift32(Sum32(x, y)) == Sum32(Shift32(x), Shift32(y))
  {
    XorShift32(x, y);
    XorShift32(y, x);
    XorTwice32(x >> 1, y >> 1, 0xedb8_8320);
  }

  /** The rounds of a sum are the sum of the rounds. */
  lemma {:induction false} Linear32(x: bv32, y: bv32, k: nat)
    ensures Rounds32(Sum32(x, y), k) == Sum32(Rounds32(x, k), Rounds32(y, k))
    decreases k
  {
    hide Shift32, Sum32;
    if k > 0 {
      LinearShift32(x, y);
      Linear32(Shift32(x), Shift32(y), k - 1);
    }
  }

  lemma SumAssociates32(x: bv32, y: bv32, z: bv32)
    ensures Sum32(Sum32(x, y), z) == Sum32(x, Sum32(y, z))
  {}

  lemma WordParts32(w: bv32)
    ensures Sum32(Placed32(LowByte32(w)), Rest32(w)) == w
  {}

  lemma AbsorbIsSum32(x: bv32, v: bv8)
    ensures Absorb32(x, v) == Sum32(x, Placed32(v))
  {}

  lemma SplitWord32(x: bv32, w: bv32)
    ensures Sum32(Absorb32(x, LowByte32(w)), Rest32(w)) == Sum32(x, w)
  {
    hide Absorb32, Placed32, LowByte32, Rest32, Sum32;
    AbsorbIsSum32(x, LowByte32(w));
    SumAssociates32(x, Placed32(LowByte32(w)), Rest32(w));
    WordParts32(w);
  }

  lemma RestMoves32(w: bv32)
    ensures Rounds32(Rest32(w), 8) == Next32(w)
  {
    hide Rounds32;
    MovesDown32(w & 0xffff_ff00);
  }

  /** Taking in one byte of the word `w` is as good as adding all of it, as long as the rest is kept apart. */
  lemma AbsorbsByte32(x: bv32, w: bv32)
    ensures Sum32(Update32(x, FromBits(LowByte32(w))), Next32(w)) == Rounds32(Sum32(x, w), 8)
  {
    hide Rounds32, Absorb32, Bits, FromBits, Sum32, LowByte32, Next32, Rest32;
    FromBitsInverse(LowByte32(w));
    SplitWord32(x, w);
    RestMoves32(w);
    Linear32(Absorb32(x, LowByte32(w)), Rest32(w), 8);
  }

  lemma WireBytes32(w: bv32)
    ensures Wire32(w) == [FromBits(LowByte32(w)), FromBits(LowByte32(Next32(w))),
                          FromBits(LowByte32(Next32(Next32(w)))), FromBits(LowByte32(Next32(Next32(Next32(w)))))]
  {
    hide FromBits;
    WordShifts(w);
  }

  lemma WordShifts(w: bv32)
    ensures Next32(Next32(w)) == w >> 16 && Next32(Next32(Next32(w))) == w >> 24
    ensures LowByte32(w >> 8) == ((w >> 8) & 0xff) as bv8 && LowByte32(w >> 16) == ((w >> 16) & 0xff) as bv8
    ensures LowByte32(w >> 24) == (w >> 24) as bv8
  {}

  lemma WordEnds(x: bv32, w: bv32)
    ensures Sum32(x, Next32(Next32(Next32(Next32(w))))) == x
  {}

  /** The four bytes of a word, least significant first, as the register takes them in. */
  lemma AbsorbsWord32(x: bv32, w: bv32)
    ensures Fold32(x, Wire32(w)) == Rounds32(Rounds32(Rounds32(Rounds32(Sum32(x, w), 8), 8), 8), 8)
  {
    hide Rounds32, Fold32, FromBits, Update32, Sum32, LowByte32, Next32, Wire32;
    var w1, w2, w3 := Next32(w), Next32(Next32(w)), Next32(Next32(Next32(w)));
    var b0, b1 := FromBits(LowByte32(w)), FromBits(LowByte32(w1));
    var b2, b3 := FromBits(LowByte32(w2)), FromBits(LowByte32(w3));
    WireBytes32(w);
    FoldFour32(x, b0, b1, b2, b3);
    var x1 := Update32(x, b0);
    var x2 := Update32(x1, b1);
    var x3 := Update32(x2, b2);
    AbsorbsByte32(x, w);
    AbsorbsByte32(x1, w1);
    AbsorbsByte32(x2, w2);
    AbsorbsByte32(x3, w3);
    WordEnds(Update32(x3, b3), w);
  }

  /** A message with its checksum behind it, least significant byte first, always leaves the same value. */
  lemma Residue32(data: seq<byte>)
    ensures Crc32(data + Wire32(Crc32(data))) == 0x2144_df1c
  {
    hide Rounds32, Fold32, Wire32;
    var r, w := Fold32(INIT32, data), Crc32(data);
    FoldAppend32(INIT32, data, Wire32(w));
    XorCancels32(r, 0xffff_ffff);
    AbsorbsWord32(r, w);
    ResidueRounds32();
  }

  lemma ResidueRounds32()
    ensures Rounds32(0xffff_ffff, 8) == 0x2dfd_1072 && Rounds32(0x2dfd_1072, 8) == 0xbe26_ed00
    ensures Rounds32(0xbe26_ed00, 8) == 0x00be_26ed && Rounds32(0x00be_26ed, 8) == 0xdebb_20e3
  {}
}
