/** The bytes that open a session, written out: what the two init headers and an end-of-file header are on the line,
    and which headers the detector reacts to. */
module Openings {
  import opened Bytes
  import opened Crc
  import opened Escape
  import opened Headers
  import opened CrcValues
  import opened Detector
  import R = ReceiverSpec

  lemma ZerosKeepZero16()
    ensures Crc16([0, 0, 0, 0, 0]) == 0
  {
    hide Rounds16, Fold16;
    MovesUp16(0);
    var data: seq<byte> := [0, 0, 0, 0, 0];
    Absorbs16(0x0000, 0x0000, data, 0);
    Absorbs16(0x0000, 0x0000, data, 1);
    Absorbs16(0x0000, 0x0000, data, 2);
    Absorbs16(0x0000, 0x0000, data, 3);
    Absorbs16(0x0000, 0x0000, data, 4);
    FoldsAll(data, 0x0000, 0);
  }

  lemma InitRounds16()
    ensures Rounds16(0x0100, 8) == 0x1021 && Rounds16(0x1021, 8) == 0x3331 && Rounds16(0x1331, 8) == 0x1352
    ensures Rounds16(0x1352, 8) == 0x7052 && Rounds16(0x5352, 8) == 0x3896
  {
    EightRounds16(0x1352);
  }

  lemma InitChecksum16()
    ensures Crc16([1, 0, 0x20, 0, 0x23]) == 0x3896
  {
    hide Rounds16, Fold16;
    InitRounds16();
    var data: seq<byte> := [1, 0, 0x20, 0, 0x23];
    Absorbs16(0x0000, 0x1021, data, 0);
    Absorbs16(0x1021, 0x3331, data, 1);
    Absorbs16(0x3331, 0x1352, data, 2);
    Absorbs16(0x1352, 0x7052, data, 3);
    Absorbs16(0x7052, 0x3896, data, 4);
    FoldsAll(data, 0x3896, 0);
  }

  lemma EofRounds32()
    ensures Rounds32(0xffff_fff4, 8) == 0xba2f_c9fa && Rounds32(0xba2f_c9fb, 8) == 0x2ad5_045d
    ensures Rounds32(0x2ad5_045f, 8) == 0xfbfe_9961 && Rounds32(0xfbfe_9962, 8) == 0xa347_feed
    ensures Rounds32(0xa347_fee9, 8) == 0xd975_1d22
  {}

  lemma EofChecksum32()
    ensures Crc32([11, 1, 2, 3, 4]) == 0x268a_e2dd
  {
    hide Rounds32, Fold32;
    EofRounds32();
    var data: seq<byte> := [11, 1, 2, 3, 4];
    Absorbs32(0xffff_ffff, 0xba2f_c9fa, data, 0);
    Absorbs32(0xba2f_c9fa, 0x2ad5_045d, data, 1);
    Absorbs32(0x2ad5_045d, 0xfbfe_9961, data, 2);
    Absorbs32(0xfbfe_9961, 0xa347_feed, data, 3);
    Absorbs32(0xa347_feed, 0xd975_1d22, data, 4);
    FoldsAll(data, 0, 0xd975_1d22);
  }

  /** A hexadecimal header carries its digits as they are. */
  lemma HexOnTheLine(h: Header)
    requires h.encoding == ZHEX
    ensures Encode(h) == [42, 42, 24, 66] + HexEncode(Payload(h) + Wire16(Crc16(Payload(h)))) +
      [13, 10] + if h.frame == 3 || h.frame == 8 then [] else [17]
  {
    hide Crc16, Crc32, HexEncode;
    HexNeedsNoEscape(Payload(h) + Wire16(Crc16(Payload(h))));
  }

  lemma {:induction false} HexAppend(a: seq<byte>, b: seq<byte>)
    ensures HexEncode(a + b) == HexEncode(a) + HexEncode(b)
    decreases |a|
  {
    hide HexDigit;
    if a == [] {
      assert a + b == b;
    } else {
      HexAppend(a[1..], b);
      assert (a + b)[1..] == a[1..] + b;
    }
  }

  lemma HexOne(a: byte)
    ensures HexEncode([a]) == [HexDigit(a / 16), HexDigit(a % 16)]
  {
    assert [a][1..] == [];
  }

  lemma HexTwo(a: byte, b: byte)
    ensures HexEncode([a, b]) == [HexDigit(a / 16), HexDigit(a % 16), HexDigit(b / 16), HexDigit(b % 16)]
  {
    hide HexEncode;
    HexOne(a);
    HexOne(b);
    HexAppend([a], [b]);
    assert [a] + [b] == [a, b];
  }

  /** The digits of a header of five bytes with two checksum bytes. */
  lemma HexOfHeader(h: Header, crc: seq<byte>)
    requires |crc| == 2
    ensures HexEncode(Payload(h) + crc) ==
      HexEncode([h.frame]) + HexEncode([h.f0, h.f1]) + HexEncode([h.f2, h.f3]) + HexEncode([crc[0], crc[1]])
  {
    hide HexEncode;
    assert Payload(h) + crc == [h.frame] + [h.f0, h.f1] + [h.f2, h.f3] + [crc[0], crc[1]];
    HexAppend([h.frame] + [h.f0, h.f1] + [h.f2, h.f3], [crc[0], crc[1]]);
    HexAppend([h.frame] + [h.f0, h.f1], [h.f2, h.f3]);
    HexAppend([h.frame], [h.f0, h.f1]);
  }

  lemma WiresOfInit()
    ensures Wire16(0) == [0, 0] && Wire16(0x3896) == [0x38, 0x96] && Wire16(0x31c3) == [0x31, 0xc3]
  {}

  /** `**` ZDLE `B`, fourteen zeros, CR LF XON. */
  lemma ZrqinitOnTheLine()
    ensures Encode(Plain(ZHEX, ZRQINIT)) ==
      [42, 42, 24, 66, 48, 48, 48, 48, 48, 48, 48, 48, 48, 48, 48, 48, 48, 48, 13, 10, 17]
  {
    hide Crc16, Crc32, Encode, Wire16, HexEncode;
    var h := Plain(ZHEX, ZRQINIT);
    assert Payload(h) == [0, 0, 0, 0, 0];
    ZerosKeepZero16();
    WiresOfInit();
    HexOnTheLine(h);
    HexOfHeader(h, [0, 0]);
    HexOne(0);
    HexTwo(0, 0);
  }

  /** `**` ZDLE `B`, `0100200023`, the checksum `3896`, CR LF XON. */
  lemma ZrinitOnTheLine()
    ensures Encode(R.Zrinit()) ==
      [42, 42, 24, 66, 48, 49, 48, 48, 50, 48, 48, 48, 50, 51, 51, 56, 57, 54, 13, 10, 17]
  {
    hide Crc16, Crc32, Encode, Wire16, HexEncode;
    var h := R.Zrinit();
    assert Payload(h) == [1, 0, 0x20, 0, 0x23];
    InitChecksum16();
    WiresOfInit();
    HexOnTheLine(h);
    HexOfHeader(h, [0x38, 0x96]);
    HexOne(1);
    HexTwo(0, 0x20);
    HexTwo(0, 0x23);
    HexTwo(0x38, 0x96);
  }

  lemma WireOfEof()
    ensures Wire32(0x268a_e2dd) == [0xdd, 0xe2, 0x8a, 0x26]
  {}

  /** `*` ZDLE `C`, the type, the count, least significant byte first, and the checksum, the same way. */
  lemma EofOnTheLine()
    ensures Encode(WithCount(ZBIN32, ZEOF, 0x0403_0201)) == [42, 24, 67, 11, 1, 2, 3, 4, 0xdd, 0xe2, 0x8a, 0x26]
  {
    hide Crc16, Crc32, Wire32, Escaped;
    EofChecksum32();
    WireOfEof();
    var h := WithCount(ZBIN32, ZEOF, 0x0403_0201);
    assert Payload(h) == [11, 1, 2, 3, 4];
    EscapedPlain(Payload(h) + [0xdd, 0xe2, 0x8a, 0x26]);
  }

  lemma StartOfHex(h: Header)
    requires h.encoding == ZHEX
    ensures |Encode(h)| >= 6
    ensures Encode(h)[..6] == [42, 42, 24, 66, HexDigit(h.frame / 16), HexDigit(h.frame % 16)]
  {
    hide Crc16, Encode, HexDigit, HexEncode;
    HexOnTheLine(h);
    HexOfHeader(h, Wire16(Crc16(Payload(h))));
    HexOne(h.frame);
  }

  /** Of all headers the detector reacts to the hexadecimal ZRQINIT and ZRINIT, and tells them apart. */
  lemma DetectedIffInit(h: Header)
    requires KnownEncoding(h.encoding) && h.frame <= ZSTDERR
    ensures HeaderAt(Encode(h), 0) <==> h.encoding == ZHEX && (h.frame == ZRQINIT || h.frame == ZRINIT)
    ensures HeaderAt(Encode(h), 0) ==> (ModeAt(Encode(h), 0) == Receive <==> h.frame == ZRQINIT)
  {
    hide Encode;
    if h.encoding == ZHEX {
      StartOfHex(h);
    } else {
      BinaryStart(h);
    }
  }

  lemma BinaryStart(h: Header)
    requires h.encoding != ZHEX
    ensures |Encode(h)| >= 2 && Encode(h)[1] == ZDLE
  {
    hide Escaped, Body;
  }
}
