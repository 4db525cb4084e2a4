/** The two bit-loop checksums of the engine: CRC-16/XMODEM and CRC-32/ISO-HDLC. */
module Crc {
  import opened Bytes

  // ----- register steps -----

  function Shift16(crc: bv16): bv16 {
    if crc & 0x8000 != 0 then (crc << 1) ^ 0x1021 else crc << 1
  }

  function Shift32(crc: bv32): bv32 {
    if crc & 1 != 0 then (crc >> 1) ^ 0xedb88320 else crc >> 1
  }

  function Rounds16(crc: bv16, k: nat): bv16
    decreases k, crc
  {
    if k == 0 then crc else Rounds16(Shift16(crc), k - 1)
  }

  function Rounds32(crc: bv32, k: nat): bv32
    decreases k, crc
  {
    if k == 0 then crc else Rounds32(Shift32(crc), k - 1)
  }

  /** A number below 16 as bits, by table: the solver never converts between numbers and bit vectors. */
  function Nibble(n: int): (v: bv8)
    requires 0 <= n < 16
    ensures v <= 15
  {
    if n == 0 then 0 else if n == 1 then 1 else if n == 2 then 2 else if n == 3 then 3
    else if n == 4 then 4 else if n == 5 then 5 else if n == 6 then 6 else if n == 7 then 7
    else if n == 8 then 8 else if n == 9 then 9 else if n == 10 then 10 else if n == 11 then 11
    else if n == 12 then 12 else if n == 13 then 13 else if n == 14 then 14 else 15
  }

  function NibbleValue(v: bv8): (n: int)
    ensures 0 <= n < 16
  {
    if v == 0 then 0 else if v == 1 then 1 else if v == 2 then 2 else if v == 3 then 3
    else if v == 4 then 4 else if v == 5 then 5 else if v == 6 then 6 else if v == 7 then 7
    else if v == 8 then 8 else if v == 9 then 9 else if v == 10 then 10 else if v == 11 then 11
    else if v == 12 then 12 else if v == 13 then 13 else if v == 14 then 14 else 15
  }

  function Join(hi: bv8, lo: bv8): bv8 { (hi << 4) | lo }

  function Bits(b: byte): bv8 { Join(Nibble(b / 16), Nibble(b % 16)) }

  function FromBits(v: bv8): byte { 16 * NibbleValue(v >> 4) + NibbleValue(v & 15) }

  function Absorb16(crc: bv16, v: bv8): bv16 { crc ^ Placed16(v) }

  function Absorb32(crc: bv32, v: bv8): bv32 { crc ^ Placed32(v) }

  function Update16(crc: bv16, b: byte): bv16 {
    Rounds16(Absorb16(crc, Bits(b)), 8)
  }

  function Update32(crc: bv32, b: byte): bv32 {
    Rounds32(Absorb32(crc, Bits(b)), 8)
  }

  /** The register after absorbing a whole message. */
  function Fold16(crc: bv16, data: seq<byte>): bv16
    decreases |data|
  {
    if data == [] then crc else Fold16(Update16(crc, data[0]), data[1..])
  }

  function Fold32(crc: bv32, data: seq<byte>): bv32
    decreases |data|
  {
    if data == [] then crc else Fold32(Update32(crc, data[0]), data[1..])
  }

  const INIT16: bv16 := 0
  const INIT32: bv32 := 0xffffffff

  function Final32(crc: bv32): bv32 { crc ^ 0xffffffff }

  function Crc16(data: seq<byte>): bv16 { Fold16(INIT16, data) }

  function Crc32(data: seq<byte>): bv32 { Final32(Fold32(INIT32, data)) }

  // ----- wire forms: CRC-16 most significant byte first, CRC-32 least significant first -----

  function Wire16(crc: bv16): (s: seq<byte>)
    ensures |s| == 2
  {
    [FromBits((crc >> 8) as bv8), FromBits((crc & 0xff) as bv8)]
  }

  function Wire32(crc: bv32): (s: seq<byte>)
    ensures |s| == 4
  {
    [FromBits((crc & 0xff) as bv8), FromBits(((crc >> 8) & 0xff) as bv8),
     FromBits(((crc >> 16) & 0xff) as bv8), FromBits((crc >> 24) as bv8)]
  }

  function JoinBytes16(hi: bv8, lo: bv8): bv16 { ((hi as bv16) << 8) | (lo as bv16) }

  function JoinBytes32(b0: bv8, b1: bv8, b2: bv8, b3: bv8): bv32 {
    (b0 as bv32) | ((b1 as bv32) << 8) | ((b2 as bv32) << 16) | ((b3 as bv32) << 24)
  }

  function Read16(s: seq<byte>): bv16
    requires |s| >= 2
  {
    JoinBytes16(Bits(s[0]), Bits(s[1]))
  }

  function Read32(s: seq<byte>): bv32
    requires |s| >= 4
  {
    JoinBytes32(Bits(s[0]), Bits(s[1]), Bits(s[2]), Bits(s[3]))
  }

  // ----- the loops of the source -----

  method UpdateLoop16(crc: bv16, b: byte) returns (r: bv16)
    ensures r == Update16(crc, b)
  {
    r := Absorb16(crc, Bits(b));
    var i := 0;
    while i < 8
      invariant 0 <= i <= 8
      invariant Rounds16(r, 8 - i) == Update16(crc, b)
    {
      if r & 0x8000 != 0 {
        r := (r << 1) ^ 0x1021;
      } else {
        r := r << 1;
      }
      i := i + 1;
    }
  }

  method UpdateLoop32(crc: bv32, b: byte) returns (r: bv32)
    ensures r == Update32(crc, b)
  {
    r := Absorb32(crc, Bits(b));
    var i := 0;
    while i < 8
      invariant 0 <= i <= 8
      invariant Rounds32(r, 8 - i) == Update32(crc, b)
    {
      if r & 1 != 0 {
        r := (r >> 1) ^ 0xedb88320;
      } else {
        r := r >> 1;
      }
      i := i + 1;
    }
  }

  method Xmodem(data: seq<byte>) returns (crc: bv16)
    ensures crc == Crc16(data)
  {
    crc := INIT16;
    for i := 0 to |data|
      invariant Fold16(crc, data[i..]) == Crc16(data)
    {
      crc := UpdateLoop16(crc, data[i]);
    }
  }

  method IsoHdlc(data: seq<byte>) returns (crc: bv32)
    ensures crc == Crc32(data)
  {
    crc := INIT32;
    for i := 0 to |data|
      invariant Final32(Fold32(crc, data[i..])) == Crc32(data)
    {
      crc := UpdateLoop32(crc, data[i]);
    }
    crc := crc ^ 0xffffffff;
  }

  // ----- the wire forms identify the checksum -----

  lemma NibbleInverse(n: int)
    requires 0 <= n < 16
    ensures NibbleValue(Nibble(n)) == n
  {}

  lemma NibbleValueInverse(v: bv8)
    requires v <= 15
    ensures Nibble(NibbleValue(v)) == v
  {}

  lemma JoinParts(hi: bv8, lo: bv8)
    requires hi <= 15 && lo <= 15
    ensures Join(hi, lo) >> 4 == hi && Join(hi, lo) & 15 == lo
  {}

  lemma JoinWhole(v: bv8)
    ensures v >> 4 <= 15 && v & 15 <= 15 && Join(v >> 4, v & 15) == v
  {}

  lemma BitsInverse(b: byte)
    ensures FromBits(Bits(b)) == b
  {
    JoinParts(Nibble(b / 16), Nibble(b % 16));
    NibbleInverse(b / 16);
    NibbleInverse(b % 16);
  }

  lemma BitsOfNibbles(hi: int, lo: int)
    requires 0 <= hi < 16 && 0 <= lo < 16
    ensures Bits(16 * hi + lo) == Join(Nibble(hi), Nibble(lo))
  {
    assert (16 * hi + lo) / 16 == hi && (16 * hi + lo) % 16 == lo;
  }

  lemma FromBitsInverse(v: bv8)
    ensures Bits(FromBits(v)) == v
  {
    hide Bits, Join, Nibble, NibbleValue;
    BitsOfNibbles(NibbleValue(v >> 4), NibbleValue(v & 15));
    JoinWhole(v);
    NibbleValueInverse(v >> 4);
    NibbleValueInverse(v & 15);
  }

  lemma Wire16RoundTrip(crc: bv16)
    ensures Read16(Wire16(crc)) == crc
  {
    FromBitsInverse((crc >> 8) as bv8);
    FromBitsInverse((crc & 0xff) as bv8);
  }

  lemma Wire32RoundTrip(crc: bv32)
    ensures Read32(Wire32(crc)) == crc
  {
    FromBitsInverse((crc & 0xff) as bv8);
    FromBitsInverse(((crc >> 8) & 0xff) as bv8);
    FromBitsInverse(((crc >> 16) & 0xff) as bv8);
    FromBitsInverse((crc >> 24) as bv8);
  }

  lemma Join16(hi: bv8, lo: bv8)
    ensures var v := JoinBytes16(hi, lo); (v >> 8) as bv8 == hi && (v & 0xff) as bv8 == lo
  {}

  lemma Join32(b0: bv8, b1: bv8, b2: bv8, b3: bv8)
    ensures var v := JoinBytes32(b0, b1, b2, b3);
      && (v & 0xff) as bv8 == b0 && ((v >> 8) & 0xff) as bv8 == b1
      && ((v >> 16) & 0xff) as bv8 == b2 && (v >> 24) as bv8 == b3
  {}

  lemma WireOfJoin32(b0: bv8, b1: bv8, b2: bv8, b3: bv8)
    ensures Wire32(JoinBytes32(b0, b1, b2, b3)) == [FromBits(b0), FromBits(b1), FromBits(b2), FromBits(b3)]
  {
    Join32(b0, b1, b2, b3);
  }

  lemma Read16Injective(s: seq<byte>)
    requires |s| == 2
    ensures Wire16(Read16(s)) == s
  {
    Join16(Bits(s[0]), Bits(s[1]));
    BitsInverse(s[0]);
    BitsInverse(s[1]);
  }

  lemma Read32Injective(s: seq<byte>)
    requires |s| == 4
    ensures Wire32(Read32(s)) == s
  {
    WireOfJoin32(Bits(s[0]), Bits(s[1]), Bits(s[2]), Bits(s[3]));
    BitsInverse(s[0]);
    BitsInverse(s[1]);
    BitsInverse(s[2]);
    BitsInverse(s[3]);
  }

  // ----- incremental and whole-message forms agree -----

  lemma {:induction false} FoldAppend16(crc: bv16, a: seq<byte>, b: seq<byte>)
    ensures Fold16(crc, a + b) == Fold16(Fold16(crc, a), b)
    decreases |a|
  {
    if a == [] {
      assert a + b == b;
    } else {
      assert (a + b)[1..] == a[1..] + b;
      FoldAppend16(Update16(crc, a[0]), a[1..], b);
    }
  }

  lemma {:induction false} FoldAppend32(crc: bv32, a: seq<byte>, b: seq<byte>)
    ensures Fold32(crc, a + b) == Fold32(Fold32(crc, a), b)
    decreases |a|
  {
    if a == [] {
      assert a + b == b;
    } else {
      assert (a + b)[1..] == a[1..] + b;
      FoldAppend32(Update32(crc, a[0]), a[1..], b);
    }
  }

  /** One more byte: what the incremental registers of the source do. */
  lemma FoldSnoc(data: seq<byte>, b: byte)
    ensures Fold16(INIT16, data + [b]) == Update16(Fold16(INIT16, data), b)
    ensures Fold32(INIT32, data + [b]) == Update32(Fold32(INIT32, data), b)
  {
    FoldAppend16(INIT16, data, [b]);
    FoldAppend32(INIT32, data, [b]);
  }

  // ----- the running registers -----

  /** A running CRC-16. `absorbed` remembers the bytes it stands for. */
  class Register16 {
    var value: bv16
    ghost var absorbed: seq<byte>

    ghost predicate Valid()
      reads this
    {
      value == Fold16(INIT16, absorbed)
    }

    constructor ()
      ensures Valid() && absorbed == []
    {
      value, absorbed := INIT16, [];
    }

    method Reset()
      modifies this
      ensures Valid() && absorbed == []
    {
      value, absorbed := INIT16, [];
    }

    method UpdateByte(b: byte)
      requires Valid()
      modifies this
      ensures Valid() && absorbed == old(absorbed) + [b]
    {
      FoldSnoc(absorbed, b);
      value := UpdateLoop16(value, b);
      absorbed := absorbed + [b];
    }

    method Matches(wire: seq<byte>) returns (ok: bool)
      requires Valid() && |wire| == 2
      ensures ok <==> Read16(wire) == Crc16(absorbed)
    {
      ok := value == Read16(wire);
    }
  }

  /** A running CRC-32. `absorbed` remembers the bytes it stands for. */
  class Register32 {
    var value: bv32
    ghost var absorbed: seq<byte>

    ghost predicate Valid()
      reads this
    {
      value == Fold32(INIT32, absorbed)
    }

    constructor ()
      ensures Valid() && absorbed == []
    {
      value, absorbed := INIT32, [];
    }

    method Reset()
      modifies this
      ensures Valid() && absorbed == []
    {
      value, absorbed := INIT32, [];
    }

    method UpdateByte(b: byte)
      requires Valid()
      modifies this
      ensures Valid() && absorbed == old(absorbed) + [b]
    {
      FoldSnoc(absorbed, b);
      value := UpdateLoop32(value, b);
      absorbed := absorbed + [b];
    }

    method Matches(wire: seq<byte>) returns (ok: bool)
      requires Valid() && |wire| == 4
      ensures ok <==> Read32(wire) == Crc32(absorbed)
    {
      ok := value ^ 0xffffffff == Read32(wire);
    }
  }

  // ----- every step is injective, so every single-byte change is caught -----

  /** Undoes one round: the polynomial's marker bit tells which branch was taken. */
  function Unshift16(y: bv16): bv16 {
    if y & 1 != 0 then ((y ^ 0x1021) >> 1) | 0x8000 else y >> 1
  }

  lemma UnshiftShift16(x: bv16)
    ensures Unshift16(Shift16(x)) == x
  {
    if x & 0x8000 == 0 {
      LowHalf16(x);
    } else {
      HighHalf16(x);
      XorCancels16(x << 1, 0x1021);
    }
  }

  lemma LowHalf16(x: bv16)
    requires x & 0x8000 == 0
    ensures (x << 1) >> 1 == x && (x << 1) & 1 == 0
  {}

  lemma HighHalf16(x: bv16)
    requires x & 0x8000 != 0
    ensures ((x << 1) >> 1) | 0x8000 == x && ((x << 1) ^ 0x1021) & 1 != 0
  {}

  lemma {:induction false} RoundsInjective16(x: bv16, y: bv16, k: nat)
    requires Rounds16(x, k) == Rounds16(y, k)
    ensures x == y
    decreases k
  {
    if k > 0 {
      UnshiftShift16(x);
      UnshiftShift16(y);
      RoundsInjective16(Shift16(x), Shift16(y), k - 1);
    }
  }

  /** Undoes one round: the polynomial's marker bit tells which branch was taken. */
  function Unshift32(y: bv32): bv32 {
    if y & 0x80000000 != 0 then ((y ^ 0xedb88320) << 1) | 1 else y << 1
  }

  lemma UnshiftShift32(x: bv32)
    ensures Unshift32(Shift32(x)) == x
  {}

  lemma {:induction false} RoundsInjective32(x: bv32, y: bv32, k: nat)
    requires Rounds32(x, k) == Rounds32(y, k)
    ensures x == y
    decreases k
  {
    if k > 0 {
      UnshiftShift32(x);
      UnshiftShift32(y);
      RoundsInjective32(Shift32(x), Shift32(y), k - 1);
    }
  }

  /** The bits a byte occupies in the register. */
  function Placed16(v: bv8): bv16 { (v as bv16) << 8 }

  lemma PlacedInjective16(u: bv8, v: bv8)
    requires Placed16(u) == Placed16(v)
    ensures u == v
  {}

  lemma XorCancels16(x: bv16, w: bv16)
    ensures (x ^ w) ^ w == x
    ensures (x ^ w) ^ x == w
  {}

  lemma AbsorbInjective16(x: bv16, y: bv16, u: bv8, v: bv8)
    requires Absorb16(x, u) == Absorb16(y, v)
    ensures x == y <==> u == v
  {
    XorCancels16(x, Placed16(u));
    XorCancels16(y, Placed16(v));
    if x == y {
      PlacedInjective16(u, v);
    }
  }

  lemma UpdateInjective16(x: bv16, y: bv16, a: byte, b: byte)
    requires Update16(x, a) == Update16(y, b)
    ensures x == y <==> a == b
  {
    RoundsInjective16(Absorb16(x, Bits(a)), Absorb16(y, Bits(b)), 8);
    AbsorbInjective16(x, y, Bits(a), Bits(b));
    BitsInverse(a);
    BitsInverse(b);
  }

  /** The bits a byte occupies in the register. */
  function Placed32(v: bv8): bv32 { v as bv32 }

  lemma PlacedInjective32(u: bv8, v: bv8)
    requires Placed32(u) == Placed32(v)
    ensures u == v
  {}

  lemma XorCancels32(x: bv32, w: bv32)
    ensures (x ^ w) ^ w == x
    ensures (x ^ w) ^ x == w
  {}

  lemma AbsorbInjective32(x: bv32, y: bv32, u: bv8, v: bv8)
    requires Absorb32(x, u) == Absorb32(y, v)
    ensures x == y <==> u == v
  {
    XorCancels32(x, Placed32(u));
    XorCancels32(y, Placed32(v));
    if x == y {
      PlacedInjective32(u, v);
    }
  }

  lemma UpdateInjective32(x: bv32, y: bv32, a: byte, b: byte)
    requires Update32(x, a) == Update32(y, b)
    ensures x == y <==> a == b
  {
    RoundsInjective32(Absorb32(x, Bits(a)), Absorb32(y, Bits(b)), 8);
    AbsorbInjective32(x, y, Bits(a), Bits(b));
    BitsInverse(a);
    BitsInverse(b);
  }

  lemma {:induction false} FoldInjective16(x: bv16, y: bv16, data: seq<byte>)
    requires Fold16(x, data) == Fold16(y, data)
    ensures x == y
    decreases |data|
  {
    if data != [] {
      FoldInjective16(Update16(x, data[0]), Update16(y, data[0]), data[1..]);
      UpdateInjective16(x, y, data[0], data[0]);
    }
  }

  lemma {:induction false} FoldInjective32(x: bv32, y: bv32, data: seq<byte>)
    requires Fold32(x, data) == Fold32(y, data)
    ensures x == y
    decreases |data|
  {
    if data != [] {
      FoldInjective32(Update32(x, data[0]), Update32(y, data[0]), data[1..]);
      UpdateInjective32(x, y, data[0], data[0]);
    }
  }

  /** Two messages of one length that differ at exactly the position `i`. */
  ghost predicate DifferAtOnly(a: seq<byte>, b: seq<byte>, i: nat) {
    && |a| == |b|
    && i < |a|
    && a[i] != b[i]
    && a[..i] == b[..i]
    && a[i + 1..] == b[i + 1..]
  }

  /** A fold seen from position `i`: the prefix, one byte, the suffix. */
  lemma FoldAround16(crc: bv16, data: seq<byte>, i: nat)
    requires i < |data|
    ensures Fold16(crc, data) == Fold16(Update16(Fold16(crc, data[..i]), data[i]), data[i + 1..])
  {
    FoldAppend16(crc, data[..i], data[i..]);
    assert data == data[..i] + data[i..];
    assert data[i..][1..] == data[i + 1..];
  }

  lemma Crc16DetectsByteChange(a: seq<byte>, b: seq<byte>, i: nat)
    requires DifferAtOnly(a, b, i)
    ensures Crc16(a) != Crc16(b)
  {
    var before := Fold16(INIT16, a[..i]);
    FoldAround16(INIT16, a, i);
    FoldAround16(INIT16, b, i);
    if Fold16(INIT16, a) == Fold16(INIT16, b) {
      FoldInjective16(Update16(before, a[i]), Update16(before, b[i]), a[i + 1..]);
      UpdateInjective16(before, before, a[i], b[i]);
    }
  }

  /** A fold seen from position `i`: the prefix, one byte, the suffix. */
  lemma FoldAround32(crc: bv32, data: seq<byte>, i: nat)
    requires i < |data|
    ensures Fold32(crc, data) == Fold32(Update32(Fold32(crc, data[..i]), data[i]), data[i + 1..])
  {
    FoldAppend32(crc, data[..i], data[i..]);
    assert data == data[..i] + data[i..];
    assert data[i..][1..] == data[i + 1..];
  }

  lemma Crc32DetectsByteChange(a: seq<byte>, b: seq<byte>, i: nat)
    requires DifferAtOnly(a, b, i)
    ensures Crc32(a) != Crc32(b)
  {
    var before := Fold32(INIT32, a[..i]);
    FoldAround32(INIT32, a, i);
    FoldAround32(INIT32, b, i);
    if Fold32(INIT32, a) == Fold32(INIT32, b) {
      FoldInjective32(Update32(before, a[i]), Update32(before, b[i]), a[i + 1..]);
      UpdateInjective32(before, before, a[i], b[i]);
    }
    XorCancels32(Fold32(INIT32, a), 0xffffffff);
    XorCancels32(Fold32(INIT32, b), 0xffffffff);
  }
}
