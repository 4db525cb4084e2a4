/** ZDLE link escaping: section 7.2 of the ZMODEM protocol description. */
module Escape {
  import opened Bytes

  const ZPAD: byte := 42
  const ZDLE: byte := 24
  const XON: byte := 17

  // Subpacket end types.
  const ZCRCE: byte := 0x68
  const ZCRCG: byte := 0x69
  const ZCRCQ: byte := 0x6a
  const ZCRCW: byte := 0x6b

  predicate IsSubpacketType(b: byte) {
    b == ZCRCE || b == ZCRCG || b == ZCRCQ || b == ZCRCW
  }

  /** Bytes the line must not carry as data. */
  predicate MustEscape(v: byte) {
    v in {0x0d, 0x10, 0x11, 0x13, 0x18, 0x8d, 0x90, 0x91, 0x93, 0x7f, 0xff}
  }

  /** The byte sent for `v`; it follows a ZDLE exactly when `MustEscape(v)`. */
  function Zdle(v: byte): byte {
    if v == 0x7f then 0x6c
    else if v == 0xff then 0x6d
    else if !MustEscape(v) then v
    else FlipBit6(v)
  }

  /** Exclusive-or with 0x40. */
  function FlipBit6(v: byte): byte {
    if v / 64 % 2 == 1 then v - 64 else v + 64
  }

  function Unzdle(v: byte): byte {
    if v == 0x6c then 0x7f
    else if v == 0x6d then 0xff
    else if v == 0xcd then 0x8d
    else if v == 0xd0 then 0x90
    else if v == 0xd1 then 0x91
    else if v == 0xd3 then 0x93
    else if 0x40 <= v <= 0x5f then FlipBit6(v)
    else v
  }

  function EscapeByte(v: byte): seq<byte> {
    if MustEscape(v) then [ZDLE, Zdle(v)] else [v]
  }

  function Escaped(data: seq<byte>): seq<byte> {
    if data == [] then [] else EscapeByte(data[0]) + Escaped(data[1..])
  }

  lemma {:induction false} EscapedAppend(a: seq<byte>, b: seq<byte>)
    ensures Escaped(a + b) == Escaped(a) + Escaped(b)
    decreases |a|
  {
    if a == [] {
      assert a + b == b;
    } else {
      assert (a + b)[1..] == a[1..] + b;
      EscapedAppend(a[1..], b);
    }
  }

  lemma EscapedSnoc(data: seq<byte>, i: nat)
    requires i < |data|
    ensures Escaped(data[..i + 1]) == Escaped(data[..i]) + EscapeByte(data[i])
  {
    assert data[..i + 1] == data[..i] + [data[i]];
    EscapedAppend(data[..i], [data[i]]);
    assert Escaped([data[i]]) == EscapeByte(data[i]);
  }

  method WriteSliceEscaped(data: seq<byte>) returns (result: seq<byte>)
    ensures result == Escaped(data)
  {
    result := [];
    for i := 0 to |data|
      invariant result == Escaped(data[..i])
    {
      EscapedSnoc(data, i);
      var b := data[i];
      if MustEscape(b) {
        result := result + [ZDLE];
      }
      result := result + [Zdle(b)];
    }
    assert data[..|data|] == data;
  }

  // ----- decoding -----

  datatype Unescaping = Unescaping(out: seq<byte>, pending: bool)

  /** What the readers do with one escaped byte. */
  function UnescapeStep(u: Unescaping, b: byte): Unescaping {
    if u.pending then Unescaping(u.out + [Unzdle(b)], false)
    else if b == ZDLE then Unescaping(u.out, true)
    else Unescaping(u.out + [b], false)
  }

  function Unescape(u: Unescaping, data: seq<byte>): Unescaping
    decreases |data|
  {
    if data == [] then u else Unescape(UnescapeStep(u, data[0]), data[1..])
  }

  lemma UnzdleZdle(v: byte)
    ensures MustEscape(v) ==> Unzdle(Zdle(v)) == v && !IsSubpacketType(Zdle(v)) && !MustEscape(Zdle(v))
    ensures !MustEscape(v) ==> Zdle(v) == v && v != ZDLE
  {}

  lemma {:induction false} UnescapeEscaped(out: seq<byte>, data: seq<byte>)
    ensures Unescape(Unescaping(out, false), Escaped(data)) == Unescaping(out + data, false)
    decreases |data|
  {
    if data == [] {
      assert out + data == out;
    } else {
      var b := data[0];
      var rest := Escaped(data[1..]);
      UnzdleZdle(b);
      UnescapeEscaped(out + [b], data[1..]);
      assert (out + [b]) + data[1..] == out + data;
      if MustEscape(b) {
        assert Escaped(data) == [ZDLE, Zdle(b)] + rest;
        assert Escaped(data)[1..] == [Zdle(b)] + rest;
        assert ([Zdle(b)] + rest)[1..] == rest;
      } else {
        assert Escaped(data) == [b] + rest;
        assert Escaped(data)[1..] == rest;
      }
    }
  }

  /** Escaping is injective: decoding recovers the data. */
  lemma EscapeRoundTrip(data: seq<byte>)
    ensures Unescape(Unescaping([], false), Escaped(data)) == Unescaping(data, false)
  {
    UnescapeEscaped([], data);
    assert [] + data == data;
  }

  ghost predicate LineSafeAt(e: seq<byte>, i: nat)
    requires i < |e|
  {
    MustEscape(e[i]) ==>
      e[i] == ZDLE && i + 1 < |e| && !MustEscape(e[i + 1]) && !IsSubpacketType(e[i + 1])
  }

  ghost predicate LineSafe(e: seq<byte>) {
    forall i :: 0 <= i < |e| ==> LineSafeAt(e, i)
  }

  lemma LineSafeAppend(a: seq<byte>, b: seq<byte>)
    requires LineSafe(a) && LineSafe(b)
    ensures LineSafe(a + b)
  {
    forall i | 0 <= i < |a + b|
      ensures LineSafeAt(a + b, i)
    {
      if i < |a| {
        assert LineSafeAt(a, i);
      } else {
        assert LineSafeAt(b, i - |a|);
      }
    }
  }

  /** Escaped data carries no byte the line must not carry, except ZDLE as a prefix; a ZDLE is never
      last and never followed by another ZDLE or by a subpacket type. */
  lemma {:induction false} EscapedIsLineSafe(data: seq<byte>)
    ensures LineSafe(Escaped(data))
    decreases |data|
  {
    if data != [] {
      UnzdleZdle(data[0]);
      EscapedIsLineSafe(data[1..]);
      LineSafeAppend(EscapeByte(data[0]), Escaped(data[1..]));
    }
  }

  /** The bytes that a line or a modem may react to: CR, DLE, XON, XOFF and ZDLE, their twins with the high bit, DEL
      and 0xff. */
  const RESERVED: set<byte> := {0x0d, 0x10, 0x11, 0x13, 0x18, 0x8d, 0x90, 0x91, 0x93, 0x7f, 0xff}

  lemma ReservedMustBeEscaped(b: byte)
    ensures MustEscape(b) <==> b in RESERVED
  {}

  /** Of these only ZDLE is ever sent, and only in front of a byte that is neither another ZDLE nor the end of a
      subpacket. */
  lemma ReservedIsNeverSent(data: seq<byte>, i: nat)
    requires i < |Escaped(data)|
    ensures var e := Escaped(data);
      && (e[i] in RESERVED ==> e[i] == 0x18)
      && (e[i] == 0x18 ==> i + 1 < |e| && e[i + 1] !in RESERVED && !(0x68 <= e[i + 1] <= 0x6b))
  {
    hide Escaped, MustEscape;
    var e := Escaped(data);
    EscapedIsLineSafe(data);
    assert LineSafeAt(e, i);
    ReservedMustBeEscaped(e[i]);
    if i + 1 < |e| {
      ReservedMustBeEscaped(e[i + 1]);
    }
    ReservedMustBeEscaped(0x18);
  }

  /** All other bytes are sent as they are. */
  lemma OthersAreSentAsTheyAre(data: seq<byte>)
    requires forall b :: b in data ==> b !in RESERVED
    ensures Escaped(data) == data
  {
    hide Escaped, MustEscape;
    forall i | 0 <= i < |data| ensures !MustEscape(data[i]) {
      assert data[i] in data;
      ReservedMustBeEscaped(data[i]);
    }
    EscapedPlain(data);
  }

  /** A control character with bit 6 set stands for the character, also where this side would not have escaped it. */
  lemma ControlsAreUnescaped(c: byte)
    requires c < 0x20
    ensures Unescape(Unescaping([], false), [0x18, c + 0x40]) == Unescaping([c], false)
  {
    assert [0x18, c + 0x40][1..] == [c + 0x40] && [c + 0x40][1..] == [];
    assert Unescape(Unescaping([], true), [c + 0x40]) == Unescape(Unescaping([] + [c], false), []);
    assert [] + [c] == [c];
  }

  lemma {:induction false} EscapedLength(data: seq<byte>)
    ensures |data| <= |Escaped(data)| <= 2 * |data|
    decreases |data|
  {
    if data != [] {
      EscapedLength(data[1..]);
    }
  }

  lemma {:induction false} EscapedPlain(data: seq<byte>)
    requires forall i :: 0 <= i < |data| ==> !MustEscape(data[i])
    ensures Escaped(data) == data
    decreases |data|
  {
    if data != [] {
      EscapedPlain(data[1..]);
    }
  }
}
